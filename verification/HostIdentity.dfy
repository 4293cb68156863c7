/** The server's host certificate and key: two files, replaced one after the other under a
    lock, by any number of processes that may stop between the two writes. */
module HostIdentity {
  import opened Common

  type Blob = seq<Byte>

  /** Whether a certificate and a key form a valid pair. */
  type PairCheck = (Blob, Blob) -> bool

  datatype Pair = Pair(cert: Blob, key: Blob)

  predicate Usable(valid: PairCheck, cert: Option<Blob>, key: Option<Blob>) {
    cert.Some? && key.Some? && valid(cert.value, key.value)
  }

  // ----- One process -----

  class Store {
    var cert: Option<Blob>
    var key: Option<Blob>

    constructor (cert: Option<Blob>, key: Option<Blob>)
      ensures this.cert == cert && this.key == key
    {
      this.cert, this.key := cert, key;
    }

    /** Returns the stored pair if it is valid, and otherwise installs `candidate`, except that a
        mismatched pair at explicitly given paths is an error and is left alone, and so is
        giving one path for both files. */
    method LoadOrCreate(valid: PairCheck, explicit: bool, samePath: bool, candidate: Pair) returns (r: Result<Pair>)
      requires valid(candidate.cert, candidate.key)
      modifies this
      ensures r.Ok? ==> Usable(valid, cert, key) && r.value == Pair(cert.value, key.value)
      ensures old(Usable(valid, cert, key)) && !samePath ==> r.Ok? && cert == old(cert) && key == old(key)
      ensures r.Err? <==>
              samePath || (explicit && old(cert).Some? && old(key).Some? && !old(Usable(valid, cert, key)))
      ensures r.Err? ==> cert == old(cert) && key == old(key)
      ensures r.Ok? && !old(Usable(valid, cert, key)) ==> r.value == candidate
    {
      if samePath {
        return Err;
      }
      if cert.Some? && key.Some? {
        if valid(cert.value, key.value) {
          return Ok(Pair(cert.value, key.value));
        }
        if explicit {
          return Err;
        }
      }
      cert := Some(candidate.cert);
      key := Some(candidate.key);
      r := Ok(candidate);
    }
  }

  // ----- Any number of processes -----

  datatype Proc =
    | Started
    | Locked
    | CertRead(cert: Option<Blob>)
    | BothRead(cert: Option<Blob>, key: Option<Blob>)
    | Generated(pair: Pair)
    | CertWritten(pair: Pair)
    | Returning(pair: Pair)

  datatype State = State(cert: Option<Blob>, key: Option<Blob>, lock: Option<nat>, procs: map<nat, Proc>,
                         returned: set<Pair>)

  datatype Action =
    | Begin(pid: nat)
    | Acquire(pid: nat)
    | ReadCert(pid: nat)
    | ReadKey(pid: nat)
    | Decide(pid: nat, candidate: Pair)
    | WriteCert(pid: nat)
    | WriteKey(pid: nat)
    | Return(pid: nat)
    | Stop(pid: nat)  // an error return or a crash: the lock goes with the process

  predicate Enabled(valid: PairCheck, s: State, a: Action) {
    if a.Begin? then a.pid !in s.procs
    else
      a.pid in s.procs &&
      match a
      case Begin(_) => false
      case Acquire(pid) => s.procs[pid].Started? && s.lock.None?
      case ReadCert(pid) => s.procs[pid].Locked?
      case ReadKey(pid) => s.procs[pid].CertRead?
      case Decide(pid, candidate) => s.procs[pid].BothRead? && valid(candidate.cert, candidate.key)
      case WriteCert(pid) => s.procs[pid].Generated?
      case WriteKey(pid) => s.procs[pid].CertWritten?
      case Return(pid) => s.procs[pid].Returning?
      case Stop(_) => true
  }

  function Move(s: State, pid: nat, proc: Proc): State {
    s.(procs := s.procs[pid := proc])
  }

  function Leave(s: State, pid: nat): State {
    s.(procs := s.procs - {pid}, lock := if s.lock == Some(pid) then None else s.lock)
  }

  /** With default paths: a valid pair is returned, anything else is replaced by a fresh one. */
  function Decided(valid: PairCheck, p: Proc, candidate: Pair): Proc
    requires p.BothRead?
  {
    if Usable(valid, p.cert, p.key) then Returning(Pair(p.cert.value, p.key.value)) else Generated(candidate)
  }

  function Next(valid: PairCheck, s: State, a: Action): State {
    if !Enabled(valid, s, a) then s
    else if a.Begin? then Move(s, a.pid, Started)
    else
      var p := s.procs[a.pid];
      if a.Acquire? then Move(s, a.pid, Locked).(lock := Some(a.pid))
      else if a.ReadCert? then Move(s, a.pid, CertRead(s.cert))
      else if a.ReadKey? then Move(s, a.pid, BothRead(p.cert, s.key))
      else if a.Decide? then Move(s, a.pid, Decided(valid, p, a.candidate))
      else if a.WriteCert? then Move(s, a.pid, CertWritten(p.pair)).(cert := Some(p.pair.cert))
      else if a.WriteKey? then Move(s, a.pid, Returning(p.pair)).(key := Some(p.pair.key))
      else if a.Return? then Leave(s, a.pid).(returned := s.returned + {p.pair})
      else Leave(s, a.pid)
  }

  function After(valid: PairCheck, s: State, run: seq<Action>, n: nat): State
    requires n <= |run|
  {
    if n == 0 then s else Next(valid, After(valid, s, run, n - 1), run[n - 1])
  }

  predicate Initial(s: State) {
    s.lock.None? && s.procs == map[] && s.returned == {}
  }

  /** The two files hold exactly this pair, and it is valid. */
  predicate Installed(valid: PairCheck, s: State, pair: Pair) {
    s.cert == Some(pair.cert) && s.key == Some(pair.key) && valid(pair.cert, pair.key)
  }

  predicate ProcSound(valid: PairCheck, s: State, pid: nat, p: Proc) {
    && (!p.Started? ==> s.lock == Some(pid))
    && (p.CertRead? ==> p.cert == s.cert)
    && (p.BothRead? ==> p.cert == s.cert && p.key == s.key)
    && (p.Generated? ==> valid(p.pair.cert, p.pair.key) && s.returned == {})
    && (p.CertWritten? ==> valid(p.pair.cert, p.pair.key) && s.cert == Some(p.pair.cert) && s.returned == {})
    && (p.Returning? ==> Installed(valid, s, p.pair))
  }

  predicate Inv(valid: PairCheck, s: State) {
    && (forall pid :: pid in s.procs ==> ProcSound(valid, s, pid, s.procs[pid]))
    && (s.lock.Some? ==> s.lock.value in s.procs)
    && (forall pair :: pair in s.returned ==> Installed(valid, s, pair))
  }

  lemma StepKeeps(valid: PairCheck, s: State, a: Action)
    requires Inv(valid, s)
    ensures Inv(valid, Next(valid, s, a))
    ensures s.returned <= Next(valid, s, a).returned
  {
    if Enabled(valid, s, a) {
      var s' := Next(valid, s, a);
      assert !a.Begin? ==> ProcSound(valid, s, a.pid, s.procs[a.pid]);
      forall q | q in s'.procs ensures ProcSound(valid, s', q, s'.procs[q]) {
        assert q != a.pid ==> ProcSound(valid, s, q, s.procs[q]);
      }
    }
  }

  lemma {:induction false} RunKeeps(valid: PairCheck, s: State, run: seq<Action>, n: nat)
    requires Initial(s) && n <= |run|
    ensures Inv(valid, After(valid, s, run, n))
    decreases n
  {
    if n > 0 {
      RunKeeps(valid, s, run, n - 1);
      StepKeeps(valid, After(valid, s, run, n - 1), run[n - 1]);
    }
  }

  lemma {:induction false} ReturnedStays(valid: PairCheck, s: State, run: seq<Action>, m: nat, n: nat)
    requires Initial(s) && m <= n <= |run|
    ensures After(valid, s, run, m).returned <= After(valid, s, run, n).returned
    decreases n
  {
    if m < n {
      ReturnedStays(valid, s, run, m, n - 1);
      RunKeeps(valid, s, run, n - 1);
      StepKeeps(valid, After(valid, s, run, n - 1), run[n - 1]);
    }
  }

  /** Once some call returned a pair, the disk holds that valid pair in every later state,
      and every later return equals it, whatever other processes do and wherever they stop. */
  lemma IdentityIsStable(valid: PairCheck, s: State, run: seq<Action>, m: nat, n: nat, pair: Pair)
    requires Initial(s) && m <= n <= |run|
    requires pair in After(valid, s, run, m).returned
    ensures Installed(valid, After(valid, s, run, n), pair)
    ensures After(valid, s, run, n).returned == {pair}
  {
    ReturnedStays(valid, s, run, m, n);
    RunKeeps(valid, s, run, n);
  }

  /** A call that completes leaves a valid pair behind, whatever mixture it found: a pair
      interrupted between its two writes is repaired. */
  lemma CompletionRepairs(valid: PairCheck, s: State, run: seq<Action>, n: nat)
    requires Initial(s) && n < |run|
    requires run[n].Return? && Enabled(valid, After(valid, s, run, n), run[n])
    ensures var t := After(valid, s, run, n + 1);
            Usable(valid, t.cert, t.key) && t.returned == {Pair(t.cert.value, t.key.value)}
  {
    RunKeeps(valid, s, run, n + 1);
    var t := After(valid, s, run, n);
    var pair := t.procs[run[n].pid].pair;
    assert pair in After(valid, s, run, n + 1).returned;
  }

  // ----- One process alone -----

  function Alone(pid: nat, candidate: Pair): (run: seq<Action>)
    ensures |run| == 8
  {
    [Begin(pid), Acquire(pid), ReadCert(pid), ReadKey(pid), Decide(pid, candidate), WriteCert(pid), WriteKey(pid),
     Return(pid)]
  }

  /** Its first four steps read both files under the lock. */
  lemma AloneReads(valid: PairCheck, s: State, pid: nat, candidate: Pair)
    requires s.procs == map[] && s.lock.None?
    ensures After(valid, s, Alone(pid, candidate), 4) ==
            s.(procs := map[pid := BothRead(s.cert, s.key)], lock := Some(pid))
  {
    var run := Alone(pid, candidate);
    assert After(valid, s, run, 0) == s;
    assert After(valid, s, run, 1) == Next(valid, s, run[0]);
    assert After(valid, s, run, 2) == Next(valid, After(valid, s, run, 1), run[1]);
    assert After(valid, s, run, 3) == Next(valid, After(valid, s, run, 2), run[2]);
    assert After(valid, s, run, 4) == Next(valid, After(valid, s, run, 3), run[3]);
  }

  /** A process that runs alone does what `Store.LoadOrCreate` does with default paths. */
  lemma AloneIsLoadOrCreate(valid: PairCheck, s: State, pid: nat, candidate: Pair)
    requires s.procs == map[] && s.lock.None? && valid(candidate.cert, candidate.key)
    ensures var t := After(valid, s, Alone(pid, candidate), 8);
            var pair := if Usable(valid, s.cert, s.key) then Pair(s.cert.value, s.key.value) else candidate;
            && t.procs == map[] && t.lock.None? && t.returned == s.returned + {pair}
            && t.cert == Some(pair.cert) && t.key == Some(pair.key)
  {
    var run := Alone(pid, candidate);
    AloneReads(valid, s, pid, candidate);
    var s4 := After(valid, s, run, 4);
    var s5 := After(valid, s, run, 5);
    assert s5 == Next(valid, s4, run[4]);
    var s6 := After(valid, s, run, 6);
    assert s6 == Next(valid, s5, run[5]);
    var s7 := After(valid, s, run, 7);
    assert s7 == Next(valid, s6, run[6]);
    assert After(valid, s, run, 8) == Next(valid, s7, run[7]);
  }
}
