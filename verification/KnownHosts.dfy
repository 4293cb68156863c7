/** Trust-on-first-use host pins: the check of one client, and any number of clients with
    stale snapshots that share the file under an exclusive lock and may crash anywhere. */
module KnownHosts {
  import opened Common

  type Host = string
  type Fingerprint = string
  type Pins = map<Host, Fingerprint>

  datatype Trust = Tofu | KnownOnly | Insecure

  datatype Verdict = Accept | Reject | Pin

  /** What the pins say about a fingerprint presented by a host. */
  function Judge(pins: Pins, host: Host, fingerprint: Fingerprint, insert: bool): Verdict {
    if host in pins then if pins[host] == fingerprint then Accept else Reject
    else if insert then Pin
    else Reject
  }

  /** The first map is part of the second: nothing removed, nothing changed. */
  predicate Within(a: Pins, b: Pins) {
    forall h :: h in a ==> h in b && a[h] == b[h]
  }

  // ----- One client -----

  class Disk {
    var pins: Pins

    constructor ()
      ensures pins == map[]
    {
      pins := map[];
    }
  }

  class Client {
    var entries: Pins

    /** `KnownHosts::load`: a snapshot that other clients may outdate. */
    constructor (disk: Disk)
      ensures entries == disk.pins
    {
      entries := disk.pins;
    }

    method CheckExisting(disk: Disk, host: Host, fingerprint: Fingerprint, insert: bool) returns (ok: bool)
      requires entries == disk.pins
      modifies this, disk
      ensures ok <==> !Judge(old(disk.pins), host, fingerprint, insert).Reject?
      ensures entries == disk.pins
      ensures disk.pins == if Judge(old(disk.pins), host, fingerprint, insert).Pin?
                           then old(disk.pins)[host := fingerprint] else old(disk.pins)
    {
      if host in entries {
        return entries[host] == fingerprint;
      }
      if !insert {
        return false;
      }
      entries := entries[host := fingerprint];
      disk.pins := entries;
      return true;
    }

    /** The whole check: an accepted host is pinned with that fingerprint afterwards, no pin
        is ever removed or changed, and whatever snapshot the client held does not matter. */
    method CheckOrInsert(disk: Disk, host: Host, fingerprint: Fingerprint, trust: Trust) returns (ok: bool)
      modifies this, disk
      ensures Within(old(disk.pins), disk.pins)
      ensures trust == Insecure ==> ok && disk.pins == old(disk.pins) && entries == old(entries)
      ensures trust == KnownOnly ==> disk.pins == old(disk.pins)
      ensures trust != Insecure && ok ==> host in disk.pins && disk.pins[host] == fingerprint
      ensures trust == Tofu ==> (ok <==> (host in old(disk.pins) ==> old(disk.pins)[host] == fingerprint))
      ensures trust == KnownOnly ==> (ok <==> host in old(disk.pins) && old(disk.pins)[host] == fingerprint)
    {
      if trust == Insecure {
        return true;
      }
      entries := disk.pins;
      ok := CheckExisting(disk, host, fingerprint, trust == Tofu);
    }
  }

  // ----- Any number of clients -----

  /** Where a client stands. `Locked` to `Renamed` happen under the file lock; a known-only
      client goes from `Started` to `Loaded` without it. */
  datatype Phase = Started | Locked | Loaded | Inserted | TempWritten | Renamed | Accepting

  datatype Proc = Proc(host: Host, fingerprint: Fingerprint, trust: Trust, entries: Pins, phase: Phase)

  datatype Accepted = Accepted(host: Host, fingerprint: Fingerprint, trust: Trust)

  datatype State = State(disk: Pins, lock: Option<nat>, procs: map<nat, Proc>, accepted: set<Accepted>)

  datatype Action =
    | Begin(pid: nat, host: Host, fingerprint: Fingerprint, trust: Trust, snapshot: Pins)
    | Acquire(pid: nat)
    | Read(pid: nat)
    | Check(pid: nat)
    | WriteTemp(pid: nat)
    | Rename(pid: nat)
    | SyncDirectory(pid: nat)
    | Return(pid: nat)
    | Stop(pid: nat)  // an error return or a crash: the lock goes with the process

  function Move(s: State, pid: nat, proc: Proc): State {
    s.(procs := s.procs[pid := proc])
  }

  /** The process is gone, and with it the lock if it held it. */
  function Leave(s: State, pid: nat): State {
    s.(procs := s.procs - {pid}, lock := if s.lock == Some(pid) then None else s.lock)
  }

  function Begun(a: Action): Proc
    requires a.Begin?
  {
    Proc(a.host, a.fingerprint, a.trust, a.snapshot, if a.trust == Insecure then Accepting else Started)
  }

  /** The verdict on what was loaded from disk. */
  function Checked(s: State, pid: nat, p: Proc): State {
    match Judge(p.entries, p.host, p.fingerprint, p.trust == Tofu)
    case Accept => Move(s, pid, p.(phase := Accepting))
    case Reject => Leave(s, pid)
    case Pin => Move(s, pid, p.(phase := Inserted, entries := p.entries[p.host := p.fingerprint]))
  }

  /** Whether the client is at the point the action starts from. */
  predicate Enabled(s: State, a: Action) {
    match a
    case Begin(pid, _, _, _, _) => pid !in s.procs
    case Acquire(pid) =>
      pid in s.procs && s.procs[pid].phase == Started && s.procs[pid].trust == Tofu && s.lock.None?
    case Read(pid) =>
      pid in s.procs &&
      (s.procs[pid].phase == Locked || (s.procs[pid].phase == Started && s.procs[pid].trust == KnownOnly))
    case Check(pid) => pid in s.procs && s.procs[pid].phase == Loaded
    case WriteTemp(pid) => pid in s.procs && s.procs[pid].phase == Inserted
    case Rename(pid) => pid in s.procs && s.procs[pid].phase == TempWritten
    case SyncDirectory(pid) => pid in s.procs && s.procs[pid].phase == Renamed
    case Return(pid) => pid in s.procs && s.procs[pid].phase == Accepting
    case Stop(pid) => pid in s.procs
  }

  /** One atomic step of one client; a step that is not enabled changes nothing. */
  function Next(s: State, a: Action): State {
    if !Enabled(s, a) then s
    else if a.Begin? then Move(s, a.pid, Begun(a))
    else
      var p := s.procs[a.pid];
      if a.Acquire? then Move(s, a.pid, p.(phase := Locked)).(lock := Some(a.pid))
      else if a.Read? then Move(s, a.pid, p.(phase := Loaded, entries := s.disk))
      else if a.Check? then Checked(s, a.pid, p)
      else if a.WriteTemp? then Move(s, a.pid, p.(phase := TempWritten))
      else if a.Rename? then Move(s, a.pid, p.(phase := Renamed)).(disk := p.entries)
      else if a.SyncDirectory? then Move(s, a.pid, p.(phase := Accepting))
      else if a.Return? then
        Leave(s, a.pid).(accepted := s.accepted + {Accepted(p.host, p.fingerprint, p.trust)})
      else Leave(s, a.pid)
  }

  /** The state after the first `n` steps of a run. */
  function After(s: State, run: seq<Action>, n: nat): State
    requires n <= |run|
  {
    if n == 0 then s else Next(After(s, run, n - 1), run[n - 1])
  }

  predicate Initial(s: State) {
    s.lock.None? && s.procs == map[] && s.accepted == {}
  }

  predicate Pinned(disk: Pins, host: Host, fingerprint: Fingerprint) {
    host in disk && disk[host] == fingerprint
  }

  /** What a client knows about the disk at its phase. */
  predicate ProcSound(s: State, pid: nat, p: Proc) {
    && (p.phase == Started ==> p.trust != Insecure)
    && (p.phase == Loaded && p.trust == KnownOnly ==> Within(p.entries, s.disk))
    && (p.phase == Loaded && p.trust == Tofu ==> s.lock == Some(pid) && p.entries == s.disk)
    && (p.phase == Loaded ==> p.trust != Insecure)
    && (p.phase == Locked ==> s.lock == Some(pid) && p.trust == Tofu)
    && (p.phase == Inserted || p.phase == TempWritten ==>
          && s.lock == Some(pid) && p.trust == Tofu && p.host !in s.disk
          && p.entries == s.disk[p.host := p.fingerprint])
    && (p.phase == Renamed ==> s.lock == Some(pid) && p.trust == Tofu)
    && (p.phase == Renamed || p.phase == Accepting ==>
          p.trust == Insecure || Pinned(s.disk, p.host, p.fingerprint))
  }

  predicate Inv(s: State) {
    && (forall pid :: pid in s.procs ==> ProcSound(s, pid, s.procs[pid]))
    && (s.lock.Some? ==> s.lock.value in s.procs)
    && (forall x :: x in s.accepted && x.trust != Insecure ==> Pinned(s.disk, x.host, x.fingerprint))
  }

  /** The one step that writes the file: only the lock holder gets here, so the file still
      is what it loaded, and the new contents add one host that was not there. */
  lemma RenameKeeps(s: State, pid: nat)
    requires Inv(s) && Enabled(s, Rename(pid))
    ensures Inv(Next(s, Rename(pid))) && Within(s.disk, Next(s, Rename(pid)).disk)
  {
    var s' := Next(s, Rename(pid));
    forall q | q in s'.procs ensures ProcSound(s', q, s'.procs[q]) {
      assert ProcSound(s, q, s.procs[q]) && ProcSound(s, pid, s.procs[pid]);
    }
  }

  lemma LeaveKeeps(s: State, pid: nat)
    requires Inv(s) && pid in s.procs
    ensures Inv(Leave(s, pid))
  {
    var s' := Leave(s, pid);
    forall q | q in s'.procs ensures ProcSound(s', q, s'.procs[q]) {
      assert ProcSound(s, q, s.procs[q]);
    }
  }

  /** Moving one client on without touching the file keeps the others sound. */
  lemma MoveKeeps(s: State, pid: nat, p: Proc, lock: Option<nat>)
    requires Inv(s) && (lock == s.lock || (s.lock.None? && lock == Some(pid)))
    requires ProcSound(s.(lock := lock), pid, p)
    ensures Inv(Move(s, pid, p).(lock := lock))
  {
    var s' := Move(s, pid, p).(lock := lock);
    forall q | q in s'.procs ensures ProcSound(s', q, s'.procs[q]) {
      if q != pid {
        assert ProcSound(s, q, s.procs[q]);
      }
    }
  }

  /** Every step keeps the invariant and lets the pins on disk only grow. */
  lemma StepKeeps(s: State, a: Action)
    requires Inv(s)
    ensures Inv(Next(s, a)) && Within(s.disk, Next(s, a).disk)
  {
    if Enabled(s, a) {
      if a.Begin? {
        MoveKeeps(s, a.pid, Begun(a), s.lock);
      } else if a.Rename? {
        RenameKeeps(s, a.pid);
      } else {
        assert ProcSound(s, a.pid, s.procs[a.pid]);
        LeaveKeeps(s, a.pid);
        var s' := Next(s, a);
        if a.pid in s'.procs {
          MoveKeeps(s, a.pid, s'.procs[a.pid], s'.lock);
        }
      }
    }
  }

  lemma {:induction false} RunKeeps(s: State, run: seq<Action>, n: nat)
    requires Initial(s) && n <= |run|
    ensures Inv(After(s, run, n))
    decreases n
  {
    if n > 0 {
      RunKeeps(s, run, n - 1);
      StepKeeps(After(s, run, n - 1), run[n - 1]);
    }
  }

  /** For any number of clients, snapshots and crashes, the pins on disk only grow and no
      pinned fingerprint ever changes. */
  lemma {:induction false} PinsOnlyGrow(s: State, run: seq<Action>, m: nat, n: nat)
    requires Initial(s) && m <= n <= |run|
    ensures Within(After(s, run, m).disk, After(s, run, n).disk)
    decreases n
  {
    if m < n {
      PinsOnlyGrow(s, run, m, n - 1);
      RunKeeps(s, run, n - 1);
      StepKeeps(After(s, run, n - 1), run[n - 1]);
    }
  }

  /** Any two checks of one host that succeeded, ever, saw the same fingerprint. */
  lemma ChecksAgree(s: State, run: seq<Action>, x: Accepted, y: Accepted)
    requires Initial(s)
    requires x in After(s, run, |run|).accepted && y in After(s, run, |run|).accepted
    requires x.trust != Insecure && y.trust != Insecure && x.host == y.host
    ensures x.fingerprint == y.fingerprint
    ensures Pinned(After(s, run, |run|).disk, x.host, x.fingerprint)
  {
    RunKeeps(s, run, |run|);
  }

  // ----- One client alone -----

  function Alone(pid: nat, host: Host, fingerprint: Fingerprint, trust: Trust, snapshot: Pins): (run: seq<Action>)
    ensures |run| == 8
  {
    [Begin(pid, host, fingerprint, trust, snapshot), Acquire(pid), Read(pid), Check(pid), WriteTemp(pid), Rename(pid),
     SyncDirectory(pid), Return(pid)]
  }

  /** Its first three steps load the pins from disk, under the lock unless it only reads. */
  lemma AloneLoads(s: State, pid: nat, host: Host, fingerprint: Fingerprint, trust: Trust, snapshot: Pins)
    requires s.procs == map[] && s.lock.None? && trust != Insecure
    ensures After(s, Alone(pid, host, fingerprint, trust, snapshot), 3) ==
            s.(procs := map[pid := Proc(host, fingerprint, trust, s.disk, Loaded)],
               lock := if trust == Tofu then Some(pid) else None)
  {
    var run := Alone(pid, host, fingerprint, trust, snapshot);
    assert After(s, run, 0) == s;
    assert After(s, run, 1) == Next(s, run[0]) == s.(procs := map[pid := Begun(run[0])]);
    assert After(s, run, 2) == Next(After(s, run, 1), run[1]);
  }

  /** The fourth compares the host's pin, and ends the call if that refuses it. */
  lemma AloneChecks(s: State, pid: nat, host: Host, fingerprint: Fingerprint, trust: Trust, snapshot: Pins)
    requires s.procs == map[] && s.lock.None? && trust != Insecure
    ensures After(s, Alone(pid, host, fingerprint, trust, snapshot), 4) ==
            match Judge(s.disk, host, fingerprint, trust == Tofu)
            case Reject => s
            case Accept => s.(procs := map[pid := Proc(host, fingerprint, trust, s.disk, Accepting)],
                              lock := if trust == Tofu then Some(pid) else None)
            case Pin => s.(procs := map[pid := Proc(host, fingerprint, trust, s.disk[host := fingerprint], Inserted)],
                           lock := Some(pid))
  {
    AloneLoads(s, pid, host, fingerprint, trust, snapshot);
    var run := Alone(pid, host, fingerprint, trust, snapshot);
    hide After;
    AfterStep(s, run, 3);
  }

  lemma AfterStep(s: State, run: seq<Action>, n: nat)
    requires n < |run|
    ensures After(s, run, n + 1) == Next(After(s, run, n), run[n])
  {
  }

  /** A client that runs alone does what `Client.CheckOrInsert` does: it is accepted exactly if
      the host is pinned with this fingerprint or, on first use, gets pinned with it. */
  lemma AloneIsCheck(s: State, pid: nat, host: Host, fingerprint: Fingerprint, trust: Trust, snapshot: Pins)
    requires s.procs == map[] && s.lock.None? && trust != Insecure
    ensures var t := After(s, Alone(pid, host, fingerprint, trust, snapshot), 8);
            var verdict := Judge(s.disk, host, fingerprint, trust == Tofu);
            && t.procs == map[] && t.lock.None?
            && t.disk == (if verdict.Pin? then s.disk[host := fingerprint] else s.disk)
            && t.accepted == s.accepted + if verdict.Reject? then {} else {Accepted(host, fingerprint, trust)}
  {
    hide After, Judge;
    var run := Alone(pid, host, fingerprint, trust, snapshot);
    AloneChecks(s, pid, host, fingerprint, trust, snapshot);
    AfterStep(s, run, 4);
    AfterStep(s, run, 5);
    AfterStep(s, run, 6);
    AfterStep(s, run, 7);
  }
}
