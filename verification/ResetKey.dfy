/** Installing the stateless reset key without a lock: each process writes its own key to a
    temporary file and hard-links it to the final name; whoever links first wins. Files are
    inodes with contents, names are links to inodes. */
module ResetKey {
  import opened Common

  const KEY_LEN: nat := 64

  type Bytes = seq<Byte>

  /** One call of `load_or_create_stateless_reset_key`, at each point where another process
      may run. `tries` counts the rounds of its retry loop. */
  datatype Proc =
    | Looking
    | Opened(inode: nat)
    | Ready(key: Bytes, tries: nat)
    | Writing(key: Bytes, tries: nat, name: string, inode: nat, written: nat)
    | Linked(key: Bytes, name: string)
    | Beaten(key: Bytes, tries: nat, name: string)
    | LookingAgain(key: Bytes, tries: nat)
    | OpenedAgain(key: Bytes, tries: nat, inode: nat)
    | Returning(result: Bytes)

  /** A file's contents, and the process that created it. */
  datatype File = File(bytes: Bytes, creator: nat)

  datatype State = State(path: Option<nat>, temps: map<string, nat>, files: map<nat, File>,
                         nextInode: nat, procs: map<nat, Proc>, returned: set<Bytes>)

  datatype Action =
    | Begin(pid: nat)
    | Open(pid: nat, key: Bytes)
    | Read(pid: nat)
    | Create(pid: nat, name: string)
    | Write(pid: nat, count: nat)
    | Link(pid: nat)
    | RemoveTemp(pid: nat)
    | Return(pid: nat)
    | Stop(pid: nat, removesTemp: bool)  // an error return or a crash

  function Move(s: State, pid: nat, proc: Proc): State {
    s.(procs := s.procs[pid := proc])
  }

  function Leave(s: State, pid: nat): State {
    s.(procs := s.procs - {pid})
  }

  /** Opening the final name: its inode, or the branch for a missing file. */
  function Opening(s: State, pid: nat, p: Proc, key: Bytes): State {
    match p
    case Looking =>
      if s.path.Some? then Move(s, pid, Opened(s.path.value))
      else if |key| == KEY_LEN then Move(s, pid, Ready(key, 0)) else s
    case LookingAgain(mine, tries) =>
      if s.path.Some? then Move(s, pid, OpenedAgain(mine, tries, s.path.value))
      else Move(s, pid, Ready(mine, tries))
    case _ => s
  }

  /** Reading the opened file: exactly 64 bytes, or an error. */
  function Reading(s: State, pid: nat, p: Proc): State {
    if !(p.Opened? || p.OpenedAgain?) then s
    else if p.inode in s.files && |s.files[p.inode].bytes| == KEY_LEN
    then Move(s, pid, Returning(s.files[p.inode].bytes))
    else Leave(s, pid)
  }

  /** A fresh temporary file; a name already taken costs one of the 32 tries. */
  function Creating(s: State, pid: nat, p: Proc, name: string): State {
    if !p.Ready? then s
    else if p.tries >= 32 then Leave(s, pid)
    else if name in s.temps then Move(s, pid, Ready(p.key, p.tries + 1))
    else
      Move(s, pid, Writing(p.key, p.tries + 1, name, s.nextInode, 0))
      .(temps := s.temps[name := s.nextInode],
        files := s.files[s.nextInode := File([], pid)],
        nextInode := s.nextInode + 1)
  }

  /** Part of `write_all`: some of the bytes that are left. */
  function Writes(s: State, pid: nat, p: Proc, count: nat): State {
    if !p.Writing? || p.written + count > |p.key| then s
    else
      Move(s, pid, p.(written := p.written + count))
      .(files := s.files[p.inode := File(p.key[..p.written + count], pid)])
  }

  /** The hard link, once everything is written: it fails if the final name exists. */
  function Linking(s: State, pid: nat, p: Proc): State {
    if !p.Writing? || p.written != |p.key| then s
    else if s.path.Some? then Move(s, pid, Beaten(p.key, p.tries, p.name))
    else if p.name in s.temps then Move(s, pid, Linked(p.key, p.name)).(path := Some(s.temps[p.name]))
    else Leave(s, pid)
  }

  function Removing(s: State, pid: nat, p: Proc): State {
    match p
    case Linked(key, name) => Move(s, pid, Returning(key)).(temps := s.temps - {name})
    case Beaten(key, tries, name) => Move(s, pid, LookingAgain(key, tries)).(temps := s.temps - {name})
    case _ => s
  }

  function Stopping(s: State, pid: nat, p: Proc, removesTemp: bool): State {
    if removesTemp && (p.Writing? || p.Linked? || p.Beaten?)
    then Leave(s, pid).(temps := s.temps - {p.name}) else Leave(s, pid)
  }

  function Next(s: State, a: Action): State {
    if a.Begin? then if a.pid in s.procs then s else Move(s, a.pid, Looking)
    else if a.pid !in s.procs then s
    else
      var p := s.procs[a.pid];
      if a.Open? then Opening(s, a.pid, p, a.key)
      else if a.Read? then Reading(s, a.pid, p)
      else if a.Create? then Creating(s, a.pid, p, a.name)
      else if a.Write? then Writes(s, a.pid, p, a.count)
      else if a.Link? then Linking(s, a.pid, p)
      else if a.RemoveTemp? then Removing(s, a.pid, p)
      else if a.Return? then
        if p.Returning? then Leave(s, a.pid).(returned := s.returned + {p.result}) else s
      else Stopping(s, a.pid, p, a.removesTemp)
  }

  function After(s: State, run: seq<Action>, n: nat): State
    requires n <= |run|
  {
    if n == 0 then s else Next(After(s, run, n - 1), run[n - 1])
  }

  /** No call under way. The final name may already exist, with any contents, and crashed
      calls may have left temporary files. */
  predicate Initial(s: State) {
    && s.procs == map[] && s.returned == {}
    && (s.path.Some? ==> s.path.value in s.files)
    && (forall i :: i in s.files ==> i < s.nextInode)
    && (forall x :: x in s.temps ==> s.temps[x] in s.files)
  }

  /** The contents under the final name. */
  predicate InstalledIs(s: State, key: Bytes) {
    s.path.Some? && s.path.value in s.files && s.files[s.path.value].bytes == key
  }

  /** The temporary name still is the one this process created. */
  predicate Mine(s: State, pid: nat, name: string) {
    name in s.temps && s.temps[name] in s.files && s.files[s.temps[name]].creator == pid
  }

  predicate ProcSound(s: State, pid: nat, p: Proc) {
    match p
    case Looking => true
    case Opened(inode) => s.path == Some(inode)
    case Ready(key, _) => |key| == KEY_LEN
    case Writing(key, _, name, inode, written) =>
      && |key| == KEY_LEN && written <= |key|
      && Mine(s, pid, name) && s.temps[name] == inode
      && s.files[inode].bytes == key[..written]
      && s.path != Some(inode)
    case Linked(key, name) => |key| == KEY_LEN && InstalledIs(s, key) && Mine(s, pid, name)
    case Beaten(key, _, name) => |key| == KEY_LEN && s.path.Some? && Mine(s, pid, name)
    case LookingAgain(key, _) => |key| == KEY_LEN && s.path.Some?
    case OpenedAgain(key, _, inode) => |key| == KEY_LEN && s.path == Some(inode)
    case Returning(result) => |result| == KEY_LEN && InstalledIs(s, result)
  }

  predicate DiskSound(s: State) {
    && (forall i :: i in s.files ==> i < s.nextInode)
    && (forall x :: x in s.temps ==> s.temps[x] in s.files)
    && (s.path.Some? ==> s.path.value in s.files)
    && (forall key :: key in s.returned ==> |key| == KEY_LEN && InstalledIs(s, key))
  }

  predicate Inv(s: State) {
    DiskSound(s) && forall q :: q in s.procs ==> ProcSound(s, q, s.procs[q])
  }

  /** What a step of process `pid` leaves alone: the final name once it exists and the file
      under it, and what other processes created. */
  predicate Frame(s: State, s': State, pid: nat) {
    && s.returned <= s'.returned
    && (s.path.Some? ==> s'.path == s.path)
    && (s.path.None? && s'.path.Some? ==> s'.path.value in s.files && s.files[s'.path.value].creator == pid)
    && (forall i :: i in s.files && (s.files[i].creator != pid || s.path == Some(i)) ==>
                      i in s'.files && s'.files[i] == s.files[i])
    && (forall x :: x in s.temps && s.temps[x] in s.files && s.files[s.temps[x]].creator != pid ==>
                      x in s'.temps && s'.temps[x] == s.temps[x])
  }

  lemma OthersKeep(s: State, s': State, pid: nat, q: nat, p: Proc)
    requires DiskSound(s) && Frame(s, s', pid) && q != pid && ProcSound(s, q, p)
    ensures ProcSound(s', q, p)
  {
  }

  lemma StepFrames(s: State, a: Action)
    requires Inv(s)
    ensures Frame(s, Next(s, a), a.pid)
  {
    if a.pid in s.procs {
      assert ProcSound(s, a.pid, s.procs[a.pid]);
    }
  }

  lemma StepDisk(s: State, a: Action)
    requires Inv(s)
    ensures DiskSound(Next(s, a))
  {
    if a.pid in s.procs {
      assert ProcSound(s, a.pid, s.procs[a.pid]);
    }
    StepFrames(s, a);
  }

  lemma StepSelf(s: State, a: Action)
    requires Inv(s) && a.pid in Next(s, a).procs
    ensures ProcSound(Next(s, a), a.pid, Next(s, a).procs[a.pid])
  {
    if a.pid in s.procs {
      assert ProcSound(s, a.pid, s.procs[a.pid]);
      var p := s.procs[a.pid];
      if a.Link? && p.Writing? && p.written == |p.key| {
        assert p.key[..p.written] == p.key;
      }
    }
  }

  lemma StepKeeps(s: State, a: Action)
    requires Inv(s)
    ensures Inv(Next(s, a))
  {
    hide Next, ProcSound, DiskSound, Frame;
    var s' := Next(s, a);
    StepDisk(s, a);
    StepFrames(s, a);
    forall q | q in s'.procs ensures ProcSound(s', q, s'.procs[q]) {
      if q == a.pid {
        StepSelf(s, a);
      } else {
        OthersWait(s, a, q);
        OthersKeep(s, s', a.pid, q, s.procs[q]);
      }
    }
  }

  lemma OthersWait(s: State, a: Action, q: nat)
    requires q in Next(s, a).procs && q != a.pid
    ensures q in s.procs && Next(s, a).procs[q] == s.procs[q]
  {
  }

  lemma {:induction false} RunKeeps(s: State, run: seq<Action>, n: nat)
    requires Initial(s) && n <= |run|
    ensures Inv(After(s, run, n))
    decreases n
  {
    if n > 0 {
      RunKeeps(s, run, n - 1);
      StepKeeps(After(s, run, n - 1), run[n - 1]);
    }
  }

  /** Once the final name exists, it keeps its file and the file keeps its contents. */
  lemma {:induction false} InstalledStays(s: State, run: seq<Action>, m: nat, n: nat, key: Bytes)
    requires Initial(s) && m <= n <= |run|
    requires InstalledIs(After(s, run, m), key)
    ensures InstalledIs(After(s, run, n), key)
    decreases n
  {
    if m < n {
      InstalledStays(s, run, m, n - 1, key);
      RunKeeps(s, run, n - 1);
      StepFrames(After(s, run, n - 1), run[n - 1]);
    }
  }

  /** Consensus: every call that returned, in any interleaving with crashes, returned the
      same 64 bytes, and those bytes are the contents of the installed file. */
  lemma CallsAgree(s: State, run: seq<Action>, key: Bytes, other: Bytes)
    requires Initial(s)
    requires key in After(s, run, |run|).returned && other in After(s, run, |run|).returned
    ensures key == other && |key| == KEY_LEN && InstalledIs(After(s, run, |run|), key)
  {
    RunKeeps(s, run, |run|);
  }

  /** The file under the final name is complete. */
  predicate Complete(s: State) {
    s.path.Some? ==> s.path.value in s.files && |s.files[s.path.value].bytes| == KEY_LEN
  }

  /** No reader ever sees a partly written key: unless the final name was bad to begin with,
      it names a 64-byte file whenever it exists. */
  lemma {:induction false} NeverPartial(s: State, run: seq<Action>, n: nat)
    requires Initial(s) && Complete(s) && n <= |run|
    ensures Complete(After(s, run, n))
    decreases n
  {
    if n > 0 {
      NeverPartial(s, run, n - 1);
      var t, a := After(s, run, n - 1), run[n - 1];
      RunKeeps(s, run, n - 1);
      StepFrames(t, a);
      RunKeeps(s, run, n);
      if t.path.None? && Next(t, a).path.Some? {
        assert ProcSound(Next(t, a), a.pid, Next(t, a).procs[a.pid]);
      }
    }
  }

  /** So a reader that opened the file gets a key, and a call that lost the race for the link
      finds the winner's file. */
  lemma ReadersSucceed(s: State, run: seq<Action>, n: nat, pid: nat)
    requires Initial(s) && Complete(s) && n <= |run|
    requires pid in After(s, run, n).procs
    ensures var t := After(s, run, n);
            var p := t.procs[pid];
            && (p.Opened? || p.OpenedAgain? ==>
                  pid in Next(t, Read(pid)).procs && Next(t, Read(pid)).procs[pid].Returning?)
            && (p.LookingAgain? ==>
                  pid in Next(t, Open(pid, [])).procs && Next(t, Open(pid, [])).procs[pid].OpenedAgain?)
  {
    NeverPartial(s, run, n);
    RunKeeps(s, run, n);
    assert ProcSound(After(s, run, n), pid, After(s, run, n).procs[pid]);
  }

  // ----- One call alone -----

  function Alone(pid: nat, key: Bytes, name: string): (run: seq<Action>)
    ensures |run| == 8
  {
    [Begin(pid), Open(pid, key), Read(pid), Create(pid, name), Write(pid, KEY_LEN), Link(pid), RemoveTemp(pid), Return(pid)]
  }

  /** Its first three steps find the installed key, or a missing file. */
  lemma AloneLooks(s: State, pid: nat, key: Bytes, name: string)
    requires Initial(s) && Complete(s) && |key| == KEY_LEN
    ensures After(s, Alone(pid, key, name), 3) ==
            s.(procs := map[pid := if s.path.Some? then Returning(s.files[s.path.value].bytes) else Ready(key, 0)])
  {
    var run := Alone(pid, key, name);
    assert After(s, run, 0) == s;
    assert After(s, run, 1) == Next(s, run[0]) == s.(procs := map[pid := Looking]);
    assert After(s, run, 2) == Next(After(s, run, 1), run[1]);
    assert After(s, run, 3) == Next(After(s, run, 2), run[2]);
  }

  /** A call about to return waits for nothing else. */
  lemma ReturningWaits(t: State, pid: nat, name: string)
    requires pid in t.procs && t.procs[pid].Returning?
    ensures Next(t, Create(pid, name)) == Next(t, Write(pid, KEY_LEN)) == Next(t, Link(pid)) == Next(t, RemoveTemp(pid)) == t
    ensures Next(t, Return(pid)) == t.(procs := t.procs - {pid}, returned := t.returned + {t.procs[pid].result})
  {
  }

  lemma CreatesFile(s: State, pid: nat, key: Bytes, name: string)
    requires name !in s.temps
    ensures Next(s.(procs := map[pid := Ready(key, 0)]), Create(pid, name)) ==
            s.(procs := map[pid := Writing(key, 1, name, s.nextInode, 0)], temps := s.temps[name := s.nextInode],
               files := s.files[s.nextInode := File([], pid)], nextInode := s.nextInode + 1)
  {
  }

  lemma WritesAndLinks(s: State, pid: nat, key: Bytes, name: string, inode: nat)
    requires s.path.None? && |key| == KEY_LEN && name in s.temps && s.temps[name] == inode
    requires s.procs == map[pid := Writing(key, 1, name, inode, 0)]
    ensures var t := Next(s, Write(pid, KEY_LEN));
            Next(t, Link(pid)) ==
            s.(procs := map[pid := Linked(key, name)], files := s.files[inode := File(key, pid)], path := Some(inode))
  {
    assert key[..0 + KEY_LEN] == key;
    assert Next(s, Write(pid, KEY_LEN)) ==
           s.(procs := map[pid := Writing(key, 1, name, inode, KEY_LEN)], files := s.files[inode := File(key, pid)]);
  }

  lemma LinkedReturns(s: State, pid: nat, key: Bytes, name: string)
    requires s.procs == map[pid := Linked(key, name)]
    ensures var t := Next(s, RemoveTemp(pid));
            Next(t, Return(pid)) == s.(procs := map[], temps := s.temps - {name}, returned := s.returned + {key})
  {
    assert Next(s, RemoveTemp(pid)) == s.(procs := map[pid := Returning(key)], temps := s.temps - {name});
  }

  /** A call that runs alone returns the installed key, or installs and returns its own. */
  lemma AloneInstalls(s: State, pid: nat, key: Bytes, name: string)
    requires Initial(s) && Complete(s) && |key| == KEY_LEN && name !in s.temps
    ensures var t := After(s, Alone(pid, key, name), 8);
            var result := if s.path.Some? then s.files[s.path.value].bytes else key;
            t.returned == {result} && InstalledIs(t, result) && t.temps == s.temps
  {
    hide Next, After;
    AloneLooks(s, pid, key, name);
    var run := Alone(pid, key, name);
    var s3 := After(s, run, 3);
    var s4 := Next(s3, Create(pid, name));
    var s5 := Next(s4, Write(pid, KEY_LEN));
    var s6 := Next(s5, Link(pid));
    var s7 := Next(s6, RemoveTemp(pid));
    var s8 := Next(s7, Return(pid));
    LastFive(s, run, s4, s5, s6, s7, s8);
    if s.path.Some? {
      ReturningWaits(s3, pid, name);
    } else {
      CreatesFile(s, pid, key, name);
      WritesAndLinks(s4, pid, key, name, s.nextInode);
      LinkedReturns(s6, pid, key, name);
      assert s4.temps - {name} == s.temps;
    }
  }

  lemma LastFive(s: State, run: seq<Action>, s4: State, s5: State, s6: State, s7: State, s8: State)
    requires |run| == 8 && s4 == Next(After(s, run, 3), run[3]) && s5 == Next(s4, run[4]) && s6 == Next(s5, run[5])
    requires s7 == Next(s6, run[6]) && s8 == Next(s7, run[7])
    ensures After(s, run, 8) == s8
  {
    hide Next;
    assert After(s, run, 4) == s4 && After(s, run, 5) == s5;
    assert After(s, run, 6) == s6 && After(s, run, 7) == s7;
  }
}
