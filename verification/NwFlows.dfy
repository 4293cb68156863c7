/** The protocol between the shim's serial queue (flows becoming ready, closing, being reaped
    or accepted) and the threads that adopt a peer and later drop its guard. Every lock
    region is one step, and any number of threads interleave. */
module NwFlows {
  import opened Common
  import opened FlowTable

  /** The flow with this id, if it is in the table. */
  function Find(s: seq<Flow>, id: nat): Option<Flow> {
    var i := IndexOf(s, id);
    if i < |s| then Some(s[i]) else None
  }

  // ----- States -----

  /** What the queue goes back to after closing a flow. */
  datatype Then = ToIdle | ToReap | ToReserve(remote: Option<Peer>)

  /** What the serial queue is doing: announcing a flow that became ready (`on_flow`),
      closing one (`on_close`), in one of its eviction loops, or nothing. */
  datatype Queue =
    | Idle
    | Announcing(id: nat, peer: Peer)
    | Indexed(id: nat, peer: Peer)
    | Known(id: nat, peer: Peer)
    | Guarding(id: nat, peer: Peer)
    | Closed(flow: Flow, next: Then)
    | Forgotten(id: nat, peer: Peer, next: Then)
    | Reaping
    | Reserving(remote: Option<Peer>)
    | Adding(remote: Option<Peer>)

  /** A thread that adopts a peer, holds its guard, and drops it: the last drop looks the
      peer's flow up, and then asks the queue to close that flow. */
  datatype Session =
    | Registered(peer: Peer)
    | Found(peer: Peer, flow: Option<nat>)
    | Guard(peer: Peer)
    | Dropping(peer: Peer)
    | Closing(peer: Peer, flow: Option<nat>)

  datatype State = State(
    table: seq<Flow>, nextId: nat, max: nat,
    index: map<Peer, nat>, peers: map<nat, Peer>, guards: map<Peer, nat>,
    queue: Queue, sessions: map<nat, Session>, closes: set<nat>)

  /** What the queue takes up when it has nothing else to do. A connection may fail at any
      time; a close is taken up only if a dropped guard asked for it. */
  datatype Event =
    | FlowReady(id: nat, now: nat)
    | Received(id: nat, now: nat)
    | Failed(id: nat)
    | CloseFlow(id: nat)
    | ReaperTimer
    | NewConnection(remote: Option<Peer>)

  datatype Action =
    | QueueEvent(event: Event)
    | QueueStep(now: nat, memory: bool)
    | Sent(id: nat, now: nat)
    | Adopt(t: nat, peer: Peer)
    | ThreadStep(t: nat)

  // ----- Steps -----

  function Resume(next: Then): Queue {
    match next
    case ToIdle => Idle
    case ToReap => Reaping
    case ToReserve(remote) => Reserving(remote)
  }

  /** A flow leaves the table and its closing begins. */
  function Evicted(s: State, id: nat, next: Then): State {
    var f := Find(s.table, id);
    if f.None? then s.(queue := Idle)
    else s.(table := Take(s.table, id), queue := Closed(f.value, next))
  }

  /** `on_flow`: point the index at the flow, record its peer, look for guards, protect. */
  function OnFlow(s: State): State {
    match s.queue
    case Announcing(id, p) => s.(index := s.index[p := id], queue := Indexed(id, p))
    case Indexed(id, p) => s.(peers := s.peers[id := p], queue := Known(id, p))
    case Known(id, p) => s.(queue := if p in s.guards then Guarding(id, p) else Idle)
    case Guarding(id, p) => s.(table := Protect(s.table, id), queue := Idle)
    case _ => s
  }

  /** `on_close`: forget the flow's peer, and the index entry if it is this flow's. */
  function OnClose(s: State): State {
    match s.queue
    case Closed(f, next) =>
      if f.id in s.peers then s.(peers := s.peers - {f.id}, queue := Forgotten(f.id, s.peers[f.id], next))
      else s.(queue := Resume(next))
    case Forgotten(id, p, next) =>
      s.(index := if p in s.index && s.index[p] == id then s.index - {p} else s.index, queue := Resume(next))
    case _ => s
  }

  /** A round of the reaper, or of making room for a connection. */
  function EvictionRound(s: State, now: nat): State {
    if s.queue.Reaping? then Evicted(s, ReapChoice(s.table, s.max, now), ToReap)
    else if s.queue.Reserving? then
      match ReserveChoice(s.table, s.max)
      case Free => s.(queue := Adding(s.queue.remote))
      case Full => s.(queue := Idle)
      case Evict(id) => Evicted(s, id, ToReserve(s.queue.remote))
    else s
  }

  /** The accepted connection becomes a flow, if there is memory for it. */
  function AddRound(s: State, now: nat, memory: bool): State {
    if !s.queue.Adding? then s
    else if !memory then s.(queue := Idle)
    else
      var f := Flow(s.nextId + 1, s.queue.remote, false, false, now);
      s.(nextId := s.nextId + 1, table := s.table + [f], queue := Idle)
  }

  function QueueSteps(s: State, now: nat, memory: bool): State {
    if s.queue.Idle? then s
    else if s.queue.Closed? || s.queue.Forgotten? then OnClose(s)
    else if s.queue.Reaping? || s.queue.Reserving? then EvictionRound(s, now)
    else if s.queue.Adding? then AddRound(s, now, memory)
    else OnFlow(s)
  }

  function QueueTakes(s: State, e: Event): State {
    match e
    case FlowReady(id, now) =>
      var f := Find(s.table, id);
      if f.None? || now >= U64_MAX then s
      else s.(table := Touch(s.table, id, now, true),
              queue := if f.value.remote.Some? then Announcing(id, f.value.remote.value) else Idle)
    case Received(id, now) => if now < U64_MAX then s.(table := Touch(s.table, id, now, false)) else s
    case Failed(id) => Evicted(s, id, ToIdle)
    case CloseFlow(id) => if id in s.closes then Evicted(s.(closes := s.closes - {id}), id, ToIdle) else s
    case ReaperTimer => s.(queue := Reaping)
    case NewConnection(remote) => s.(queue := Reserving(remote))
  }

  function Registers(s: State, t: nat, p: Peer): State {
    s.(sessions := s.sessions[t := Registered(p)],
       guards := s.guards[p := (if p in s.guards then s.guards[p] else 0) + 1])
  }

  /** The next step of an adopt (looking the flow up, protecting it) or of a guard's drop. */
  function SessionSteps(s: State, t: nat, x: Session): State {
    match x
    case Registered(p) =>
      s.(sessions := s.sessions[t := Found(p, if p in s.index then Some(s.index[p]) else None)])
    case Found(p, f) =>
      s.(sessions := s.sessions[t := Guard(p)], table := if f.Some? then Protect(s.table, f.value) else s.table)
    case Guard(p) =>
      if p !in s.guards then s.(sessions := s.sessions - {t})
      else if s.guards[p] > 1 then s.(guards := s.guards[p := s.guards[p] - 1], sessions := s.sessions - {t})
      else s.(guards := s.guards - {p}, sessions := s.sessions[t := Dropping(p)])
    case Dropping(p) =>
      s.(sessions := s.sessions[t := Closing(p, if p in s.index then Some(s.index[p]) else None)])
    case Closing(_, f) =>
      s.(sessions := s.sessions - {t}, closes := if f.Some? then s.closes + {f.value} else s.closes)
  }

  /** One atomic step; a step that is not enabled changes nothing. */
  function Next(s: State, a: Action): State {
    match a
    case QueueEvent(e) => if s.queue.Idle? then QueueTakes(s, e) else s
    case QueueStep(now, memory) => if now < U64_MAX then QueueSteps(s, now, memory) else s
    case Sent(id, now) => if now < U64_MAX then s.(table := Touch(s.table, id, now, false)) else s
    case Adopt(t, p) => if t in s.sessions then s else Registers(s, t, p)
    case ThreadStep(t) => if t in s.sessions then SessionSteps(s, t, s.sessions[t]) else s
  }

  /** The state after the first `n` steps of a run. */
  function After(s: State, run: seq<Action>, n: nat): State
    requires n <= |run|
  {
    if n == 0 then s else Next(After(s, run, n - 1), run[n - 1])
  }

  predicate Initial(s: State) {
    && s.table == [] && s.index == map[] && s.peers == map[] && s.guards == map[]
    && s.queue.Idle? && s.sessions == map[] && s.closes == {}
  }

  // ----- Looking a flow up after a change of the table -----

  lemma FindIs(s: seq<Flow>, f: Flow)
    requires UniqueIds(s) && f in s
    ensures Find(s, f.id) == Some(f)
  {
    var k :| 0 <= k < |s| && s[k] == f;
    var i := IndexOf(s, f.id);
    assert !(k < i) && !(i < k);
  }

  lemma FindNone(s: seq<Flow>, id: nat)
    ensures Find(s, id).None? <==> forall f :: f in s ==> f.id != id
    ensures Find(s, id).Some? ==> Find(s, id).value in s && Find(s, id).value.id == id
  {
    if Find(s, id).None? {
      forall f | f in s ensures f.id != id {
        var k :| 0 <= k < |s| && s[k] == f;
      }
    }
  }

  /** A table with the same flows gives the same answers. */
  lemma FindSame(s: seq<Flow>, s': seq<Flow>, id: nat)
    requires UniqueIds(s) && UniqueIds(s')
    requires forall f: Flow :: f.id == id ==> (f in s <==> f in s')
    ensures Find(s', id) == Find(s, id)
  {
    FindNone(s, id);
    FindNone(s', id);
    if Find(s, id).Some? {
      FindIs(s', Find(s, id).value);
    }
  }

  lemma FindTake(s: seq<Flow>, nextId: nat, id: nat, other: nat)
    requires Sound(s, nextId)
    ensures Find(Take(s, id), other) == if other == id then None else Find(s, other)
  {
    TakeKeeps(s, id, nextId);
    if other == id {
      FindNone(Take(s, id), id);
    } else {
      FindSame(s, Take(s, id), other);
    }
  }

  /** One flow changed in place, its id apart. */
  lemma FindUpdate(s: seq<Flow>, i: nat, f: Flow, other: nat)
    requires UniqueIds(s) && i < |s| && f.id == s[i].id
    ensures Find(s[i := f], other) == if other == f.id then Some(f) else Find(s, other)
  {
    UpdateKeeps(s, i, f);
    if other == f.id {
      FindIs(s[i := f], f);
    } else {
      FindSame(s, s[i := f], other);
    }
  }

  lemma FindProtect(s: seq<Flow>, nextId: nat, id: nat, other: nat)
    requires Sound(s, nextId)
    ensures Sound(Protect(s, id), nextId) && Unprotected(Protect(s, id)) <= Unprotected(s)
    ensures |Protect(s, id)| == |s|
    ensures var f := Find(s, other);
            Find(Protect(s, id), other) ==
            if other == id && f.Some? then Some(f.value.(guarded := true)) else f
  {
    var i := IndexOf(s, id);
    if i < |s| {
      var f := s[i].(guarded := true);
      UpdateKeeps(s, i, f);
      FindUpdate(s, i, f, other);
      UnprotectedUpdate(s, i, f);
    }
  }

  lemma FindTouch(s: seq<Flow>, nextId: nat, id: nat, now: nat, ready: bool, other: nat)
    requires Sound(s, nextId) && now < U64_MAX
    ensures Sound(Touch(s, id, now, ready), nextId) && Unprotected(Touch(s, id, now, ready)) == Unprotected(s)
    ensures |Touch(s, id, now, ready)| == |s|
    ensures var f, f' := Find(s, other), Find(Touch(s, id, now, ready), other);
            && (f.Some? <==> f'.Some?)
            && (f.Some? ==> f'.value.remote == f.value.remote && f'.value.guarded == f.value.guarded)
            && (f.Some? ==> f'.value.lastActivity == if other == id then now else f.value.lastActivity)
  {
    var i := IndexOf(s, id);
    if i < |s| {
      var f := s[i].(lastActivity := now, ready := s[i].ready || ready);
      UpdateKeeps(s, i, f);
      FindUpdate(s, i, f, other);
      UnprotectedUpdate(s, i, f);
    }
  }

  lemma FindAppend(s: seq<Flow>, nextId: nat, f: Flow, other: nat)
    requires Sound(s, nextId) && f.id == nextId + 1 && f.lastActivity < U64_MAX
    ensures Find(s + [f], other) == if other == f.id then Some(f) else Find(s, other)
  {
    AppendKeeps(s, f, nextId);
    if other == f.id {
      FindIs(s + [f], f);
    } else {
      FindSame(s, s + [f], other);
    }
  }

  // ----- The invariant -----

  /** The flow is in the table and belongs to this peer. */
  predicate Live(table: seq<Flow>, id: nat, p: Peer) {
    Find(table, id).Some? && Find(table, id).value.remote == Some(p)
  }

  /** The flow is in the table and not protected. */
  predicate Bare(table: seq<Flow>, id: nat) {
    Find(table, id).Some? && !Find(table, id).value.guarded
  }

  /** The queue took this flow of this peer off the table and is still closing it. */
  predicate BeingClosed(q: Queue, id: nat, p: Peer) {
    (q.Closed? && q.flow.id == id && q.flow.remote == Some(p)) || (q.Forgotten? && q.id == id && q.peer == p)
  }

  predicate TableSound(s: State) {
    && Sound(s.table, s.nextId)
    && Unprotected(s.table) <= s.max
    && (s.queue.Adding? ==> Unprotected(s.table) < s.max)
  }

  predicate QueueSound(s: State) {
    match s.queue
    case Announcing(id, p) => Live(s.table, id, p)
    case Indexed(id, p) => Live(s.table, id, p) && p in s.index && s.index[p] == id
    case Known(id, p) => Live(s.table, id, p) && p in s.index && s.index[p] == id && id in s.peers && s.peers[id] == p
    case Guarding(id, p) => Live(s.table, id, p) && p in s.index && s.index[p] == id && id in s.peers && s.peers[id] == p
    case Closed(f, _) => Find(s.table, f.id).None? && f.id <= s.nextId
    case Forgotten(id, _, _) => Find(s.table, id).None? && id <= s.nextId && id !in s.peers
    case _ => true
  }

  /** An indexed flow is in the table or being closed, and `peers` leads back to the peer
      except while the queue is between its two updates. */
  predicate IndexEntry(s: State, p: Peer)
    requires p in s.index
  {
    var id := s.index[p];
    && id <= s.nextId
    && (Live(s.table, id, p) || BeingClosed(s.queue, id, p))
    && (|| (id in s.peers && s.peers[id] == p)
        || s.queue == Indexed(id, p)
        || (s.queue.Forgotten? && s.queue.id == id && s.queue.peer == p))
  }

  predicate IndexSound(s: State) {
    forall p :: p in s.index ==> IndexEntry(s, p)
  }

  predicate PeerEntry(s: State, id: nat)
    requires id in s.peers
  {
    && id <= s.nextId
    && (|| Live(s.table, id, s.peers[id])
        || (s.queue.Closed? && s.queue.flow.id == id && s.queue.flow.remote == Some(s.peers[id])))
  }

  predicate PeersSound(s: State) {
    forall id :: id in s.peers ==> PeerEntry(s, id)
  }

  predicate Holds(x: Session, p: Peer) {
    (x.Registered? || x.Found? || x.Guard?) && x.peer == p
  }

  /** The live guards of a peer and the adopts of it under way. */
  function Holders(sessions: map<nat, Session>, p: Peer): set<nat> {
    set t | t in sessions && Holds(sessions[t], p)
  }

  function CountOf(guards: map<Peer, nat>, p: Peer): nat {
    if p in guards then guards[p] else 0
  }

  ghost predicate GuardsSound(s: State) {
    && (forall p :: CountOf(s.guards, p) == |Holders(s.sessions, p)|)
    && (forall p :: p in s.guards ==> s.guards[p] >= 1)
  }

  /** Someone is still going to protect this flow: an adopt that has not looked yet or found
      exactly this flow, or the announcement of the flow. */
  ghost predicate WillProtect(s: State, p: Peer, id: nat) {
    || s.queue == Indexed(id, p) || s.queue == Known(id, p) || s.queue == Guarding(id, p)
    || exists t :: t in s.sessions && (s.sessions[t] == Registered(p) || s.sessions[t] == Found(p, Some(id)))
  }

  /** A peer that is to be protected has an indexed flow that is not. */
  predicate Exposed(s: State, p: Peer) {
    p in s.index && p in s.guards && Live(s.table, s.index[p], p) && Bare(s.table, s.index[p])
  }

  ghost predicate ProtectionSound(s: State) {
    forall p :: Exposed(s, p) ==> WillProtect(s, p, s.index[p])
  }

  ghost predicate Inv(s: State) {
    && TableSound(s) && QueueSound(s) && IndexSound(s) && PeersSound(s) && GuardsSound(s) && ProtectionSound(s)
  }

  // ----- Changes of the table -----

  lemma TouchTable(s: State, id: nat, now: nat, ready: bool)
    requires TableSound(s) && now < U64_MAX
    ensures var s' := s.(table := Touch(s.table, id, now, ready));
            && TableSound(s')
            && (forall x: nat, p: Peer :: Live(s'.table, x, p) == Live(s.table, x, p))
            && (forall x: nat :: Find(s'.table, x).Some? == Find(s.table, x).Some?)
            && (forall x: nat :: Bare(s'.table, x) == Bare(s.table, x))
  {
    var s' := s.(table := Touch(s.table, id, now, ready));
    FindTouch(s.table, s.nextId, id, now, ready, id);
    forall x: nat ensures Find(s'.table, x).Some? == Find(s.table, x).Some? && Bare(s'.table, x) == Bare(s.table, x)
                          && forall p: Peer :: Live(s'.table, x, p) == Live(s.table, x, p)
    {
      FindTouch(s.table, s.nextId, id, now, ready, x);
    }
  }

  lemma ProtectTable(s: State, id: nat)
    requires TableSound(s)
    ensures var s' := s.(table := Protect(s.table, id));
            && TableSound(s')
            && (forall x: nat, p: Peer :: Live(s'.table, x, p) == Live(s.table, x, p))
            && (forall x: nat :: Find(s'.table, x).Some? == Find(s.table, x).Some?)
            && (forall x: nat :: Bare(s'.table, x) == (Bare(s.table, x) && x != id))
  {
    var s' := s.(table := Protect(s.table, id));
    FindProtect(s.table, s.nextId, id, id);
    forall x: nat ensures Find(s'.table, x).Some? == Find(s.table, x).Some? && Bare(s'.table, x) == (Bare(s.table, x) && x != id)
                          && forall p: Peer :: Live(s'.table, x, p) == Live(s.table, x, p)
    {
      FindProtect(s.table, s.nextId, id, x);
    }
  }

  lemma TakeTable(s: State, id: nat)
    requires TableSound(s)
    ensures var s' := s.(table := Take(s.table, id));
            && TableSound(s') && |s'.table| <= |s.table| && (Find(s.table, id).Some? ==> |s'.table| < |s.table|)
            && (forall x: nat, p: Peer :: Live(s'.table, x, p) == (Live(s.table, x, p) && x != id))
            && (forall x: nat :: Bare(s'.table, x) == (Bare(s.table, x) && x != id))
            && Find(s'.table, id).None?
  {
    var s' := s.(table := Take(s.table, id));
    TakeKeeps(s.table, id, s.nextId);
    FindNone(s.table, id);
    forall x: nat ensures Find(s'.table, x) == if x == id then None else Find(s.table, x) {
      FindTake(s.table, s.nextId, id, x);
    }
  }

  /** The flow found under an id carries that id, and ids are handed out in order. */
  lemma FoundFlow(s: State, id: nat)
    requires TableSound(s) && Find(s.table, id).Some?
    ensures Find(s.table, id).value.id == id && id <= s.nextId
  {
    FindNone(s.table, id);
  }

  // ----- The index under each kind of change -----

  ghost predicate IndexInv(s: State) {
    QueueSound(s) && IndexSound(s) && PeersSound(s)
  }

  /** A change that leaves flows, index and queue alone. */
  lemma IndexFrame(s: State, s': State)
    requires IndexInv(s)
    requires forall x: nat, p: Peer :: Live(s'.table, x, p) == Live(s.table, x, p)
    requires forall x: nat :: Find(s'.table, x).Some? == Find(s.table, x).Some?
    requires s'.index == s.index && s'.peers == s.peers && s'.queue == s.queue && s'.nextId == s.nextId
    ensures IndexInv(s')
  {
    hide Live, Find;
    forall p | p in s'.index ensures IndexEntry(s', p) {
      assert IndexEntry(s, p);
    }
    forall id | id in s'.peers ensures PeerEntry(s', id) {
      assert PeerEntry(s, id);
    }
  }

  /** The queue turns to something that touches neither index nor table. */
  lemma QuietQueue(s: State, q: Queue)
    requires IndexInv(s)
    requires s.queue.Idle? || s.queue.Known? || s.queue.Guarding? || s.queue.Reaping? || s.queue.Reserving?
    requires q.Idle? || q.Reaping? || q.Reserving? || q.Adding?
             || (q.Announcing? && Live(s.table, q.id, q.peer)) || (s.queue.Known? && q == Guarding(s.queue.id, s.queue.peer))
    ensures IndexInv(s.(queue := q))
  {
    var s' := s.(queue := q);
    hide Live, Find;
    forall p | p in s'.index ensures IndexEntry(s', p) {
      assert IndexEntry(s, p);
    }
    forall id | id in s'.peers ensures PeerEntry(s', id) {
      assert PeerEntry(s, id);
    }
  }

  /** Taking a flow off the table hands it to the closing queue. */
  lemma EvictedIndex(s: State, id: nat, next: Then)
    requires TableSound(s) && IndexInv(s) && (s.queue.Idle? || s.queue.Reaping? || s.queue.Reserving?)
    ensures IndexInv(Evicted(s, id, next))
  {
    hide Bare, Find, Take, Sound, Unprotected;
    var f, s' := Find(s.table, id), Evicted(s, id, next);
    if f.None? {
      QuietQueue(s, Idle);
    } else {
      TakeTable(s, id);
      FoundFlow(s, id);
      assert forall p: Peer :: Live(s.table, id, p) ==> f.value.remote == Some(p);
      hide Live;
      forall p | p in s'.index ensures IndexEntry(s', p) {
        assert IndexEntry(s, p);
      }
      forall x | x in s'.peers ensures PeerEntry(s', x) {
        assert PeerEntry(s, x);
      }
    }
  }

  /** `on_flow` points the index at the new flow. */
  lemma AnnouncedIndex(s: State, id: nat, p0: Peer)
    requires TableSound(s) && IndexInv(s) && s.queue == Announcing(id, p0)
    ensures IndexInv(s.(index := s.index[p0 := id], queue := Indexed(id, p0)))
  {
    var s' := s.(index := s.index[p0 := id], queue := Indexed(id, p0));
    FoundFlow(s, id);
    hide Live, Find;
    forall p | p in s'.index ensures IndexEntry(s', p) {
      assert p in s.index ==> IndexEntry(s, p);
    }
    forall x | x in s'.peers ensures PeerEntry(s', x) {
      assert PeerEntry(s, x);
    }
  }

  lemma OnePeer(s: seq<Flow>, id: nat, p: Peer, q: Peer)
    requires Live(s, id, p) && Live(s, id, q)
    ensures p == q
  {
    hide Find;
  }

  /** ... and then records the peer of the flow. */
  lemma IndexedIndex(s: State, id: nat, p0: Peer)
    requires IndexInv(s) && s.queue == Indexed(id, p0)
    ensures IndexInv(s.(peers := s.peers[id := p0], queue := Known(id, p0)))
  {
    hide Live, Find;
    var s' := s.(peers := s.peers[id := p0], queue := Known(id, p0));
    assert IndexEntry(s, p0);
    forall p | p in s'.index ensures IndexEntry(s', p) {
      assert IndexEntry(s, p);
      if Live(s.table, id, p) {
        OnePeer(s.table, id, p, p0);
      }
    }
    forall x | x in s'.peers ensures PeerEntry(s', x) {
      assert x in s.peers ==> PeerEntry(s, x);
    }
  }

  /** `on_close` forgets the peer of the flow. */
  lemma ClosedIndex(s: State, f: Flow, next: Then)
    requires IndexInv(s) && s.queue == Closed(f, next)
    ensures f.id in s.peers ==>
              IndexInv(s.(peers := s.peers - {f.id}, queue := Forgotten(f.id, s.peers[f.id], next)))
    ensures f.id !in s.peers ==> IndexInv(s.(queue := Resume(next)))
  {
    var s' := if f.id in s.peers then s.(peers := s.peers - {f.id}, queue := Forgotten(f.id, s.peers[f.id], next))
              else s.(queue := Resume(next));
    assert forall p: Peer :: !Live(s.table, f.id, p);
    hide Live, Find;
    forall p | p in s'.index ensures IndexEntry(s', p) {
      assert IndexEntry(s, p);
    }
    forall x | x in s'.peers ensures PeerEntry(s', x) {
      assert PeerEntry(s, x);
    }
  }

  /** ... and takes it out of the index unless a newer flow replaced it there. */
  lemma ForgottenIndex(s: State, id: nat, p0: Peer, next: Then)
    requires IndexInv(s) && s.queue == Forgotten(id, p0, next)
    ensures var index := if p0 in s.index && s.index[p0] == id then s.index - {p0} else s.index;
            IndexInv(s.(index := index, queue := Resume(next)))
  {
    var index := if p0 in s.index && s.index[p0] == id then s.index - {p0} else s.index;
    var s' := s.(index := index, queue := Resume(next));
    assert forall p: Peer :: !Live(s.table, id, p);
    hide Live, Find;
    forall p | p in s'.index ensures IndexEntry(s', p) {
      assert IndexEntry(s, p);
    }
    forall x | x in s'.peers ensures PeerEntry(s', x) {
      assert PeerEntry(s, x);
    }
  }

  /** A new flow has an id no index knows yet. */
  lemma AddedIndex(s: State, f: Flow)
    requires TableSound(s) && IndexInv(s) && s.queue.Adding? && f.id == s.nextId + 1 && f.lastActivity < U64_MAX
    ensures var s' := s.(table := s.table + [f], nextId := s.nextId + 1, queue := Idle);
            && IndexInv(s')
            && (forall x: nat :: x <= s.nextId ==> Find(s'.table, x) == Find(s.table, x))
  {
    var s' := s.(table := s.table + [f], nextId := s.nextId + 1, queue := Idle);
    forall x: nat | x <= s.nextId ensures Find(s'.table, x) == Find(s.table, x) {
      FindAppend(s.table, s.nextId, f, x);
    }
    assert forall x: nat, p: Peer :: x <= s.nextId ==> Live(s'.table, x, p) == Live(s.table, x, p);
    hide Live, Find;
    forall p | p in s'.index ensures IndexEntry(s', p) {
      assert IndexEntry(s, p);
    }
    forall id | id in s'.peers ensures PeerEntry(s', id) {
      assert PeerEntry(s, id);
    }
  }

  // ----- Guards -----

  lemma HoldersPut(sessions: map<nat, Session>, t: nat, x: Session, p: Peer)
    ensures Holders(sessions[t := x], p) ==
            if Holds(x, p) then Holders(sessions, p) + {t} else Holders(sessions, p) - {t}
    ensures t in Holders(sessions, p) <==> t in sessions && Holds(sessions[t], p)
  {
  }

  lemma HoldersDrop(sessions: map<nat, Session>, t: nat, p: Peer)
    ensures Holders(sessions - {t}, p) == Holders(sessions, p) - {t}
    ensures t in Holders(sessions, p) <==> t in sessions && Holds(sessions[t], p)
  {
  }

  /** A change that leaves guards and threads alone. */
  lemma GuardsFrame(s: State, s': State)
    requires GuardsSound(s) && s'.guards == s.guards && s'.sessions == s.sessions
    ensures GuardsSound(s')
  {
    hide Holders, CountOf;
  }

  lemma RegistersGuards(s: State, t: nat, p0: Peer)
    requires GuardsSound(s) && t !in s.sessions
    ensures GuardsSound(Registers(s, t, p0))
  {
    var s' := Registers(s, t, p0);
    forall p ensures CountOf(s'.guards, p) == |Holders(s'.sessions, p)| {
      HoldersPut(s.sessions, t, Registered(p0), p);
    }
  }

  /** A thread's step takes the guard it drops off the count, and itself off the holders. */
  lemma SessionHolders(s: State, t: nat, p: Peer)
    requires t in s.sessions
    ensures var x, was := s.sessions[t], Holders(s.sessions, p);
            Holders(SessionSteps(s, t, x).sessions, p) == if x == Guard(p) then was - {t} else was
    ensures s.sessions[t] == Guard(p) ==> t in Holders(s.sessions, p)
  {
    var after := SessionSteps(s, t, s.sessions[t]).sessions;
    HoldersDrop(s.sessions, t, p);
    if t in after {
      assert after == s.sessions[t := after[t]];
      HoldersPut(s.sessions, t, after[t], p);
    } else {
      assert after == s.sessions - {t};
    }
  }

  lemma SessionCounts(s: State, t: nat, p: Peer)
    requires t in s.sessions && (p in s.guards ==> s.guards[p] >= 1)
    ensures var x, s' := s.sessions[t], SessionSteps(s, t, s.sessions[t]);
            && CountOf(s'.guards, p) ==
               (if x == Guard(p) && p in s.guards then s.guards[p] - 1 else CountOf(s.guards, p))
            && (p in s'.guards ==> s'.guards[p] >= 1)
  {
    hide Protect;
  }

  lemma SessionGuardsOf(s: State, t: nat, p: Peer)
    requires GuardsSound(s) && t in s.sessions
    ensures var s' := SessionSteps(s, t, s.sessions[t]);
            CountOf(s'.guards, p) == |Holders(s'.sessions, p)| && (p in s'.guards ==> s'.guards[p] >= 1)
    ensures s.sessions[t] == Guard(p) ==> p in s.guards
  {
    hide Holders, SessionSteps;
    var was := Holders(s.sessions, p);
    assert CountOf(s.guards, p) == |was|;
    SessionHolders(s, t, p);
    SessionCounts(s, t, p);
    if s.sessions[t] == Guard(p) {
      assert |was - {t}| == |was| - 1;
    }
  }

  lemma SessionGuards(s: State, t: nat)
    requires GuardsSound(s) && t in s.sessions
    ensures GuardsSound(SessionSteps(s, t, s.sessions[t]))
    ensures s.sessions[t].Guard? ==> s.sessions[t].peer in s.guards
  {
    hide Holders, SessionSteps, CountOf;
    SessionGuardsOf(s, t, s.sessions[t].peer);
    var s' := SessionSteps(s, t, s.sessions[t]);
    forall p ensures CountOf(s'.guards, p) == |Holders(s'.sessions, p)| && (p in s'.guards ==> s'.guards[p] >= 1) {
      SessionGuardsOf(s, t, p);
    }
  }

  // ----- Protection -----

  predicate Announces(q: Queue, id: nat, p: Peer) {
    q == Indexed(id, p) || q == Known(id, p) || q == Guarding(id, p)
  }

  /** Exposure depends on the flow being bare, apart from index and guards. */
  lemma StillExposed(s: State, s': State, p: Peer)
    requires Exposed(s', p) && p in s.index && p in s.guards && s.index[p] == s'.index[p]
    requires Live(s'.table, s'.index[p], p) ==> Live(s.table, s'.index[p], p)
    requires Bare(s'.table, s'.index[p]) ==> Bare(s.table, s'.index[p])
    ensures Exposed(s, p)
  {
  }

  /** Steps of the queue expose no flow except the one being announced, and end an
      announcement only when its flow is protected or its peer has no guard. */
  lemma QueueProtection(s: State, s': State)
    requires ProtectionSound(s) && s'.sessions == s.sessions && s'.guards == s.guards
    requires forall p :: Exposed(s', p) ==>
                           || Announces(s'.queue, s'.index[p], p)
                           || (&& p in s.index && s.index[p] == s'.index[p]
                               && !Announces(s.queue, s.index[p], p)
                               && (Live(s'.table, s'.index[p], p) ==> Live(s.table, s'.index[p], p))
                               && (Bare(s'.table, s'.index[p]) ==> Bare(s.table, s'.index[p])))
    ensures ProtectionSound(s')
  {
    forall p | Exposed(s', p) ensures WillProtect(s', p, s'.index[p]) {
      if !Announces(s'.queue, s'.index[p], p) {
        StillExposed(s, s', p);
      }
    }
  }

  /** A thread's step leaves the other threads' intentions alone. */
  lemma ThreadProtection(s: State, s': State, t: nat)
    requires ProtectionSound(s) && s'.queue == s.queue && s'.index == s.index
    requires forall q :: q in s.sessions && q != t ==> q in s'.sessions && s'.sessions[q] == s.sessions[q]
    requires forall p :: Exposed(s', p) ==>
                           || (t in s'.sessions && (s'.sessions[t] == Registered(p) || s'.sessions[t] == Found(p, Some(s.index[p]))))
                           || (&& p in s.guards
                               && (Live(s'.table, s.index[p], p) ==> Live(s.table, s.index[p], p))
                               && (Bare(s'.table, s.index[p]) ==> Bare(s.table, s.index[p]))
                               && (t in s.sessions ==>
                                     s.sessions[t] != Registered(p) && s.sessions[t] != Found(p, Some(s.index[p]))))
    ensures ProtectionSound(s')
  {
    forall p | Exposed(s', p) ensures WillProtect(s', p, s'.index[p]) {
      if !(t in s'.sessions && (s'.sessions[t] == Registered(p) || s'.sessions[t] == Found(p, Some(s.index[p])))) {
        StillExposed(s, s', p);
        assert WillProtect(s, p, s.index[p]);
      }
    }
  }

  // ----- Every step keeps the invariant -----

  lemma TouchKeeps(s: State, id: nat, now: nat, ready: bool)
    requires Inv(s) && now < U64_MAX
    ensures Inv(s.(table := Touch(s.table, id, now, ready)))
    ensures forall p :: Live(Touch(s.table, id, now, ready), id, p) == Live(s.table, id, p)
  {
    var s' := s.(table := Touch(s.table, id, now, ready));
    TouchTable(s, id, now, ready);
    IndexFrame(s, s');
    hide Live, Find, Bare, TableSound, QueueSound, IndexSound, PeersSound, Touch;
    forall p | Exposed(s', p) ensures WillProtect(s', p, s'.index[p]) {
      StillExposed(s, s', p);
    }
  }

  lemma AdoptKeeps(s: State, t: nat, p0: Peer)
    requires Inv(s) && t !in s.sessions
    ensures Inv(Registers(s, t, p0))
  {
    var s' := Registers(s, t, p0);
    IndexFrame(s, s');
    RegistersGuards(s, t, p0);
    hide Find, TableSound, QueueSound, IndexSound, PeersSound, GuardsSound;
    ThreadProtection(s, s', t);
  }

  lemma ProtectKeeps(s: State, t: nat, p0: Peer, id: nat)
    requires Inv(s) && t in s.sessions && s.sessions[t] == Found(p0, Some(id))
    ensures Inv(SessionSteps(s, t, s.sessions[t]))
  {
    var s' := SessionSteps(s, t, s.sessions[t]);
    SessionGuards(s, t);
    ProtectTable(s, id);
    IndexFrame(s, s');
    hide Live, Bare, Find, IndexSound, PeersSound, GuardsSound, Protect, Sound, Unprotected;
    ThreadProtection(s, s', t);
  }

  lemma SessionKeeps(s: State, t: nat)
    requires Inv(s) && t in s.sessions
    ensures Inv(SessionSteps(s, t, s.sessions[t]))
  {
    hide Live, Bare, Find, QueueSound, IndexSound, PeersSound, GuardsSound, ProtectionSound, Sound, Unprotected, Protect;
    if s.sessions[t].Found? && s.sessions[t].flow.Some? {
      ProtectKeeps(s, t, s.sessions[t].peer, s.sessions[t].flow.value);
    } else {
      SessionGuards(s, t);
      SessionProtects(s, t);
      IndexFrame(s, SessionSteps(s, t, s.sessions[t]));
    }
  }

  lemma SessionProtects(s: State, t: nat)
    requires ProtectionSound(s) && t in s.sessions && !(s.sessions[t].Found? && s.sessions[t].flow.Some?)
    ensures ProtectionSound(SessionSteps(s, t, s.sessions[t]))
  {
    hide Live, Bare;
    ThreadProtection(s, SessionSteps(s, t, s.sessions[t]), t);
  }

  lemma QuietKeeps(s: State, q: Queue)
    requires Inv(s)
    requires s.queue.Idle? || s.queue.Reaping? || s.queue.Reserving?
    requires q.Idle? || q.Reaping? || q.Reserving? || (q.Announcing? && Live(s.table, q.id, q.peer))
             || (q.Adding? && Unprotected(s.table) < s.max)
    ensures Inv(s.(queue := q))
  {
    hide Live, Bare, Find, Sound, Unprotected;
    QuietQueue(s, q);
    QueueProtection(s, s.(queue := q));
  }

  lemma EvictKeeps(s: State, id: nat, next: Then)
    requires Inv(s) && (s.queue.Idle? || s.queue.Reaping? || s.queue.Reserving?)
    ensures Inv(Evicted(s, id, next))
  {
    if Find(s.table, id).None? {
      QuietKeeps(s, Idle);
    } else {
      var s' := Evicted(s, id, next);
      EvictedIndex(s, id, next);
      TakeTable(s, id);
      hide Live, Bare, Find, QueueSound, IndexSound, PeersSound, GuardsSound, Take, Sound, Unprotected;
      QueueProtection(s, s');
    }
  }

  lemma ClosesFrame(s: State, closes: set<nat>)
    requires Inv(s)
    ensures Inv(s.(closes := closes))
  {
    var s' := s.(closes := closes);
    IndexFrame(s, s');
    GuardsFrame(s, s');
    hide Live, Bare, Find, QueueSound, IndexSound, PeersSound, GuardsSound, Sound, Unprotected;
    forall p | Exposed(s', p) ensures WillProtect(s', p, s'.index[p]) {
      assert Exposed(s, p);
    }
  }

  lemma EventKeeps(s: State, e: Event)
    requires Inv(s) && s.queue.Idle?
    ensures Inv(QueueTakes(s, e))
  {
    match e
    case FlowReady(id, now) =>
      if Find(s.table, id).Some? && now < U64_MAX {
        TouchKeeps(s, id, now, true);
        var f, s' := Find(s.table, id).value, s.(table := Touch(s.table, id, now, true));
        hide Find, Touch, Inv;
        if f.remote.Some? {
          QuietKeeps(s', Announcing(id, f.remote.value));
        }
      }
    case Received(id, now) =>
      if now < U64_MAX {
        TouchKeeps(s, id, now, false);
      }
    case Failed(id) => EvictKeeps(s, id, ToIdle);
    case CloseFlow(id) =>
      if id in s.closes {
        ClosesFrame(s, s.closes - {id});
        EvictKeeps(s.(closes := s.closes - {id}), id, ToIdle);
      }
    case ReaperTimer => QuietKeeps(s, Reaping);
    case NewConnection(remote) => QuietKeeps(s, Reserving(remote));
  }

  lemma AnnounceKeeps(s: State)
    requires Inv(s) && (s.queue.Announcing? || s.queue.Indexed? || s.queue.Known?)
    ensures Inv(OnFlow(s))
  {
    hide Live, Bare, Find, QueueSound, IndexSound, PeersSound, GuardsSound, ProtectionSound, Sound, Unprotected;
    var id, p := s.queue.id, s.queue.peer;
    if s.queue.Announcing? {
      AnnouncedIndex(s, id, p);
    } else if s.queue.Indexed? {
      IndexedIndex(s, id, p);
    } else {
      QuietQueue(s, OnFlow(s).queue);
    }
    AnnounceProtects(s);
    GuardsFrame(s, OnFlow(s));
  }

  lemma AnnounceProtects(s: State)
    requires ProtectionSound(s) && (s.queue.Announcing? || s.queue.Indexed? || s.queue.Known?)
    ensures ProtectionSound(OnFlow(s))
  {
    hide Live, Bare;
    QueueProtection(s, OnFlow(s));
  }

  lemma GuardingKeeps(s: State, id: nat, p: Peer)
    requires Inv(s) && s.queue == Guarding(id, p)
    ensures Inv(s.(table := Protect(s.table, id), queue := Idle))
  {
    hide Live, Bare, Find, QueueSound, IndexSound, PeersSound, GuardsSound, ProtectionSound, Protect, Sound, Unprotected;
    var s' := s.(table := Protect(s.table, id));
    ProtectTable(s, id);
    IndexFrame(s, s');
    QuietQueue(s', Idle);
    GuardingProtects(s, id, p);
    GuardsFrame(s, s'.(queue := Idle));
  }

  lemma GuardingProtects(s: State, id: nat, p: Peer)
    requires Inv(s) && s.queue == Guarding(id, p)
    ensures ProtectionSound(s.(table := Protect(s.table, id), queue := Idle))
  {
    ProtectTable(s, id);
    hide Live, Bare, Find, IndexSound, PeersSound, GuardsSound, Protect, Sound, Unprotected;
    QueueProtection(s, s.(table := Protect(s.table, id), queue := Idle));
  }

  lemma CloseKeeps(s: State)
    requires Inv(s) && (s.queue.Closed? || s.queue.Forgotten?)
    ensures Inv(OnClose(s))
  {
    hide Live, Bare, Find, QueueSound, IndexSound, PeersSound, GuardsSound, ProtectionSound, Sound, Unprotected;
    if s.queue.Closed? {
      ClosedIndex(s, s.queue.flow, s.queue.next);
    } else {
      ForgottenIndex(s, s.queue.id, s.queue.peer, s.queue.next);
    }
    CloseProtects(s);
    GuardsFrame(s, OnClose(s));
  }

  lemma CloseProtects(s: State)
    requires ProtectionSound(s) && (s.queue.Closed? || s.queue.Forgotten?)
    ensures ProtectionSound(OnClose(s))
  {
    hide Live, Bare;
    QueueProtection(s, OnClose(s));
  }

  lemma AddKeeps(s: State, f: Flow)
    requires Inv(s) && s.queue.Adding? && f.id == s.nextId + 1 && f.lastActivity < U64_MAX
    ensures Inv(s.(nextId := s.nextId + 1, table := s.table + [f], queue := Idle))
  {
    AddedIndex(s, f);
    AppendKeeps(s.table, f, s.nextId);
    AddProtects(s, f);
    hide Find, QueueSound, IndexSound, PeersSound, GuardsSound, ProtectionSound, Sound, Unprotected;
  }

  lemma AddProtects(s: State, f: Flow)
    requires Inv(s) && s.queue.Adding? && f.id == s.nextId + 1 && f.lastActivity < U64_MAX
    ensures ProtectionSound(s.(nextId := s.nextId + 1, table := s.table + [f], queue := Idle))
  {
    hide Find, QueueSound, PeersSound, GuardsSound, Sound, Unprotected;
    var s' := s.(nextId := s.nextId + 1, table := s.table + [f], queue := Idle);
    AddedIndex(s, f);
    forall p | Exposed(s', p) ensures s.index[p] <= s.nextId && Find(s'.table, s.index[p]) == Find(s.table, s.index[p]) {
      assert IndexEntry(s, p);
    }
    QueueProtection(s, s');
  }

  lemma EvictionRoundKeeps(s: State, now: nat)
    requires Inv(s)
    ensures Inv(EvictionRound(s, now))
  {
    if s.queue.Reaping? {
      hide Inv, Evicted;
      EvictKeeps(s, ReapChoice(s.table, s.max, now), ToReap);
    } else if s.queue.Reserving? {
      ReserveStops(s.table, s.nextId, s.max);
      hide Inv, Evicted;
      match ReserveChoice(s.table, s.max) {
        case Free => QuietKeeps(s, Adding(s.queue.remote));
        case Full => QuietKeeps(s, Idle);
        case Evict(id) => EvictKeeps(s, id, ToReserve(s.queue.remote));
      }
    }
  }

  lemma QueueKeeps(s: State, now: nat, memory: bool)
    requires Inv(s) && now < U64_MAX
    ensures Inv(QueueSteps(s, now, memory))
  {
    hide Inv, OnClose, EvictionRound;
    if s.queue.Guarding? {
      GuardingKeeps(s, s.queue.id, s.queue.peer);
    } else if s.queue.Closed? || s.queue.Forgotten? {
      CloseKeeps(s);
    } else if s.queue.Reaping? || s.queue.Reserving? {
      EvictionRoundKeeps(s, now);
    } else if s.queue.Adding? {
      if memory {
        AddKeeps(s, Flow(s.nextId + 1, s.queue.remote, false, false, now));
      } else {
        NotAddedKeeps(s);
      }
    } else if !s.queue.Idle? {
      AnnounceKeeps(s);
    }
  }

  lemma NotAddedKeeps(s: State)
    requires Inv(s) && s.queue.Adding?
    ensures Inv(s.(queue := Idle))
  {
    hide Live, Bare, Find, Sound, Unprotected;
    var s' := s.(queue := Idle);
    forall p | p in s'.index ensures IndexEntry(s', p) {
      assert IndexEntry(s, p);
    }
    forall id | id in s'.peers ensures PeerEntry(s', id) {
      assert PeerEntry(s, id);
    }
    QueueProtection(s, s');
  }

  /** Every step, of the queue or of any thread, keeps the invariant. */
  lemma StepKeeps(s: State, a: Action)
    requires Inv(s)
    ensures Inv(Next(s, a))
  {
    hide Inv, QueueSteps, QueueTakes, SessionSteps, Registers, Touch;
    match a
    case QueueEvent(e) =>
      if s.queue.Idle? {
        EventKeeps(s, e);
      }
    case QueueStep(now, memory) =>
      if now < U64_MAX {
        QueueKeeps(s, now, memory);
      }
    case Sent(id, now) =>
      if now < U64_MAX {
        TouchKeeps(s, id, now, false);
      }
    case Adopt(t, p) =>
      if t !in s.sessions {
        AdoptKeeps(s, t, p);
      }
    case ThreadStep(t) =>
      if t in s.sessions {
        SessionKeeps(s, t);
      }
  }

  // ----- What every run keeps -----

  lemma {:induction false} RunKeeps(s: State, run: seq<Action>, n: nat)
    requires Initial(s) && n <= |run|
    ensures Inv(After(s, run, n))
    decreases n
  {
    if n == 0 {
      assert forall p :: Holders(s.sessions, p) == {};
    } else {
      RunKeeps(s, run, n - 1);
      hide Inv, Next;
      StepKeeps(After(s, run, n - 1), run[n - 1]);
    }
  }

  /** In every interleaving, once no adopt of the peer and no announcement of its flow is
      under way, a peer with a guard has its indexed flow protected if that flow still is in
      the table. */
  lemma GuardedPeerIsProtected(s: State, run: seq<Action>, n: nat, p: Peer, g: nat)
    requires Initial(s) && n <= |run|
    requires var t := After(s, run, n);
             && g in t.sessions && t.sessions[g] == Guard(p)
             && (forall q :: q in t.sessions ==>
                   t.sessions[q] != Registered(p) && !(t.sessions[q].Found? && t.sessions[q].peer == p))
             && p in t.index && !Announces(t.queue, t.index[p], p) && Find(t.table, t.index[p]).Some?
    ensures var t := After(s, run, n);
            Find(t.table, t.index[p]).value.remote == Some(p) && Find(t.table, t.index[p]).value.guarded
  {
    RunKeeps(s, run, n);
    var t := After(s, run, n);
    SessionGuards(t, g);
    hide After, Inv, Find;
    IndexedIsProtected(t, p);
  }

  lemma IndexedIsProtected(t: State, p: Peer)
    requires Inv(t) && p in t.guards && p in t.index && Find(t.table, t.index[p]).Some?
    requires !WillProtect(t, p, t.index[p])
    ensures Find(t.table, t.index[p]).value.remote == Some(p) && Find(t.table, t.index[p]).value.guarded
  {
    hide Find, TableSound, PeersSound, GuardsSound;
    assert IndexEntry(t, p);
    assert !Exposed(t, p);
  }

  /** The count kept for a peer always is the number of its live guards and of adopts of it
      under way, so dropping a guard finds a count to take one off. */
  lemma GuardsAreCounted(s: State, run: seq<Action>, n: nat, p: Peer)
    requires Initial(s) && n <= |run|
    ensures var t := After(s, run, n);
            && (if p in t.guards then t.guards[p] else 0) == |Holders(t.sessions, p)|
            && (forall g :: g in t.sessions && t.sessions[g] == Guard(p) ==> p in t.guards && t.guards[p] >= 1)
  {
    RunKeeps(s, run, n);
    var t := After(s, run, n);
    forall g | g in t.sessions && t.sessions[g] == Guard(p) ensures p in t.guards {
      SessionGuards(t, g);
    }
  }

  /** In every reachable state ids are unique and the unprotected flows are within the limit. */
  lemma LimitHolds(s: State, run: seq<Action>, n: nat)
    requires Initial(s) && n <= |run|
    ensures UniqueIds(After(s, run, n).table) && Unprotected(After(s, run, n).table) <= s.max
  {
    RunKeeps(s, run, n);
    MaxStays(s, run, n);
  }

  lemma MaxUnchanged(s: State, a: Action)
    ensures Next(s, a).max == s.max
  {
    hide Find, Take, Touch, Protect, ReapChoice, ReserveChoice;
    if a.QueueStep? {
      assert QueueSteps(s, a.now, a.memory).max == s.max;
    } else if a.ThreadStep? && a.t in s.sessions {
      assert SessionSteps(s, a.t, s.sessions[a.t]).max == s.max;
    }
  }

  lemma {:induction false} MaxStays(s: State, run: seq<Action>, n: nat)
    requires n <= |run|
    ensures After(s, run, n).max == s.max
    decreases n
  {
    if n > 0 {
      MaxStays(s, run, n - 1);
      hide Next;
      MaxUnchanged(After(s, run, n - 1), run[n - 1]);
    }
  }

  /** At rest every index entry names a flow of its peer in the table, and `peers` leads back
      to the peer; `peers` names only flows in the table, of the peer it gives. */
  lemma IndexAtRest(s: State, run: seq<Action>, n: nat)
    requires Initial(s) && n <= |run|
    requires var q := After(s, run, n).queue; q.Idle? || q.Reaping? || q.Reserving? || q.Adding?
    ensures var t := After(s, run, n);
            && (forall p :: p in t.index ==>
                  Live(t.table, t.index[p], p) && t.index[p] in t.peers && t.peers[t.index[p]] == p)
            && (forall id :: id in t.peers ==> Live(t.table, id, t.peers[id]))
  {
    RunKeeps(s, run, n);
    var t := After(s, run, n);
    hide Live, Find, Inv;
    forall p | p in t.index ensures Live(t.table, t.index[p], p) && t.index[p] in t.peers && t.peers[t.index[p]] == p {
      assert Inv(t) ==> IndexEntry(t, p) by { InvEntries(t); }
    }
    forall id | id in t.peers ensures Live(t.table, id, t.peers[id]) {
      assert Inv(t) ==> PeerEntry(t, id) by { InvEntries(t); }
    }
  }

  lemma InvEntries(s: State)
    ensures Inv(s) ==> (forall p :: p in s.index ==> IndexEntry(s, p)) && (forall id :: id in s.peers ==> PeerEntry(s, id))
  {
  }

  // ----- Which flows leave the table -----

  /** A flow disappears from the table only when its connection failed, when a dropped guard
      asked for it to be closed, or when an eviction loop takes it, and then it is unprotected
      and least recently active. */
  lemma OnlyLeastRecentEvicted(s: State, run: seq<Action>, n: nat, f: Flow)
    requires Initial(s) && n < |run|
    requires f in After(s, run, n).table && Find(After(s, run, n + 1).table, f.id).None?
    ensures || run[n] == QueueEvent(Failed(f.id))
            || (run[n] == QueueEvent(CloseFlow(f.id)) && f.id in After(s, run, n).closes)
            || LeastRecent(After(s, run, n).table, f)
  {
    RunKeeps(s, run, n);
    var t, a := After(s, run, n), run[n];
    assert After(s, run, n + 1) == Next(t, a);
    FindIs(t.table, f);
    LeavesOnlyBy(t, a, f);
  }

  lemma EvictedTakes(t: State, id: nat, next: Then, x: nat)
    requires TableSound(t) && Find(t.table, x).Some? && x != id
    ensures Find(Evicted(t, id, next).table, x).Some?
  {
    FindTake(t.table, t.nextId, id, x);
  }

  lemma RoundTakes(t: State, now: nat, x: nat)
    requires TableSound(t) && Find(t.table, x).Some? && x != ScanFlows(t.table, |t.table|).victim && x != 0
    ensures Find(EvictionRound(t, now).table, x).Some?
  {
    hide ScanFlows, Find, Evicted, Sound, Unprotected;
    if t.queue.Reaping? {
      EvictedTakes(t, ReapChoice(t.table, t.max, now), ToReap, x);
    } else if t.queue.Reserving? && ReserveChoice(t.table, t.max).Evict? {
      EvictedTakes(t, ReserveChoice(t.table, t.max).id, ToReserve(t.queue.remote), x);
    }
  }

  /** Every other step of the queue, and every event but a close, keeps all flows. */
  lemma QueueKeepsFlows(t: State, now: nat, memory: bool, x: nat)
    requires TableSound(t) && Find(t.table, x).Some? && now < U64_MAX && !t.queue.Reaping? && !t.queue.Reserving?
    ensures Find(QueueSteps(t, now, memory).table, x).Some?
  {
    if t.queue.Guarding? {
      FindProtect(t.table, t.nextId, t.queue.id, x);
    } else if t.queue.Adding? {
      FindAppend(t.table, t.nextId, Flow(t.nextId + 1, t.queue.remote, false, false, now), x);
    }
    hide Find, Protect;
  }

  lemma EventKeepsFlows(t: State, e: Event, x: nat)
    requires TableSound(t) && Find(t.table, x).Some? && e != Failed(x) && !(e == CloseFlow(x) && x in t.closes)
    ensures Find(QueueTakes(t, e).table, x).Some?
  {
    match e
    case FlowReady(id, now) =>
      if now < U64_MAX {
        FindTouch(t.table, t.nextId, id, now, true, x);
      }
    case Received(id, now) =>
      if now < U64_MAX {
        FindTouch(t.table, t.nextId, id, now, false, x);
      }
    case Failed(id) => EvictedTakes(t, id, ToIdle, x);
    case CloseFlow(id) =>
      if id in t.closes {
        EvictedTakes(t.(closes := t.closes - {id}), id, ToIdle, x);
      }
    case _ =>
  }

  lemma LeavesOnlyBy(t: State, a: Action, f: Flow)
    requires TableSound(t) && f in t.table && Find(t.table, f.id) == Some(f) && Find(Next(t, a).table, f.id).None?
    ensures || a == QueueEvent(Failed(f.id)) || (a == QueueEvent(CloseFlow(f.id)) && f.id in t.closes)
            || LeastRecent(t.table, f)
  {
    hide Find, Sound, Unprotected, Touch, Protect, QueueTakes, EvictionRound, OnFlow, OnClose, AddRound, ScanFlows,
      LeastRecent;
    VictimFound(t, f);
    if a.QueueEvent? {
      if a.event != Failed(f.id) && !(a.event == CloseFlow(f.id) && f.id in t.closes) {
        EventKeepsFlows(t, a.event, f.id);
      }
    } else if a.QueueStep? && a.now < U64_MAX {
      if t.queue.Reaping? || t.queue.Reserving? {
        if f.id != ScanFlows(t.table, |t.table|).victim {
          RoundTakes(t, a.now, f.id);
        }
      } else {
        QueueKeepsFlows(t, a.now, a.memory, f.id);
      }
    } else if a.Sent? && a.now < U64_MAX {
      FindTouch(t.table, t.nextId, a.id, a.now, false, f.id);
    } else if a.ThreadStep? && a.t in t.sessions && t.sessions[a.t].Found? && t.sessions[a.t].flow.Some? {
      FindProtect(t.table, t.nextId, t.sessions[a.t].flow.value, f.id);
    }
  }

  lemma VictimFound(t: State, f: Flow)
    requires TableSound(t) && f in t.table
    ensures f.id != 0
    ensures f.id == ScanFlows(t.table, |t.table|).victim ==> LeastRecent(t.table, f)
  {
    if f.id == ScanFlows(t.table, |t.table|).victim {
      var i :| 0 <= i < |t.table| && t.table[i] == f;
      var v := VictimIsLeastRecent(t.table, t.nextId);
      FindIs(t.table, v);
      FindIs(t.table, f);
    }
  }

  /** Both eviction loops end: only an accepted connection makes the table grow, and every
      round of a loop that goes on takes one flow off it. */
  lemma LoopsShrink(s: State, run: seq<Action>, n: nat)
    requires Initial(s) && n < |run|
    ensures var t, t' := After(s, run, n), After(s, run, n + 1);
            && (!t.queue.Adding? ==> |t'.table| <= |t.table|)
            && ((t.queue.Reaping? || t.queue.Reserving?) && t'.queue.Closed? ==> |t'.table| < |t.table|)
  {
    RunKeeps(s, run, n);
    var t, a := After(s, run, n), run[n];
    Shrinks(t, a);
  }

  lemma EvictionShrinks(t: State, id: nat, next: Then)
    requires TableSound(t)
    ensures |Evicted(t, id, next).table| <= |t.table|
    ensures Evicted(t, id, next).queue.Closed? && !t.queue.Closed? ==> |Evicted(t, id, next).table| < |t.table|
  {
    TakeTable(t, id);
  }

  lemma Shrinks(t: State, a: Action)
    requires Inv(t)
    ensures var t' := Next(t, a);
            && (!t.queue.Adding? ==> |t'.table| <= |t.table|)
            && ((t.queue.Reaping? || t.queue.Reserving?) && t'.queue.Closed? ==> |t'.table| < |t.table|)
  {
    hide Find, Sound, Unprotected, QueueSound, IndexSound, PeersSound, GuardsSound, ProtectionSound, Take;
    if a.QueueStep? {
      if t.queue.Reaping? {
        EvictionShrinks(t, ReapChoice(t.table, t.max, a.now), ToReap);
      } else if t.queue.Reserving? && ReserveChoice(t.table, t.max).Evict? {
        EvictionShrinks(t, ReserveChoice(t.table, t.max).id, ToReserve(t.queue.remote));
      }
    } else if a.QueueEvent? && a.event.Failed? {
      EvictionShrinks(t, a.event.id, ToIdle);
    } else if a.QueueEvent? && a.event.CloseFlow? {
      EvictionShrinks(t.(closes := t.closes - {a.event.id}), a.event.id, ToIdle);
    }
  }
}
