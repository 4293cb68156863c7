/** The listener's table of UDP flows: an array with swap-removal, and eviction of the least
    recently active flow among those no authenticated peer protects. */
module FlowTable {
  import opened Common

  type Peer = nat

  const UNPROTECTED_IDLE_NS: nat := 3_000_000_000

  /** `remote` is the peer address of the flow's connection, if it has one. */
  datatype Flow = Flow(id: nat, remote: Option<Peer>, ready: bool, guarded: bool, lastActivity: nat)

  // ----- The table as a sequence -----

  predicate UniqueIds(s: seq<Flow>) {
    forall i, j :: 0 <= i < j < |s| ==> s[i].id != s[j].id
  }

  /** The first index that holds the id, or the length. */
  function IndexOf(s: seq<Flow>, id: nat): (i: nat)
    ensures i <= |s|
    ensures i < |s| ==> s[i].id == id
    ensures forall k :: 0 <= k < i ==> s[k].id != id
  {
    if s == [] then 0
    else
      var i := IndexOf(s[..|s| - 1], id);
      if i < |s| - 1 || s[i].id == id then i else |s|
  }

  predicate Has(s: seq<Flow>, id: nat) {
    exists i :: 0 <= i < |s| && s[i].id == id
  }

  /** The last element takes the place of the removed one. */
  function SwapRemove(s: seq<Flow>, i: nat): seq<Flow>
    requires i < |s|
  {
    s[i := s[|s| - 1]][..|s| - 1]
  }

  function Take(s: seq<Flow>, id: nat): seq<Flow> {
    var i := IndexOf(s, id);
    if i < |s| then SwapRemove(s, i) else s
  }

  function Weight(f: Flow): nat {
    if f.guarded then 0 else 1
  }

  function Unprotected(s: seq<Flow>): nat {
    if s == [] then 0 else Unprotected(s[..|s| - 1]) + Weight(s[|s| - 1])
  }

  /** Marks the flow protected, if it still is in the table. */
  function Protect(s: seq<Flow>, id: nat): seq<Flow> {
    var i := IndexOf(s, id);
    if i < |s| then s[i := s[i].(guarded := true)] else s
  }

  /** Records activity on the flow, if it still is in the table. */
  function Touch(s: seq<Flow>, id: nat, now: nat, ready: bool): seq<Flow> {
    var i := IndexOf(s, id);
    if i < |s| then s[i := s[i].(lastActivity := now, ready := s[i].ready || ready)] else s
  }

  // ----- The eviction scan -----

  datatype Scan = Scan(unprotected: nat, oldest: nat, victim: nat)

  /** One pass over the first `n` flows, as both eviction loops make it under the lock. */
  function ScanFlows(s: seq<Flow>, n: nat): Scan
    requires n <= |s|
  {
    if n == 0 then Scan(0, U64_MAX, 0)
    else
      var r, f := ScanFlows(s, n - 1), s[n - 1];
      if f.guarded then r
      else if f.lastActivity < r.oldest then Scan(r.unprotected + 1, f.lastActivity, f.id)
      else r.(unprotected := r.unprotected + 1)
  }

  /** `now - oldest` is unsigned 64-bit arithmetic. */
  predicate LooksIdle(now: nat, oldest: nat) {
    (now - oldest) % (U64_MAX + 1) >= UNPROTECTED_IDLE_NS
  }

  /** The flow one round of the reaper takes, or 0 for none. */
  function ReapChoice(s: seq<Flow>, max: nat, now: nat): nat {
    var r := ScanFlows(s, |s|);
    if r.unprotected > max || (r.victim != 0 && LooksIdle(now, r.oldest)) then r.victim else 0
  }

  datatype Room = Free | Evict(id: nat) | Full

  /** What one round of making room for a new flow does. */
  function ReserveChoice(s: seq<Flow>, max: nat): Room {
    var r := ScanFlows(s, |s|);
    if r.unprotected < max then Free else if r.victim != 0 then Evict(r.victim) else Full
  }

  /** The flow is unprotected and no unprotected flow was active less recently. */
  predicate LeastRecent(s: seq<Flow>, f: Flow) {
    && f in s && !f.guarded
    && forall g :: g in s && !g.guarded ==> f.lastActivity <= g.lastActivity
  }

  /** The table holds only ids that were handed out, each once; 0 is never one, and times
      stay below the scan's starting value. */
  predicate Sound(s: seq<Flow>, nextId: nat) {
    && UniqueIds(s)
    && forall i :: 0 <= i < |s| ==> 1 <= s[i].id <= nextId && s[i].lastActivity < U64_MAX
  }

  /** What the scan finds: the number of unprotected flows, and the id and time of a least
      recently active one, 0 exactly if there is none. */
  lemma {:induction false} ScanMeans(s: seq<Flow>, n: nat)
    requires n <= |s|
    requires forall i :: 0 <= i < |s| ==> s[i].id >= 1 && s[i].lastActivity < U64_MAX
    ensures var r := ScanFlows(s, n);
            && r.unprotected == Unprotected(s[..n])
            && (r.victim == 0 <==> r.unprotected == 0)
            && (r.victim == 0 ==> r.oldest == U64_MAX)
            && (forall i :: 0 <= i < n && !s[i].guarded ==> r.oldest <= s[i].lastActivity)
            && (r.victim != 0 ==>
                  exists i :: 0 <= i < n && s[i].id == r.victim && !s[i].guarded && s[i].lastActivity == r.oldest)
    decreases n
  {
    if n > 0 {
      ScanMeans(s, n - 1);
      assert s[..n][..n - 1] == s[..n - 1];
      var r := ScanFlows(s, n);
      if r.victim != 0 && r == ScanFlows(s, n - 1).(unprotected := r.unprotected) {
        var i :| 0 <= i < n - 1 && s[i].id == r.victim && !s[i].guarded && s[i].lastActivity == r.oldest;
        assert s[i].id == r.victim;
      } else {
        assert r.victim != 0 ==> s[n - 1].id == r.victim;
      }
    }
  }

  lemma VictimIsLeastRecent(s: seq<Flow>, nextId: nat) returns (f: Flow)
    requires Sound(s, nextId) && ScanFlows(s, |s|).victim != 0
    ensures LeastRecent(s, f) && f.id == ScanFlows(s, |s|).victim && f.lastActivity == ScanFlows(s, |s|).oldest
  {
    ScanMeans(s, |s|);
    var r := ScanFlows(s, |s|);
    var i :| 0 <= i < |s| && s[i].id == r.victim && !s[i].guarded && s[i].lastActivity == r.oldest;
    f := s[i];
  }

  // ----- Swap-removal -----

  lemma {:induction false} UnprotectedUpdate(s: seq<Flow>, i: nat, f: Flow)
    requires i < |s|
    ensures Unprotected(s[i := f]) == Unprotected(s) - Weight(s[i]) + Weight(f)
    decreases |s|
  {
    var n := |s| - 1;
    if i < n {
      UnprotectedUpdate(s[..n], i, f);
      assert s[i := f][..n] == s[..n][i := f];
    } else {
      assert s[i := f][..n] == s[..n];
    }
  }

  lemma SwapRemoveWeight(s: seq<Flow>, i: nat)
    requires i < |s|
    ensures Unprotected(SwapRemove(s, i)) == Unprotected(s) - Weight(s[i])
  {
    var n := |s| - 1;
    UnprotectedUpdate(s, i, s[n]);
    assert s[i := s[n]][n] == s[n];
  }

  /** The flows other than the removed one stay, and only those. */
  lemma SwapRemoveKeeps(s: seq<Flow>, i: nat)
    requires i < |s| && UniqueIds(s)
    ensures UniqueIds(SwapRemove(s, i))
    ensures forall f :: f in SwapRemove(s, i) <==> f in s && f.id != s[i].id
  {
    hide Unprotected;
    var n, r := |s| - 1, SwapRemove(s, i);
    assert forall k :: 0 <= k < n ==> r[k] == if k == i then s[n] else s[k];
    forall f | f in s && f.id != s[i].id ensures f in r {
      var k :| 0 <= k < |s| && s[k] == f;
      assert if k == n then r[i] == f else r[k] == f;
    }
    forall f | f in r ensures f in s && f.id != s[i].id {
      var k :| 0 <= k < n && r[k] == f;
    }
  }

  lemma TakeKeeps(s: seq<Flow>, id: nat, nextId: nat)
    requires Sound(s, nextId)
    ensures Sound(Take(s, id), nextId)
    ensures forall f :: f in Take(s, id) <==> f in s && f.id != id
    ensures |Take(s, id)| == if Has(s, id) then |s| - 1 else |s|
    ensures Unprotected(Take(s, id)) <= Unprotected(s)
    ensures forall f :: f in s && f.id == id && !f.guarded ==> Unprotected(Take(s, id)) == Unprotected(s) - 1
  {
    var i := IndexOf(s, id);
    if i < |s| {
      SwapRemoveKeeps(s, i);
      SwapRemoveWeight(s, i);
      forall f | f in s && f.id == id ensures f == s[i] {
        var k :| 0 <= k < |s| && s[k] == f;
        assert !(k < i) && !(i < k);
      }
      var r := SwapRemove(s, i);
      forall k | 0 <= k < |r| ensures r[k] in s {
        assert r[k] in r;
      }
    }
  }

  lemma SoundLater(s: seq<Flow>, nextId: nat, later: nat)
    requires Sound(s, nextId) && nextId <= later
    ensures Sound(s, later)
  {
  }

  lemma IdZeroAbsent(s: seq<Flow>, nextId: nat)
    requires Sound(s, nextId)
    ensures IndexOf(s, 0) == |s|
  {
  }

  lemma AppendKeeps(s: seq<Flow>, f: Flow, nextId: nat)
    requires Sound(s, nextId) && f.id == nextId + 1 && f.lastActivity < U64_MAX
    ensures Sound(s + [f], nextId + 1) && Unprotected(s + [f]) == Unprotected(s) + Weight(f) <= Unprotected(s) + 1
    ensures forall g :: g in s + [f] <==> g in s || g == f
  {
    assert (s + [f])[..|s|] == s;
  }

  /** Marking a flow protected, or active, keeps every other flow and every id. */
  lemma UpdateKeeps(s: seq<Flow>, i: nat, f: Flow)
    requires i < |s| && UniqueIds(s) && f.id == s[i].id
    ensures UniqueIds(s[i := f])
    ensures forall g :: g in s[i := f] <==> g == f || (g in s && g.id != f.id)
  {
    var r := s[i := f];
    forall g | g in s && g.id != f.id ensures g in r {
      var k :| 0 <= k < |s| && s[k] == g;
      assert r[k] == g;
    }
    assert r[i] == f;
  }

  // ----- The reaper's idle test -----

  /** The unsigned test, spelled out: a real silence of three seconds, or an activity time
      after `now`, which wraps around. */
  lemma IdleTest(now: nat, oldest: nat)
    requires now <= U64_MAX && oldest <= U64_MAX
    ensures LooksIdle(now, oldest) <==>
            || (oldest <= now && now - oldest >= UNPROTECTED_IDLE_NS)
            || (now < oldest && oldest - now <= U64_MAX + 1 - UNPROTECTED_IDLE_NS)
  {
    if oldest <= now {
      assert (now - oldest) % (U64_MAX + 1) == now - oldest;
    } else {
      assert (now - oldest) % (U64_MAX + 1) == now - oldest + (U64_MAX + 1);
    }
  }

  /** The clock is read before the lock is taken, so a flow can be active after `now`. A flow
      the reaper takes below the limit really was silent for three seconds if and only if
      its last activity is not after the `now` that was read. */
  lemma ReapedBelowLimitWasIdle(s: seq<Flow>, nextId: nat, max: nat, now: nat, f: Flow)
    requires Sound(s, nextId) && Unprotected(s) <= max && now <= U64_MAX
    requires f in s && ReapChoice(s, max, now) == f.id
    ensures LeastRecent(s, f)
    ensures f.lastActivity + UNPROTECTED_IDLE_NS <= now <==> f.lastActivity <= now
  {
    ScanMeans(s, |s|);
    assert s[..|s|] == s;
    assert f.id != 0;
    var g := VictimIsLeastRecent(s, nextId);
    assert g == f by {
      var i :| 0 <= i < |s| && s[i] == f;
      var j :| 0 <= j < |s| && s[j] == g;
      assert !(i < j) && !(j < i);
    }
    IdleTest(now, f.lastActivity);
  }

  /** The race is real: a flow of a peer that became active one nanosecond after `now` was
      read is taken at once. */
  lemma FreshFlowReaped(id: nat, p: Peer, max: nat, now: nat)
    requires id > 0 && now < U64_MAX - 1
    ensures ReapChoice([Flow(id, Some(p), true, false, now + 1)], max, now) == id
  {
    var f := Flow(id, Some(p), true, false, now + 1);
    IdleTest(now, now + 1);
    assert ScanFlows([f], 1) == Scan(1, now + 1, id) by {
      assert ScanFlows([f], 0) == Scan(0, U64_MAX, 0);
    }
  }

  // ----- The loops -----

  /** Rounds of the reaper, the clock being read afresh before each; also what it took. */
  function Reap(s: seq<Flow>, max: nat, clock: nat -> nat, round: nat): (r: (seq<Flow>, seq<nat>))
    decreases |s|
  {
    var id := ReapChoice(s, max, clock(round));
    if !(IndexOf(s, id) < |s|) then (s, [])
    else
      var r := Reap(Take(s, id), max, clock, round + 1);
      (r.0, [id] + r.1)
  }

  /** The reaper that started as `all` has come to table `s`, having taken `closed`. */
  ghost predicate ReapingOn(all: (seq<Flow>, seq<nat>), s: seq<Flow>, max: nat, clock: nat -> nat, closed: seq<nat>) {
    var r := Reap(s, max, clock, |closed|);
    all.0 == r.0 && all.1 == closed + r.1
  }

  lemma RoundOfReap(all: (seq<Flow>, seq<nat>), s: seq<Flow>, max: nat, clock: nat -> nat, closed: seq<nat>)
    requires ReapingOn(all, s, max, clock, closed)
    ensures var id := ReapChoice(s, max, clock(|closed|));
            if IndexOf(s, id) == |s| then all == (s, closed)
            else ReapingOn(all, Take(s, id), max, clock, closed + [id])
  {
    var id := ReapChoice(s, max, clock(|closed|));
    if IndexOf(s, id) == |s| {
      assert Reap(s, max, clock, |closed|) == (s, []);
      assert closed + [] == closed;
    } else {
      var rest := Reap(Take(s, id), max, clock, |closed| + 1);
      assert Reap(s, max, clock, |closed|) == (rest.0, [id] + rest.1);
      hide Reap, ReapChoice, Take, IndexOf;
      IdsMore(closed, id, rest.1);
    }
  }

  lemma IdsMore(closed: seq<nat>, id: nat, rest: seq<nat>)
    ensures closed + ([id] + rest) == closed + [id] + rest && |closed + [id]| == |closed| + 1
  {
  }

  /** Rounds of making room; whether there is room, and what was taken. */
  function Reserve(s: seq<Flow>, max: nat): (r: (seq<Flow>, bool, seq<nat>))
    decreases |s|
  {
    match ReserveChoice(s, max)
    case Free => (s, true, [])
    case Full => (s, false, [])
    case Evict(id) =>
      if !(IndexOf(s, id) < |s|) then (s, false, [])
      else
        var r := Reserve(Take(s, id), max);
        (r.0, r.1, [id] + r.2)
  }

  /** Making room that started as `all` has come to table `s`, having taken `closed`. */
  ghost predicate ReservingOn(all: (seq<Flow>, bool, seq<nat>), s: seq<Flow>, max: nat, closed: seq<nat>) {
    var r := Reserve(s, max);
    all.0 == r.0 && all.1 == r.1 && all.2 == closed + r.2
  }

  lemma RoundOfReserve(all: (seq<Flow>, bool, seq<nat>), s: seq<Flow>, max: nat, closed: seq<nat>)
    requires ReservingOn(all, s, max, closed)
    ensures var c := ReserveChoice(s, max);
            if c.Evict? && IndexOf(s, c.id) < |s| then ReservingOn(all, Take(s, c.id), max, closed + [c.id])
            else all == (s, c.Free?, closed)
  {
    var c := ReserveChoice(s, max);
    if c.Evict? && IndexOf(s, c.id) < |s| {
      var rest := Reserve(Take(s, c.id), max);
      assert Reserve(s, max) == (rest.0, rest.1, [c.id] + rest.2);
      hide Reserve, ReserveChoice, Take, IndexOf;
      IdsMore(closed, c.id, rest.2);
    } else {
      assert Reserve(s, max) == (s, c.Free?, []);
      assert closed + [] == closed;
    }
  }

  /** Each id taken in turn named a least recently active unprotected flow of what was left. */
  ghost predicate TookLeastRecent(s: seq<Flow>, taken: seq<nat>)
    decreases |taken|
  {
    taken == [] ||
    ((exists f: Flow :: f.id == taken[0] && LeastRecent(s, f)) && TookLeastRecent(Take(s, taken[0]), taken[1..]))
  }

  lemma OneFlowPerId(s: seq<Flow>, f: Flow, g: Flow)
    requires UniqueIds(s) && f in s && g in s && f != g
    ensures f.id != g.id
  {
    var i :| 0 <= i < |s| && s[i] == f;
    var j :| 0 <= j < |s| && s[j] == g;
    assert i < j || j < i;
  }

  lemma ChoiceIsLeastRecent(s: seq<Flow>, nextId: nat, id: nat) returns (f: Flow)
    requires Sound(s, nextId) && id == ScanFlows(s, |s|).victim && IndexOf(s, id) < |s|
    ensures f.id == id && LeastRecent(s, f) && f in s
    ensures Sound(Take(s, id), nextId) && Unprotected(Take(s, id)) == Unprotected(s) - 1
    ensures forall g :: g in s && g.guarded ==> g in Take(s, id)
  {
    assert id != 0;
    hide ScanFlows, IndexOf, Take, Unprotected;
    f := VictimIsLeastRecent(s, nextId);
    TakeKeeps(s, id, nextId);
    forall g | g in s && g.guarded ensures g.id != f.id {
      OneFlowPerId(s, f, g);
    }
  }

  /** The reaper keeps every protected flow, takes least recently active flows only, and
      leaves at most `max` unprotected ones. */
  lemma {:induction false} ReapMeans(s: seq<Flow>, nextId: nat, max: nat, clock: nat -> nat, round: nat)
    requires Sound(s, nextId)
    ensures var r := Reap(s, max, clock, round);
            && Sound(r.0, nextId) && Unprotected(r.0) <= max
            && (forall f :: f in r.0 ==> f in s)
            && (forall f :: f in s && f.guarded ==> f in r.0)
            && TookLeastRecent(s, r.1)
    decreases |s|
  {
    hide Unprotected, LooksIdle, Sound, LeastRecent;
    var id := ReapChoice(s, max, clock(round));
    ReapStops(s, nextId, max, clock(round));
    if IndexOf(s, id) < |s| {
      var f := ChoiceIsLeastRecent(s, nextId, id);
      ReapMeans(Take(s, id), nextId, max, clock, round + 1);
      TakeKeeps(s, id, nextId);
      var r := Reap(Take(s, id), max, clock, round + 1);
      assert ([id] + r.1)[1..] == r.1;
    }
  }

  /** When a round takes nothing the table is within its limit, and its least recently
      active unprotected flow does not look idle. */
  lemma ReapStops(s: seq<Flow>, nextId: nat, max: nat, now: nat)
    requires Sound(s, nextId)
    ensures var id := ReapChoice(s, max, now);
            && (IndexOf(s, id) < |s| ==> id == ScanFlows(s, |s|).victim)
            && (IndexOf(s, id) == |s| ==> Unprotected(s) <= max)
            && (IndexOf(s, id) == |s| && Unprotected(s) > 0 ==> !LooksIdle(now, ScanFlows(s, |s|).oldest))
  {
    ScanMeans(s, |s|);
    assert s[..|s|] == s;
    if ScanFlows(s, |s|).victim != 0 {
      var f := VictimIsLeastRecent(s, nextId);
    }
  }

  lemma StoppedMeansActive(s: seq<Flow>, nextId: nat, max: nat, now: nat, f: Flow)
    requires Sound(s, nextId) && f in s && !f.guarded && now <= U64_MAX
    requires IndexOf(s, ReapChoice(s, max, now)) == |s|
    ensures now < f.lastActivity + UNPROTECTED_IDLE_NS
  {
    ReapStops(s, nextId, max, now);
    ScanMeans(s, |s|);
    assert s[..|s|] == s;
    var i :| 0 <= i < |s| && s[i] == f;
    IdleTest(now, ScanFlows(s, |s|).oldest);
  }

  /** After the reaper stops, no unprotected flow has been silent for three seconds at its
      last clock reading. */
  lemma {:induction false} ReapLeavesNoneIdle(s: seq<Flow>, nextId: nat, max: nat, clock: nat -> nat, round: nat, f: Flow)
    requires Sound(s, nextId) && f in Reap(s, max, clock, round).0 && !f.guarded
    requires forall k :: clock(k) <= U64_MAX
    ensures clock(round + |Reap(s, max, clock, round).1|) < f.lastActivity + UNPROTECTED_IDLE_NS
    decreases |s|
  {
    hide Sound, ReapChoice, Take;
    var id := ReapChoice(s, max, clock(round));
    if IndexOf(s, id) < |s| {
      TakeKeeps(s, id, nextId);
      ReapLeavesNoneIdle(Take(s, id), nextId, max, clock, round + 1, f);
      assert round + 1 + |Reap(Take(s, id), max, clock, round + 1).1| == round + |Reap(s, max, clock, round).1|;
    } else {
      StoppedMeansActive(s, nextId, max, clock(round), f);
      assert round + 0 == round;
    }
  }

  /** Making room succeeds unless the limit is zero, keeps every protected flow, and takes
      least recently active flows only, and none while there is room. */
  lemma {:induction false} ReserveMeans(s: seq<Flow>, nextId: nat, max: nat)
    requires Sound(s, nextId)
    ensures var r := Reserve(s, max);
            && Sound(r.0, nextId)
            && (r.1 <==> max > 0) && (r.1 ==> Unprotected(r.0) < max) && Unprotected(r.0) <= Unprotected(s)
            && (forall f :: f in r.0 ==> f in s)
            && (forall f :: f in s && f.guarded ==> f in r.0)
            && TookLeastRecent(s, r.2)
            && (Unprotected(s) < max ==> r.0 == s)
    decreases |s|
  {
    ReserveStops(s, nextId, max);
    hide ScanFlows, Unprotected, Sound, LeastRecent;
    if ReserveChoice(s, max).Evict? {
      var id := ReserveChoice(s, max).id;
      var f := ChoiceIsLeastRecent(s, nextId, id);
      ReserveMeans(Take(s, id), nextId, max);
      TakeKeeps(s, id, nextId);
      var r := Reserve(Take(s, id), max);
      assert ([id] + r.2)[1..] == r.2;
    }
  }

  /** A round takes a flow exactly when the limit is reached and some flow is unprotected. */
  lemma ReserveStops(s: seq<Flow>, nextId: nat, max: nat)
    requires Sound(s, nextId)
    ensures match ReserveChoice(s, max)
            case Free => Unprotected(s) < max
            case Full => max == 0
            case Evict(id) => 0 < Unprotected(s) && max <= Unprotected(s) && id == ScanFlows(s, |s|).victim && IndexOf(s, id) < |s|
  {
    ScanMeans(s, |s|);
    assert s[..|s|] == s;
    if ScanFlows(s, |s|).victim != 0 {
      var f := VictimIsLeastRecent(s, nextId);
    }
  }
}
