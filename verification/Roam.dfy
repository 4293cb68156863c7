/** When a client moves to a fresh socket: the counters, the silence timer and the backoff
    of `PathWatch`, and the event loop that turns ticks, socket trouble and network changes
    into hops. Times and durations are in nanoseconds. */
module Roam {
  import opened Common

  const SECOND: nat := 1_000_000_000
  const MIN_SILENCE: nat := 3 * SECOND
  const SILENCE_RTTS: nat := 8
  const MAX_HOP_BACKOFF: nat := 30 * SECOND
  const MIN_HOP_INTERVAL: nat := SECOND

  /** `Instant::duration_since`, which is zero for a later instant. */
  function Since(now: nat, earlier: nat): nat {
    if now < earlier then 0 else now - earlier
  }

  /** How long sent frames may go unanswered, by the round-trip time. */
  function Silence(rtt: nat): (d: nat)
    ensures MIN_SILENCE <= d <= MAX_HOP_BACKOFF
  {
    Min(Max(rtt * SILENCE_RTTS, MIN_SILENCE), MAX_HOP_BACKOFF)
  }

  datatype Watch = Watch(acks: nat, sentAtLastAck: nat, unansweredSince: Option<nat>,
                         lastHop: Option<nat>, backoff: nat)

  const INITIAL := Watch(0, 0, None, None, 0)

  datatype Event =
    | Tick(now: nat, rtt: nat, acks: nat, sent: nat)
    | SocketTrouble(now: nat, rtt: nat)
    | NetworkChanged(now: nat, rtt: nat, preferred: Option<nat>, current: Option<nat>)

  datatype Reason = Unanswered | LostPath | NewSource

  datatype Hop = Hop(at: nat, reason: Reason)

  function Observed(w: Watch, now: nat, acks: nat, sent: nat): Watch {
    if acks != w.acks then w.(acks := acks, sentAtLastAck := sent, unansweredSince := None, backoff := 0)
    else if sent == w.sentAtLastAck || w.unansweredSince.Some? then w
    else w.(unansweredSince := Some(now))
  }

  predicate ShouldHop(w: Watch, now: nat, acks: nat, sent: nat, silence: nat) {
    && acks == w.acks
    && sent != w.sentAtLastAck
    && Since(now, if w.unansweredSince.Some? then w.unansweredSince.value else now) >= silence
    && (w.lastHop.Some? ==> Since(now, w.lastHop.value) >= w.backoff)
  }

  predicate MayHopNow(w: Watch, now: nat) {
    w.lastHop.Some? ==> Since(now, w.lastHop.value) >= MIN_HOP_INTERVAL
  }

  function Hopped(w: Watch, now: nat, silence: nat): Watch {
    w.(lastHop := Some(now), backoff := Min(Max(w.backoff * 2, silence), MAX_HOP_BACKOFF))
  }

  /** The reason to hop at this event, if any. */
  function Decide(w: Watch, e: Event): Option<Reason> {
    match e
    case SocketTrouble(now, _) => if MayHopNow(w, now) then Some(LostPath) else None
    case NetworkChanged(now, _, preferred, current) =>
      if preferred.None? || current == preferred || !MayHopNow(w, now) then None else Some(NewSource)
    case Tick(now, rtt, acks, sent) =>
      if ShouldHop(w, now, acks, sent, Silence(rtt)) then Some(Unanswered) else None
  }

  /** The watch after the event has been dealt with. */
  function React(w: Watch, e: Event): Watch {
    var seen := if e.Tick? then Observed(w, e.now, e.acks, e.sent) else w;
    if Decide(w, e).Some? then Hopped(seen, e.now, Silence(e.rtt)) else seen
  }

  // ----- Runs -----

  /** The watch after the first `n` events. */
  function After(w: Watch, events: seq<Event>, n: nat): Watch
    requires n <= |events|
  {
    if n == 0 then w else React(After(w, events, n - 1), events[n - 1])
  }

  /** The hops made by the first `n` events. */
  function Hops(w: Watch, events: seq<Event>, n: nat): seq<Hop>
    requires n <= |events|
  {
    if n == 0 then []
    else
      var reason := Decide(After(w, events, n - 1), events[n - 1]);
      Hops(w, events, n - 1) + if reason.Some? then [Hop(events[n - 1].now, reason.value)] else []
  }

  /** The clock never runs backwards. */
  predicate Monotone(events: seq<Event>) {
    forall i, j :: 0 <= i <= j < |events| ==> events[i].now <= events[j].now
  }

  class PathWatch {
    var acks: nat
    var sentAtLastAck: nat
    var unansweredSince: Option<nat>
    var lastHop: Option<nat>
    var backoff: nat

    function Value(): Watch
      reads this
    {
      Watch(acks, sentAtLastAck, unansweredSince, lastHop, backoff)
    }

    constructor ()
      ensures Value() == INITIAL
    {
      acks, sentAtLastAck, unansweredSince, lastHop, backoff := 0, 0, None, None, 0;
    }

    method Observe(now: nat, acks: nat, sent: nat, silence: nat) returns (hop: bool)
      modifies this
      ensures Value() == Observed(old(Value()), now, acks, sent)
      ensures hop <==> ShouldHop(old(Value()), now, acks, sent, silence)
    {
      if acks != this.acks {
        this.acks := acks;
        sentAtLastAck := sent;
        unansweredSince := None;
        backoff := 0;
        return false;
      }
      if sent == sentAtLastAck {
        return false;
      }
      if unansweredSince.None? {
        unansweredSince := Some(now);
      }
      return Since(now, unansweredSince.value) >= silence
             && (lastHop.None? || Since(now, lastHop.value) >= backoff);
    }

    method RecordHop(now: nat, silence: nat)
      modifies this`lastHop, this`backoff
      ensures Value() == Hopped(old(Value()), now, silence)
    {
      lastHop := Some(now);
      backoff := Min(Max(backoff * 2, silence), MAX_HOP_BACKOFF);
    }

    /** The body of the watch loop for one event. */
    method Handle(e: Event) returns (reason: Option<Reason>)
      modifies this
      ensures Value() == React(old(Value()), e)
      ensures reason == Decide(old(Value()), e)
    {
      var silence := Silence(e.rtt);
      reason := None;
      match e {
        case SocketTrouble(now, _) =>
          if !MayHopNow(Value(), now) {
            return;
          }
          reason := Some(LostPath);
        case NetworkChanged(now, _, preferred, current) =>
          if preferred.None? || current == preferred || !MayHopNow(Value(), now) {
            return;
          }
          reason := Some(NewSource);
        case Tick(now, _, acks, sent) =>
          var hop := Observe(now, acks, sent, silence);
          if !hop {
            return;
          }
          reason := Some(Unanswered);
      }
      RecordHop(e.now, silence);
    }

    /** The watch loop over a run of events. */
    method WatchPath(events: seq<Event>) returns (hops: seq<Hop>)
      modifies this
      ensures Value() == After(old(Value()), events, |events|)
      ensures hops == Hops(old(Value()), events, |events|)
    {
      hops := [];
      for i := 0 to |events|
        invariant Value() == After(old(Value()), events, i)
        invariant hops == Hops(old(Value()), events, i)
      {
        var reason := Handle(events[i]);
        if reason.Some? {
          hops := hops + [Hop(events[i].now, reason.value)];
        }
      }
    }
  }

  // ----- Hops are rate limited -----

  /** What every run keeps at time `now`, `last` being the last hop: the watch remembers
      that hop, the backoff is zero or within its bounds, and after an ACK reset it to zero
      the silence timer restarted. */
  predicate Sound(w: Watch, now: nat, last: Option<Hop>) {
    && (w.lastHop == if last.None? then None else Some(last.value.at))
    && w.backoff <= MAX_HOP_BACKOFF
    && (w.lastHop.Some? ==>
          && w.lastHop.value <= now
          && (|| w.backoff >= MIN_SILENCE
              || (w.backoff == 0 && (w.unansweredSince.Some? ==> w.lastHop.value <= w.unansweredSince.value))))
    && (w.unansweredSince.Some? ==> w.unansweredSince.value <= now)
  }

  /** The gap a hop keeps from the one before it. */
  predicate Spaced(before: Hop, hop: Hop) {
    before.at + (if hop.reason == Unanswered then MIN_SILENCE else MIN_HOP_INTERVAL) <= hop.at
  }

  predicate SpacedAt(hops: seq<Hop>, i: nat)
    requires i < |hops| - 1
  {
    Spaced(hops[i], hops[i + 1])
  }

  predicate AllSpaced(hops: seq<Hop>) {
    forall i :: 0 <= i < |hops| - 1 ==> SpacedAt(hops, i)
  }

  lemma SoundStep(w: Watch, now: nat, last: Option<Hop>, e: Event)
    requires Sound(w, now, last) && now <= e.now
    ensures var reason := Decide(w, e);
            var next := if reason.Some? then Some(Hop(e.now, reason.value)) else last;
            && Sound(React(w, e), e.now, next)
            && (reason.Some? && last.Some? ==> Spaced(last.value, next.value))
  {
  }

  function LastHop(hops: seq<Hop>): Option<Hop> {
    if hops == [] then None else Some(hops[|hops| - 1])
  }

  /** Over every run with a monotone clock, consecutive hops are at least one second apart,
      and a hop for unanswered packets comes at least three seconds after any earlier hop. */
  lemma {:induction false} HopsAreSpaced(events: seq<Event>, n: nat)
    requires Monotone(events) && n <= |events|
    ensures Sound(After(INITIAL, events, n), if n == 0 then 0 else events[n - 1].now, LastHop(Hops(INITIAL, events, n)))
    ensures AllSpaced(Hops(INITIAL, events, n))
    decreases n
  {
    if n > 0 {
      HopsAreSpaced(events, n - 1);
      var hops := Hops(INITIAL, events, n - 1);
      SoundStep(After(INITIAL, events, n - 1), if n == 1 then 0 else events[n - 2].now, LastHop(hops), events[n - 1]);
      forall i | 0 <= i < |Hops(INITIAL, events, n)| - 1 ensures SpacedAt(Hops(INITIAL, events, n), i) {
        assert i < |hops| - 1 ==> SpacedAt(hops, i);
      }
    }
  }

  lemma {:induction false} GapsAddUp(hops: seq<Hop>, i: nat, j: nat)
    requires AllSpaced(hops)
    requires i <= j < |hops|
    ensures hops[i].at + (j - i) * SECOND <= hops[j].at
    decreases j
  {
    if i < j {
      GapsAddUp(hops, i, j - 1);
      assert SpacedAt(hops, j - 1);
    }
  }

  /** The integers from `lo` on, `n` of them. */
  function Range(lo: int, n: nat): (r: set<int>)
    ensures |r| == n
    ensures forall i :: i in r <==> lo <= i < lo + n
  {
    if n == 0 then {} else Range(lo, n - 1) + {lo + n - 1}
  }

  lemma SubsetSize(a: set<int>, b: set<int>)
    requires a <= b
    ensures |a| <= |b|
  {
    assert b == a + (b - a);
  }

  /** The first hop at or after `from`. */
  function FirstFrom(hops: seq<Hop>, from: nat, i: nat): (r: nat)
    requires i <= |hops|
    ensures i <= r <= |hops| && (r < |hops| ==> from <= hops[r].at)
    ensures forall k :: i <= k < r ==> hops[k].at < from
    decreases |hops| - i
  {
    if i == |hops| || from <= hops[i].at then i else FirstFrom(hops, from, i + 1)
  }

  /** Any window of `length` nanoseconds holds at most one hop per second, and one more. */
  lemma HopsInWindow(events: seq<Event>, from: nat, length: nat)
    requires Monotone(events)
    ensures var hops := Hops(INITIAL, events, |events|);
            |set i | 0 <= i < |hops| && from <= hops[i].at <= from + length| <= length / SECOND + 1
  {
    hide Hops;
    var hops := Hops(INITIAL, events, |events|);
    var inside := set i | 0 <= i < |hops| && from <= hops[i].at <= from + length;
    HopsAreSpaced(events, |events|);
    var first := FirstFrom(hops, from, 0);
    forall i | i in inside ensures i in Range(first, length / SECOND + 1) {
      GapsAddUp(hops, first, i);
      assert (i - first) * SECOND <= length;
    }
    SubsetSize(inside, Range(first, length / SECOND + 1));
  }

  // ----- Hops for unanswered packets are sound -----

  /** The ACK count shown by the last tick among the first `n` events. */
  function AcksSeen(events: seq<Event>, n: nat): nat
    requires n <= |events|
  {
    if n == 0 then 0
    else if events[n - 1].Tick? then events[n - 1].acks
    else AcksSeen(events, n - 1)
  }

  /** The tick at `i` showed a new ACK. */
  predicate NewAck(events: seq<Event>, i: nat)
    requires i < |events|
  {
    events[i].Tick? && events[i].acks != AcksSeen(events, i)
  }

  /** The frames sent as of the last tick, among the first `n` events, that showed a new ACK. */
  function SentWhenAcked(events: seq<Event>, n: nat): nat
    requires n <= |events|
  {
    if n == 0 then 0
    else if NewAck(events, n - 1) then events[n - 1].sent
    else SentWhenAcked(events, n - 1)
  }

  /** The tick at `i` showed frames that no ACK had answered, and none did before event `n`. */
  predicate StillUnanswered(events: seq<Event>, i: nat, n: nat) {
    && i < n <= |events| && events[i].Tick?
    && events[i].sent != SentWhenAcked(events, i)
    && forall j :: i <= j < n ==> !NewAck(events, j)
  }

  /** The counters and the silence timer, in terms of the run: the timer shows a tick whose
      frames are still unanswered, and is no later than any such tick. */
  ghost predicate TimerSound(w: Watch, events: seq<Event>, n: nat)
    requires n <= |events|
  {
    && w.acks == AcksSeen(events, n)
    && w.sentAtLastAck == SentWhenAcked(events, n)
    && (w.unansweredSince.Some? ==>
          exists i: nat :: StillUnanswered(events, i, n) && events[i].now == w.unansweredSince.value)
    && (forall i: nat :: StillUnanswered(events, i, n) ==>
                           w.unansweredSince.Some? && w.unansweredSince.value <= events[i].now)
  }

  lemma {:induction false} TimerIsSound(events: seq<Event>, n: nat)
    requires Monotone(events) && n <= |events|
    ensures TimerSound(After(INITIAL, events, n), events, n)
    decreases n
  {
    if n > 0 {
      TimerIsSound(events, n - 1);
      TimerStep(events, n - 1, After(INITIAL, events, n - 1));
    }
  }

  lemma CountersStep(events: seq<Event>, n: nat, w: Watch)
    requires n < |events| && w.acks == AcksSeen(events, n) && w.sentAtLastAck == SentWhenAcked(events, n)
    ensures var w' := React(w, events[n]);
            && w'.acks == AcksSeen(events, n + 1)
            && w'.sentAtLastAck == SentWhenAcked(events, n + 1)
            && w'.unansweredSince ==
               if NewAck(events, n) then None
               else if w.unansweredSince.Some? || !events[n].Tick? || events[n].sent == SentWhenAcked(events, n)
               then w.unansweredSince else Some(events[n].now)
  {
  }

  /** A tick that is still unanswered one event later is not before the timer. */
  lemma TimerCovers(events: seq<Event>, n: nat, w: Watch, i: nat)
    requires Monotone(events) && n < |events| && TimerSound(w, events, n) && StillUnanswered(events, i, n + 1)
    ensures var w' := React(w, events[n]);
            w'.unansweredSince.Some? && w'.unansweredSince.value <= events[i].now
  {
    CountersStep(events, n, w);
    hide React, AcksSeen, SentWhenAcked, NewAck;
    assert !NewAck(events, n);
    if i < n {
      assert StillUnanswered(events, i, n);
    } else if w.unansweredSince.Some? {
      var k: nat :| StillUnanswered(events, k, n) && events[k].now == w.unansweredSince.value;
    }
  }

  /** A running timer shows a tick that is still unanswered. */
  lemma TimerShows(events: seq<Event>, n: nat, w: Watch) returns (i: nat)
    requires n < |events| && TimerSound(w, events, n) && React(w, events[n]).unansweredSince.Some?
    ensures StillUnanswered(events, i, n + 1) && events[i].now == React(w, events[n]).unansweredSince.value
  {
    CountersStep(events, n, w);
    hide React, AcksSeen, SentWhenAcked, NewAck;
    if w.unansweredSince.Some? {
      i :| StillUnanswered(events, i, n) && events[i].now == w.unansweredSince.value;
    } else {
      i := n;
    }
  }

  lemma TimerStep(events: seq<Event>, n: nat, w: Watch)
    requires Monotone(events) && n < |events| && TimerSound(w, events, n)
    ensures TimerSound(React(w, events[n]), events, n + 1)
  {
    CountersStep(events, n, w);
    hide React, AcksSeen, SentWhenAcked, NewAck, StillUnanswered, Monotone;
    forall i: nat | StillUnanswered(events, i, n + 1)
      ensures React(w, events[n]).unansweredSince.Some?
      ensures React(w, events[n]).unansweredSince.value <= events[i].now
    {
      TimerCovers(events, n, w, i);
    }
    if React(w, events[n]).unansweredSince.Some? {
      var i := TimerShows(events, n, w);
    }
  }

  /** A hop for unanswered packets is sound: some tick at least `silence` earlier already
      showed unanswered frames, and no new ACK was seen from that tick on. */
  lemma UnansweredHopIsSound(events: seq<Event>, n: nat) returns (i: nat)
    requires Monotone(events) && n < |events|
    requires Decide(After(INITIAL, events, n), events[n]) == Some(Unanswered)
    ensures StillUnanswered(events, i, n + 1)
    ensures i < n && events[i].now + Silence(events[n].rtt) <= events[n].now
  {
    TimerIsSound(events, n);
    var w := After(INITIAL, events, n);
    i :| StillUnanswered(events, i, n) && events[i].now == w.unansweredSince.value;
  }

  /** Bounded liveness: a tick that still shows unanswered frames thirty seconds after some
      tick did, with no ACK between and no hop in the last thirty seconds, hops. */
  lemma LongSilenceHops(events: seq<Event>, n: nat, i: nat)
    requires Monotone(events) && n < |events| && events[n].Tick?
    requires StillUnanswered(events, i, n + 1) && events[i].now + MAX_HOP_BACKOFF <= events[n].now
    requires events[n].sent != SentWhenAcked(events, n)
    requires var last := LastHop(Hops(INITIAL, events, n));
             last.Some? ==> last.value.at + MAX_HOP_BACKOFF <= events[n].now
    ensures Decide(After(INITIAL, events, n), events[n]) == Some(Unanswered)
  {
    hide Hops;
    assert i < n ==> StillUnanswered(events, i, n);
    assert !NewAck(events, n);
    TimerIsSound(events, n);
    HopsAreSpaced(events, n);
  }

  /** Ticks hop exactly if they show frames that no ACK has answered, some tick at least
      `silence` earlier did so with no new ACK since, and the last hop is a backoff ago. */
  lemma SilenceHopsExactly(events: seq<Event>, n: nat)
    requires Monotone(events) && n < |events|
    ensures var w, e, last := After(INITIAL, events, n), events[n], LastHop(Hops(INITIAL, events, n));
            Decide(w, e) == Some(Unanswered) <==>
            && e.Tick? && !NewAck(events, n) && e.sent != SentWhenAcked(events, n)
            && (exists i: nat :: StillUnanswered(events, i, n) && events[i].now + Silence(e.rtt) <= e.now)
            && (last.Some? ==> last.value.at + w.backoff <= e.now)
  {
    hide Hops, After;
    TimerIsSound(events, n);
    HopsAreSpaced(events, n);
  }

  /** Hops asked for by the socket or the network happen exactly when no hop was made in the
      last second, and for the network only if it offers a source other than the current one. */
  lemma RequestedHopsExactly(events: seq<Event>, n: nat)
    requires Monotone(events) && n < |events| && !events[n].Tick?
    ensures var e, last := events[n], LastHop(Hops(INITIAL, events, n));
            var rested := last.None? || last.value.at + SECOND <= e.now;
            Decide(After(INITIAL, events, n), e) ==
            if !rested then None
            else if e.SocketTrouble? then Some(LostPath)
            else if e.preferred.Some? && e.preferred != e.current then Some(NewSource)
            else None
  {
    hide Hops, After;
    HopsAreSpaced(events, n);
  }

  // ----- Backoff during an outage -----

  function Pow2(k: nat): (p: nat)
    ensures p >= 1
  {
    if k == 0 then 1 else 2 * Pow2(k - 1)
  }

  /** No tick shows a new ACK, and the round-trip time stays put. */
  predicate Outage(w: Watch, events: seq<Event>, silence: nat) {
    forall i :: 0 <= i < |events| ==>
                  Silence(events[i].rtt) == silence && (events[i].Tick? ==> events[i].acks == w.acks)
  }

  lemma PowStep(s: nat, k: nat)
    ensures s * Pow2(k + 1) == 2 * (s * Pow2(k)) && s * Pow2(k) >= s
  {
    assert s * Pow2(k + 1) == s * (2 * Pow2(k)) == 2 * (s * Pow2(k));
  }

  /** While nothing is acknowledged, after `k` hops the backoff is the silence doubled
      `k - 1` times, up to thirty seconds. */
  lemma {:induction false} BackoffDoubles(w: Watch, events: seq<Event>, silence: nat, n: nat)
    requires w.backoff == 0 && Outage(w, events, silence) && n <= |events|
    ensures After(w, events, n).acks == w.acks
    ensures var k := |Hops(w, events, n)|;
            After(w, events, n).backoff == if k == 0 then 0 else Min(silence * Pow2(k - 1), MAX_HOP_BACKOFF)
    decreases n
  {
    if n > 0 {
      BackoffDoubles(w, events, silence, n - 1);
      assert Silence(events[n - 1].rtt) == silence;
      var k := |Hops(w, events, n - 1)|;
      if k > 0 {
        PowStep(silence, k - 1);
      } else {
        assert silence * Pow2(0) == silence;
      }
    }
  }
}
