/** Connecting to the first address that answers: the order addresses are tried in, and the
    loop that staggers the attempts (section 4 of RFC 6555). Times are in milliseconds. */
module HappyEyeballs {
  import opened Common

  const DELAY: nat := 250

  datatype Addr = Addr(ipv6: bool, id: nat)

  // ----- The order -----

  /** The addresses of one family, in their order. */
  function Family(addrs: seq<Addr>, ipv6: bool): (r: seq<Addr>)
    ensures forall a :: a in r ==> a.ipv6 == ipv6
  {
    if addrs == [] then []
    else (if addrs[0].ipv6 == ipv6 then [addrs[0]] else []) + Family(addrs[1..], ipv6)
  }

  /** One from each list in turn, the first list first, then what is left of the longer one. */
  function Alternate(a: seq<Addr>, b: seq<Addr>): (r: seq<Addr>)
    ensures |r| == |a| + |b|
    decreases |a|
  {
    if a == [] then b else if b == [] then a else [a[0], b[0]] + Alternate(a[1..], b[1..])
  }

  /** Takes one address of each family per round until both queues are empty. */
  method HappyEyeballsOrder(addrs: seq<Addr>) returns (ordered: seq<Addr>)
    ensures ordered == Alternate(Family(addrs, true), Family(addrs, false))
  {
    if addrs == [] {
      return addrs;
    }
    var preferred, fallback := Family(addrs, true), Family(addrs, false);
    ghost var all := Alternate(preferred, fallback);
    ordered := [];
    while preferred != [] || fallback != []
      invariant ordered + Alternate(preferred, fallback) == all
      decreases |preferred| + |fallback|
    {
      AlternateRound(ordered, preferred, fallback);
      hide Alternate;
      if preferred != [] {
        ordered := ordered + [preferred[0]];
        preferred := preferred[1..];
      }
      if fallback != [] {
        ordered := ordered + [fallback[0]];
        fallback := fallback[1..];
      }
    }
  }

  lemma AlternateRound(before: seq<Addr>, a: seq<Addr>, b: seq<Addr>)
    ensures a != [] && b != [] ==>
              before + Alternate(a, b) == before + [a[0]] + [b[0]] + Alternate(a[1..], b[1..])
    ensures a != [] && b == [] ==> before + Alternate(a, b) == before + [a[0]] + Alternate(a[1..], b)
    ensures a == [] && b != [] ==> before + Alternate(a, b) == before + [b[0]] + Alternate(a, b[1..])
  {
    if a != [] && b != [] {
      var rest := Alternate(a[1..], b[1..]);
      assert Alternate(a, b) == [a[0], b[0]] + rest;
      hide Alternate;
      InFrontOfTwo(before, a[0], b[0], rest);
    } else if a != [] {
      assert Alternate(a, b) == a && Alternate(a[1..], b) == a[1..];
      hide Alternate;
      InFront(before, a);
    } else if b != [] {
      assert Alternate(a, b) == b && Alternate(a, b[1..]) == b[1..];
      hide Alternate;
      InFront(before, b);
    }
  }

  lemma InFront(before: seq<Addr>, a: seq<Addr>)
    requires a != []
    ensures before + a == before + [a[0]] + a[1..]
  {
  }

  lemma InFrontOfTwo(before: seq<Addr>, x: Addr, y: Addr, rest: seq<Addr>)
    ensures before + ([x, y] + rest) == before + [x] + [y] + rest
  {
  }

  lemma {:induction false} FamilyOfOne(a: seq<Addr>, ipv6: bool)
    requires forall x :: x in a ==> x.ipv6 == ipv6
    ensures Family(a, ipv6) == a && Family(a, !ipv6) == []
    decreases |a|
  {
    if a != [] {
      FamilyOfOne(a[1..], ipv6);
    }
  }

  /** Each family keeps its own order. */
  lemma {:induction false} AlternateKeepsOrder(a: seq<Addr>, b: seq<Addr>)
    requires (forall x :: x in a ==> x.ipv6) && (forall x :: x in b ==> !x.ipv6)
    ensures Family(Alternate(a, b), true) == a && Family(Alternate(a, b), false) == b
    decreases |a|
  {
    if a == [] {
      FamilyOfOne(b, false);
    } else if b == [] {
      FamilyOfOne(a, true);
    } else {
      AlternateKeepsOrder(a[1..], b[1..]);
      FamilyOfPair(a[0], b[0], Alternate(a[1..], b[1..]));
    }
  }

  lemma FamilyOfPair(x: Addr, y: Addr, rest: seq<Addr>)
    requires x.ipv6 && !y.ipv6
    ensures Family([x, y] + rest, true) == [x] + Family(rest, true)
    ensures Family([x, y] + rest, false) == [y] + Family(rest, false)
  {
    assert ([x, y] + rest)[1..] == [y] + rest && ([y] + rest)[1..] == rest;
  }

  lemma {:induction false} AlternateAt(a: seq<Addr>, b: seq<Addr>, i: nat)
    requires i < |a| && i < |b|
    ensures Alternate(a, b)[2 * i] == a[i] && Alternate(a, b)[2 * i + 1] == b[i]
    decreases i
  {
    if i > 0 {
      AlternateAt(a[1..], b[1..], i - 1);
    }
  }

  function Order(addrs: seq<Addr>): seq<Addr> {
    Alternate(Family(addrs, true), Family(addrs, false))
  }

  lemma {:induction false} FamiliesAreAll(addrs: seq<Addr>)
    ensures |Family(addrs, true)| + |Family(addrs, false)| == |addrs|
    decreases |addrs|
  {
    if addrs != [] {
      FamiliesAreAll(addrs[1..]);
    }
  }

  /** The order is an interleaving of the two families that keeps the order within each, has
      nothing more or less, and alternates, IPv6 first, while both have addresses left. */
  lemma OrderInterleaves(addrs: seq<Addr>)
    ensures forall ipv6 :: Family(Order(addrs), ipv6) == Family(addrs, ipv6)
    ensures |Order(addrs)| == |addrs|
    ensures forall i: nat :: i < |Family(addrs, true)| && i < |Family(addrs, false)| ==>
              Order(addrs)[2 * i] == Family(addrs, true)[i] && Order(addrs)[2 * i + 1] == Family(addrs, false)[i]
  {
    FamiliesAreAll(addrs);
    AlternateKeepsOrder(Family(addrs, true), Family(addrs, false));
    forall i: nat | i < |Family(addrs, true)| && i < |Family(addrs, false)|
      ensures Order(addrs)[2 * i] == Family(addrs, true)[i] && Order(addrs)[2 * i + 1] == Family(addrs, false)[i]
    {
      AlternateAt(Family(addrs, true), Family(addrs, false), i);
    }
  }

  // ----- The connect loop -----

  /** An attempt: its address, when it started, and whether no other was under way. */
  datatype Start = Start(addr: Addr, at: nat, alone: bool)

  datatype Outcome = Running | Connected(attempt: nat) | Failed(error: Option<nat>)

  /** Attempts are numbered in the order they start; `inFlight` and `failed` are such numbers. */
  datatype State = State(
    pending: seq<Addr>, starts: seq<Start>, inFlight: set<nat>, failed: set<nat>,
    deadline: Option<nat>, lastError: Option<nat>, outcome: Outcome)

  /** What a turn of the loop meets: the end of an attempt, or the deadline. */
  datatype Event = Ended(now: nat, attempt: nat, ok: bool) | Elapsed(now: nat)

  function Spawn(s: State, now: nat): State
    requires s.pending != []
  {
    var pending := s.pending[1..];
    s.(pending := pending,
       starts := s.starts + [Start(s.pending[0], now, s.inFlight == {})],
       inFlight := s.inFlight + {|s.starts|},
       deadline := if pending != [] then Some(now + DELAY) else None)
  }

  /** Before the loop: the first attempt. */
  function Begin(order: seq<Addr>, now: nat): State
    requires order != []
  {
    Spawn(State(order, [], {}, {}, None, None, Running), now)
  }

  function Turn(s: State, e: Event): State {
    if s.outcome != Running then s
    else if s.inFlight == {} && s.pending == [] then s.(outcome := Failed(s.lastError))
    else if s.inFlight == {} then Spawn(s, e.now)
    else
      match e
      case Ended(now, i, ok) =>
        if i !in s.inFlight then s
        else if ok then s.(outcome := Connected(i))
        else s.(inFlight := s.inFlight - {i}, failed := s.failed + {i}, lastError := Some(i))
      case Elapsed(now) =>
        if s.deadline.None? || now < s.deadline.value then s
        else if s.pending != [] then Spawn(s, now)
        else s.(deadline := None)
  }

  function After(order: seq<Addr>, start: nat, run: seq<Event>, n: nat): State
    requires order != [] && n <= |run|
  {
    if n == 0 then Begin(order, start) else Turn(After(order, start, run, n - 1), run[n - 1])
  }

  class Connector {
    var pending: seq<Addr>
    var starts: seq<Start>
    var inFlight: set<nat>
    var failed: set<nat>
    var deadline: Option<nat>
    var lastError: Option<nat>
    var outcome: Outcome

    ghost function Value(): State
      reads this
    {
      State(pending, starts, inFlight, failed, deadline, lastError, outcome)
    }

    constructor (order: seq<Addr>, now: nat)
      requires order != []
      ensures Value() == Begin(order, now)
    {
      pending, starts, inFlight, failed := order, [], {}, {};
      deadline, lastError, outcome := None, None, Running;
      new;
      SpawnNext(now);
    }

    method SpawnNext(now: nat)
      requires pending != []
      modifies this
      ensures Value() == Spawn(old(Value()), now)
    {
      starts := starts + [Start(pending[0], now, inFlight == {})];
      inFlight := inFlight + {|starts| - 1};
      pending := pending[1..];
      deadline := if pending != [] then Some(now + DELAY) else None;
    }

    /** One turn of the loop. */
    method Advance(e: Event)
      requires outcome == Running
      modifies this
      ensures Value() == Turn(old(Value()), e)
    {
      if inFlight == {} && pending == [] {
        outcome := Failed(lastError);
        return;
      }
      if inFlight == {} {
        SpawnNext(e.now);
        return;
      }
      match e {
        case Ended(now, i, ok) =>
          if i in inFlight {
            if ok {
              outcome := Connected(i);
            } else {
              inFlight := inFlight - {i};
              failed := failed + {i};
              lastError := Some(i);
            }
          }
        case Elapsed(now) =>
          if deadline.Some? && deadline.value <= now {
            if pending != [] {
              SpawnNext(now);
            } else {
              deadline := None;
            }
          }
      }
    }
  }

  // ----- What every run keeps -----

  /** The addresses of the attempts made so far. */
  function Tried(starts: seq<Start>): (r: seq<Addr>)
    ensures |r| == |starts| && forall i :: 0 <= i < |r| ==> r[i] == starts[i].addr
  {
    seq(|starts|, i requires 0 <= i < |starts| => starts[i].addr)
  }

  /** An attempt starts a quarter second after the one before it, or when no other is under way. */
  ghost predicate Staggered(starts: seq<Start>) {
    forall i, j :: 0 <= i < j < |starts| && j == i + 1 ==> starts[j].alone || starts[i].at + DELAY <= starts[j].at
  }

  ghost predicate Inv(s: State, order: seq<Addr>) {
    && Tried(s.starts) + s.pending == order
    && s.inFlight !! s.failed
    && (forall i :: i in s.inFlight + s.failed <==> 0 <= i < |s.starts|)
    && (s.outcome == Running ==> (s.deadline.Some? <==> s.pending != []))
    && (s.starts != [])
    && (s.deadline.Some? ==> s.deadline.value == s.starts[|s.starts| - 1].at + DELAY)
    && Staggered(s.starts)
    && (s.lastError.Some? <==> s.failed != {}) && (s.lastError.Some? ==> s.lastError.value in s.failed)
    && (s.outcome.Connected? ==> s.outcome.attempt in s.inFlight)
    && (s.outcome.Failed? ==> s.pending == [] && s.inFlight == {} && s.outcome.error == s.lastError)
  }

  lemma SpawnKeeps(s: State, order: seq<Addr>, now: nat)
    requires Inv(s, order) && s.pending != [] && s.outcome == Running
    requires s.inFlight == {} || s.deadline.value <= now
    ensures Inv(Spawn(s, now), order)
  {
    var s' := Spawn(s, now);
    assert Tried(s'.starts) == Tried(s.starts) + [s.pending[0]];
    assert s.pending == [s.pending[0]] + s.pending[1..];
  }

  lemma TurnKeeps(s: State, order: seq<Addr>, e: Event)
    requires Inv(s, order)
    ensures Inv(Turn(s, e), order)
  {
    if s.outcome == Running && s.pending != []
       && (s.inFlight == {} || (e.Elapsed? && s.deadline.value <= e.now)) {
      SpawnKeeps(s, order, e.now);
    }
  }

  lemma {:induction false} RunKeeps(order: seq<Addr>, start: nat, run: seq<Event>, n: nat)
    requires order != [] && n <= |run|
    ensures Inv(After(order, start, run, n), order)
    decreases n
  {
    if n == 0 {
      var s := Begin(order, start);
      assert Tried(s.starts) == [order[0]] && order == [order[0]] + order[1..];
    } else {
      RunKeeps(order, start, run, n - 1);
      TurnKeeps(After(order, start, run, n - 1), order, run[n - 1]);
    }
  }

  /** In every run attempts start in the given order, each address at most once, staggered;
      and a deadline is set exactly while addresses are left. */
  lemma AttemptsInOrder(order: seq<Addr>, start: nat, run: seq<Event>, n: nat)
    requires order != [] && n <= |run|
    ensures var s := After(order, start, run, n);
            && Tried(s.starts) <= order && Tried(s.starts) + s.pending == order
            && Staggered(s.starts)
            && (s.outcome == Running ==> (s.deadline.Some? <==> s.pending != []))
  {
    RunKeeps(order, start, run, n);
  }

  /** An error is returned only after every address was tried and every attempt failed, and it
      is the error of an attempt; a connection is one that was under way. */
  lemma FailsOnlyAfterAll(order: seq<Addr>, start: nat, run: seq<Event>, n: nat)
    requires order != [] && n <= |run|
    ensures var s := After(order, start, run, n);
            && (s.outcome.Failed? ==>
                  && Tried(s.starts) == order
                  && (forall i :: 0 <= i < |order| ==> i in s.failed)
                  && s.outcome.error.Some? && s.outcome.error.value in s.failed)
            && (s.outcome.Connected? ==> s.outcome.attempt < |s.starts| && s.outcome.attempt !in s.failed)
  {
    RunKeeps(order, start, run, n);
    var s := After(order, start, run, n);
    if s.outcome.Failed? {
      assert Tried(s.starts) + [] == Tried(s.starts);
      assert 0 in s.inFlight + s.failed;
    }
  }

  /** While addresses are left, the next one is tried as soon as the loop looks after a quarter
      second since the last start, or after all attempts so far have failed. */
  lemma NextAttemptStarts(order: seq<Addr>, start: nat, run: seq<Event>, n: nat)
    requires order != [] && n < |run|
    requires var s := After(order, start, run, n);
             && s.outcome == Running && s.pending != []
             && ((forall i :: 0 <= i < |s.starts| ==> i in s.failed)
                 || (run[n].Elapsed? && s.starts != [] && s.starts[|s.starts| - 1].at + DELAY <= run[n].now))
    ensures var s, s' := After(order, start, run, n), After(order, start, run, n + 1);
            && Tried(s'.starts) == Tried(s.starts) + [s.pending[0]]
            && s'.starts[|s.starts|].at == run[n].now && |s.starts| in s'.inFlight
  {
    RunKeeps(order, start, run, n);
    var s := After(order, start, run, n);
    if forall i :: 0 <= i < |s.starts| ==> i in s.failed {
      assert forall i :: i in s.inFlight ==> i in s.inFlight + s.failed;
      assert s.inFlight == {};
    }
  }

  /** Twice the waiting addresses plus the attempts under way, and one until it is decided. */
  function Measure(s: State): nat {
    2 * |s.pending| + |s.inFlight| + if s.outcome == Running then 1 else 0
  }

  /** Every turn that does anything brings the loop closer to its end. */
  lemma TurnsMakeProgress(order: seq<Addr>, start: nat, run: seq<Event>, n: nat)
    requires order != [] && n < |run|
    ensures var s, s' := After(order, start, run, n), After(order, start, run, n + 1);
            s' != s ==> Measure(s') < Measure(s)
  {
    RunKeeps(order, start, run, n);
    hide Inv, Turn, Measure;
    TurnProgress(After(order, start, run, n), order, run[n]);
  }

  lemma TurnProgress(s: State, order: seq<Addr>, e: Event)
    requires Inv(s, order)
    ensures Turn(s, e) != s ==> Measure(Turn(s, e)) < Measure(s)
  {
    hide Tried, Staggered;
    assert |s.starts| !in s.inFlight + s.failed;
    if s.pending != [] {
      var s' := Spawn(s, e.now);
      assert |s'.pending| == |s.pending| - 1 && |s'.inFlight| <= |s.inFlight| + 1;
    }
    if e.Ended? && e.attempt in s.inFlight {
      assert |s.inFlight - {e.attempt}| == |s.inFlight| - 1;
    }
  }
}
