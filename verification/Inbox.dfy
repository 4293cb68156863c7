/** Received datagrams on their way to the endpoint: a queue with a byte budget, and the
    waker through which a receiver wakes a poller that found the queue empty. */
module Inbox {
  import opened Common

  const INBOX_LIMIT: nat := 16 * 1024 * 1024

  datatype Datagram = Datagram(peer: nat, data: seq<Byte>)

  function Total(q: seq<Datagram>): nat {
    if q == [] then 0 else Total(q[..|q| - 1]) + |q[|q| - 1].data|
  }

  lemma {:induction false} TotalSplit(q: seq<Datagram>, k: nat)
    requires k <= |q|
    ensures Total(q) == Total(q[..k]) + Total(q[k..])
    decreases |q|
  {
    if k < |q| {
      var n := |q| - 1;
      TotalSplit(q[..n], k);
      assert q[..n][..k] == q[..k] && q[k..][..n - k] == q[..n][k..];
    } else {
      assert q[..k] == q;
    }
  }

  // ----- The queue -----

  /** What lands in a buffer: as much of the datagram as fits. */
  function Fit(d: Datagram, room: nat): Datagram {
    d.(data := d.data[..Min(|d.data|, room)])
  }

  /** How many datagrams one poll hands over. */
  function Taken(queued: nat, buffers: nat, metas: nat): nat {
    Min(queued, Min(buffers, metas))
  }

  class Queue {
    var datagrams: seq<Datagram>
    var bytes: nat

    ghost predicate Valid()
      reads this
    {
      bytes == Total(datagrams) && bytes <= INBOX_LIMIT
    }

    constructor ()
      ensures Valid() && datagrams == []
    {
      datagrams, bytes := [], 0;
    }

    /** `on_recv` under the inbox lock: a datagram that would exceed the budget is dropped. */
    method Receive(d: Datagram) returns (accepted: bool)
      requires Valid()
      modifies this
      ensures Valid()
      ensures accepted <==> old(bytes) + |d.data| <= INBOX_LIMIT
      ensures datagrams == if accepted then old(datagrams) + [d] else old(datagrams)
    {
      if bytes + |d.data| > INBOX_LIMIT {
        return false;
      }
      bytes := bytes + |d.data|;
      datagrams := datagrams + [d];
      assert datagrams[..|datagrams| - 1] == old(datagrams);
      return true;
    }

    /** The loop of `poll_recv`: datagrams leave in order, one per buffer. */
    method Poll(buffers: seq<nat>, metas: nat) returns (filled: seq<Datagram>)
      requires Valid()
      modifies this
      ensures Valid()
      ensures |filled| == Taken(|old(datagrams)|, |buffers|, metas)
      ensures forall i :: 0 <= i < |filled| ==> filled[i] == Fit(old(datagrams)[i], buffers[i])
      ensures datagrams == old(datagrams)[|filled|..]
    {
      filled := [];
      ghost var all := datagrams;
      while |filled| < Min(|buffers|, metas) && datagrams != []
        invariant |filled| <= Taken(|all|, |buffers|, metas)
        invariant datagrams == all[|filled|..] && Valid()
        invariant forall i :: 0 <= i < |filled| ==> filled[i] == Fit(all[i], buffers[i])
      {
        var d := datagrams[0];
        TotalSplit(datagrams, 1);
        assert datagrams[..1] == [d] && Total([d]) == |d.data|;
        hide Total;
        datagrams := datagrams[1..];
        bytes := bytes - |d.data|;
        filled := filled + [Fit(d, buffers[|filled|])];
      }
    }
  }

  // ----- Receivers and the poller -----

  /** The poller between polls, holding the inbox lock with nothing found, or having returned
      Pending. */
  datatype Poller = Running | Registering | Parked

  /** `taking` receivers have queued a datagram and not yet looked for the waker; `woken`
      tells whether the poller was woken since its last poll began. */
  datatype State = State(
    queue: seq<Datagram>, bytes: int, waker: bool, poller: Poller, taking: nat, woken: bool,
    accepted: seq<Datagram>, delivered: seq<Datagram>)

  datatype Action =
    | Receive(datagram: Datagram)
    | TakeWaker
    | Poll(buffers: nat)
    | Register

  const INITIAL := State([], 0, false, Running, 0, false, [], [])

  /** One lock region; a step that is not enabled changes nothing. */
  function Next(s: State, a: Action): State {
    match a
    case Receive(d) =>
      if s.poller == Registering || s.bytes + |d.data| > INBOX_LIMIT then s
      else s.(queue := s.queue + [d], bytes := s.bytes + |d.data|, taking := s.taking + 1, accepted := s.accepted + [d])
    case TakeWaker =>
      if s.taking == 0 then s
      else s.(taking := s.taking - 1, waker := false, woken := s.woken || s.waker)
    case Poll(buffers) =>
      if s.poller == Registering then s
      else
        var k := Min(|s.queue|, buffers);
        if k == 0 then s.(poller := Registering, woken := false)
        else s.(queue := s.queue[k..], bytes := s.bytes - Total(s.queue[..k]), poller := Running, woken := false,
                delivered := s.delivered + s.queue[..k])
    case Register =>
      if s.poller != Registering then s
      else s.(waker := true, woken := s.woken || s.queue != [], poller := Parked)
  }

  function After(run: seq<Action>, n: nat): State
    requires n <= |run|
  {
    if n == 0 then INITIAL else Next(After(run, n - 1), run[n - 1])
  }

  predicate Inv(s: State) {
    && s.bytes == Total(s.queue) && s.bytes <= INBOX_LIMIT
    && s.accepted == s.delivered + s.queue
    && (s.poller == Parked && !s.woken ==> s.waker && (s.queue != [] ==> s.taking > 0))
  }

  lemma ReceiveKeeps(s: State, d: Datagram)
    requires Inv(s)
    ensures Inv(Next(s, Receive(d)))
  {
    var queue := s.queue + [d];
    assert queue[..|s.queue|] == s.queue && queue[|s.queue|] == d;
    assert Total(queue) == Total(s.queue) + |d.data|;
    hide Total;
    assert s.delivered + s.queue + [d] == s.delivered + queue;
  }

  lemma PollKeeps(s: State, buffers: nat)
    requires Inv(s)
    ensures Inv(Next(s, Poll(buffers)))
  {
    hide Total;
    var k := Min(|s.queue|, buffers);
    TotalSplit(s.queue, k);
    assert s.delivered + s.queue == s.delivered + s.queue[..k] + s.queue[k..] by {
      assert s.queue == s.queue[..k] + s.queue[k..];
    }
  }

  lemma StepKeeps(s: State, a: Action)
    requires Inv(s)
    ensures Inv(Next(s, a))
  {
    hide Total;
    match a
    case Receive(d) => ReceiveKeeps(s, d);
    case Poll(buffers) => PollKeeps(s, buffers);
    case _ =>
  }

  lemma {:induction false} RunKeeps(run: seq<Action>, n: nat)
    requires n <= |run|
    ensures Inv(After(run, n))
    decreases n
  {
    if n > 0 {
      RunKeeps(run, n - 1);
      StepKeeps(After(run, n - 1), run[n - 1]);
    }
  }

  /** No lost wake-up: whenever the poller has returned Pending and a datagram is queued, it
      was woken, or a receiver is about to take the registered waker, which wakes it. */
  lemma NoLostWakeup(run: seq<Action>, n: nat)
    requires n <= |run|
    requires After(run, n).poller == Parked && After(run, n).queue != []
    ensures var t := After(run, n);
            t.woken || (t.waker && t.taking > 0 && Next(t, TakeWaker).woken)
  {
    RunKeeps(run, n);
  }

  /** In every interleaving the byte counter is the total queued length, within the limit,
      and what was accepted is what was delivered followed by what is queued, in order. */
  lemma NothingLost(run: seq<Action>, n: nat)
    requires n <= |run|
    ensures var t := After(run, n);
            && t.bytes == Total(t.queue) <= INBOX_LIMIT
            && t.accepted == t.delivered + t.queue
  {
    RunKeeps(run, n);
  }
}
