/** The listener's flow table as the shim keeps it: an array that grows by doubling, scanned
    and changed in place under the handle's lock. */
module NwUdp {
  import opened Common
  import opened FlowTable

  const MAX_UNPROTECTED_FLOWS: nat := 128

  class Handle {
    var flows: array<Flow>
    var nflows: nat
    var maxUnprotected: nat
    var nextId: nat

    ghost predicate Fits()
      reads this
    {
      nflows <= flows.Length
    }

    ghost function Table(): seq<Flow>
      requires Fits()
      reads this, flows
    {
      flows[..nflows]
    }

    constructor ()
      ensures Fits() && Table() == [] && nextId == 0 && maxUnprotected == MAX_UNPROTECTED_FLOWS && fresh(flows)
    {
      flows := new Flow[0];
      nflows, nextId, maxUnprotected := 0, 0, MAX_UNPROTECTED_FLOWS;
    }

    method FindFlow(id: nat) returns (i: nat)
      requires Fits()
      ensures i == IndexOf(Table(), id)
    {
      for k := 0 to nflows
        invariant forall j :: 0 <= j < k ==> flows[j].id != id
      {
        if flows[k].id == id {
          return k;
        }
      }
      return nflows;
    }

    /** Swap-removal of the flow with this id, if it is there. */
    method TakeFlow(id: nat) returns (taken: Option<Flow>)
      requires Fits()
      modifies this`nflows, flows
      ensures Fits() && Table() == Take(old(Table()), id)
      ensures taken.Some? <==> Has(old(Table()), id)
      ensures taken.Some? ==> taken.value in old(Table()) && taken.value.id == id
    {
      var i := FindFlow(id);
      if i == nflows {
        return None;
      }
      taken := Some(flows[i]);
      nflows := nflows - 1;
      flows[i] := flows[nflows];
      assert Table() == SwapRemove(old(Table()), i);
    }

    /** Appends a flow with a new id, growing the array when it is full; without memory for
        the flow or the larger array nothing is added. */
    method AddFlow(remote: Option<Peer>, now: nat, flowFits: bool, arrayGrows: bool) returns (added: Option<Flow>)
      requires Fits()
      modifies this, flows
      ensures Fits() && (flows == old(flows) || fresh(flows)) && maxUnprotected == old(maxUnprotected)
      ensures old(nextId) <= nextId <= old(nextId) + 1
      ensures added.None? ==> Table() == old(Table())
      ensures added.Some? ==> added.value == Flow(nextId, remote, false, false, now) && nextId == old(nextId) + 1
      ensures added.Some? ==> Table() == old(Table()) + [added.value]
      ensures flowFits && arrayGrows ==> added.Some?
    {
      if !flowFits {
        return None;
      }
      nextId := nextId + 1;
      if nflows == flows.Length {
        if !arrayGrows {
          return None;
        }
        var cap := if flows.Length != 0 then flows.Length * 2 else 8;
        var larger := new Flow[cap];
        forall i | 0 <= i < nflows {
          larger[i] := flows[i];
        }
        flows := larger;
      }
      var f := Flow(nextId, remote, false, false, now);
      flows[nflows] := f;
      nflows := nflows + 1;
      return Some(f);
    }

    /** The scan both eviction loops make. */
    method ScanTable() returns (unprotected: nat, oldest: nat, victim: nat)
      requires Fits()
      ensures Scan(unprotected, oldest, victim) == ScanFlows(Table(), |Table()|)
    {
      victim, oldest, unprotected := 0, U64_MAX, 0;
      ghost var s := Table();
      for i := 0 to nflows
        invariant Scan(unprotected, oldest, victim) == ScanFlows(s, i)
      {
        var f := flows[i];
        if f.guarded {
          continue;
        }
        unprotected := unprotected + 1;
        if f.lastActivity < oldest {
          oldest := f.lastActivity;
          victim := f.id;
        }
      }
    }

    /** The reaper, reading the clock before each round; the ids it closed, in order. */
    method ReapFlows(clock: nat -> nat) returns (closed: seq<nat>)
      requires Fits() && Sound(Table(), nextId)
      modifies this`nflows, flows
      ensures Fits() && (Table(), closed) == Reap(old(Table()), maxUnprotected, clock, 0)
      ensures Sound(Table(), nextId) && Unprotected(Table()) <= maxUnprotected
      ensures forall f :: f in old(Table()) && f.guarded ==> f in Table()
      ensures TookLeastRecent(old(Table()), closed)
    {
      closed := [];
      ghost var all := Reap(Table(), maxUnprotected, clock, 0);
      while true
        invariant Fits() && flows == old(flows) && Sound(Table(), nextId)
        invariant ReapingOn(all, Table(), maxUnprotected, clock, closed)
        decreases nflows
      {
        hide ReapingOn, LooksIdle, Sound, Unprotected, ScanFlows, Take;
        IdZeroAbsent(Table(), nextId);
        ghost var was := Table();
        RoundOfReap(all, was, maxUnprotected, clock, closed);
        var now := clock(|closed|);
        var unprotected, oldest, victim := ScanTable();
        var overLimit := unprotected > maxUnprotected;
        var idle := victim != 0 && LooksIdle(now, oldest);
        var f: Option<Flow> := None;
        if overLimit || idle {
          f := TakeFlow(victim);
        }
        if f.None? {
          break;
        }
        TakeKeeps(was, victim, nextId);
        closed := closed + [victim];
      }
      hide Reap, Sound, Unprotected, TookLeastRecent;
      ReapMeans(old(Table()), nextId, maxUnprotected, clock, 0);
    }

    /** Makes room for one more unprotected flow; the ids it closed, in order. */
    method ReserveUnprotectedFlow() returns (ok: bool, closed: seq<nat>)
      requires Fits() && Sound(Table(), nextId)
      modifies this`nflows, flows
      ensures Fits() && (Table(), ok, closed) == Reserve(old(Table()), maxUnprotected)
      ensures Sound(Table(), nextId)
      ensures (ok <==> maxUnprotected > 0) && (ok ==> Unprotected(Table()) < maxUnprotected)
      ensures Unprotected(Table()) <= old(Unprotected(Table()))
      ensures forall f :: f in old(Table()) && f.guarded ==> f in Table()
      ensures TookLeastRecent(old(Table()), closed)
    {
      closed := [];
      ghost var all := Reserve(Table(), maxUnprotected);
      while true
        invariant Fits() && flows == old(flows) && Sound(Table(), nextId)
        invariant ReservingOn(all, Table(), maxUnprotected, closed)
        decreases nflows
      {
        hide ReservingOn, Sound, Unprotected, ScanFlows, Take;
        ghost var was := Table();
        RoundOfReserve(all, was, maxUnprotected, closed);
        var unprotected, oldest, victim := ScanTable();
        if unprotected < maxUnprotected {
          ok := true;
          break;
        }
        var f: Option<Flow> := None;
        if victim != 0 {
          f := TakeFlow(victim);
        }
        if f.None? {
          ok := false;
          break;
        }
        TakeKeeps(was, victim, nextId);
        closed := closed + [victim];
      }
      hide Reserve, Sound, Unprotected, TookLeastRecent;
      ReserveMeans(old(Table()), nextId, maxUnprotected);
    }

    /** The new-connection handler: room first, then the flow. The limit holds throughout. */
    method Accept(remote: Option<Peer>, now: nat, flowFits: bool, arrayGrows: bool)
      returns (added: Option<Flow>, closed: seq<nat>)
      requires Fits() && Sound(Table(), nextId) && Unprotected(Table()) <= maxUnprotected && now < U64_MAX
      modifies this, flows
      ensures Fits() && Sound(Table(), nextId) && Unprotected(Table()) <= maxUnprotected == old(maxUnprotected)
      ensures TookLeastRecent(old(Table()), closed)
      ensures forall f :: f in old(Table()) && f.guarded ==> f in Table()
      ensures added.Some? ==> added.value in Table() && added.value.remote == remote && !added.value.guarded
      ensures maxUnprotected == 0 ==> added.None?
    {
      hide *;
      var ok;
      ok, closed := ReserveUnprotectedFlow();
      if !ok {
        return None, closed;
      }
      ghost var before, lastId := Table(), nextId;
      added := AddFlow(remote, now, flowFits, arrayGrows);
      if added.Some? {
        AppendKeeps(before, added.value, lastId);
      } else {
        SoundLater(before, lastId, nextId);
      }
    }

    method ProtectFlow(id: nat) returns (ok: bool)
      requires Fits()
      modifies flows
      ensures Table() == Protect(old(Table()), id)
      ensures ok <==> Has(old(Table()), id)
    {
      var i := FindFlow(id);
      if i == nflows {
        return false;
      }
      flows[i] := flows[i].(guarded := true);
      return true;
    }

    /** Activity on a flow: a datagram sent or received, or the flow becoming ready. */
    method TouchFlow(id: nat, now: nat, ready: bool) returns (ok: bool)
      requires Fits()
      modifies flows
      ensures Table() == Touch(old(Table()), id, now, ready)
      ensures ok <==> Has(old(Table()), id)
    {
      var i := FindFlow(id);
      if i == nflows {
        return false;
      }
      flows[i] := flows[i].(lastActivity := now, ready := flows[i].ready || ready);
      return true;
    }
  }
}
