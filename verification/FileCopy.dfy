/** Sending a tree as an archive: an explicit-stack walk under a shared budget, the byte
    limit derived from it, and the order in which an archive is unpacked. */
module FileCopy {
  import opened Common

  const STREAM_BUFFER: nat := 1024 * 1024

  // ----- Trees and archives -----

  type Path = seq<string>

  /** A snapshot of the file system below a source path. `Special` is anything that is
      neither a regular file nor a directory, such as a symbolic link. */
  datatype Node = File(size: nat) | Special | Dir(children: seq<Child>)

  datatype Child = Child(name: string, node: Node)

  datatype Kind = FileEntry(size: nat) | SpecialEntry | DirEntry

  datatype Entry = Entry(path: Path, kind: Kind)

  function KindOf(n: Node): Kind {
    match n
    case File(size) => FileEntry(size)
    case Special => SpecialEntry
    case Dir(_) => DirEntry
  }

  /** What an entry, or a node by itself, costs the byte budget. */
  function KindSize(k: Kind): nat {
    if k.FileEntry? then k.size else 0
  }

  function Bytes(es: seq<Entry>): nat {
    if es == [] then 0 else KindSize(es[0].kind) + Bytes(es[1..])
  }

  lemma {:induction false} BytesAppend(a: seq<Entry>, b: seq<Entry>)
    ensures Bytes(a + b) == Bytes(a) + Bytes(b)
    decreases |a|
  {
    if a == [] {
      assert a + b == b;
    } else {
      BytesAppend(a[1..], b);
      assert (a + b)[1..] == a[1..] + b;
    }
  }

  // ----- The reference: what a tree holds -----

  /** Every node of the tree with its path, once each. */
  function Nodes(n: Node, path: Path): multiset<Entry>
    decreases n
  {
    multiset{Entry(path, KindOf(n))} + if n.Dir? then NodesBelow(n.children, path) else multiset{}
  }

  function NodesBelow(cs: seq<Child>, path: Path): multiset<Entry>
    decreases cs
  {
    if cs == [] then multiset{}
    else NodesBelow(cs[..|cs| - 1], path) + Nodes(cs[|cs| - 1].node, path + [cs[|cs| - 1].name])
  }

  function Count(n: Node): (c: nat)
    ensures c >= 1
    decreases n
  {
    1 + if n.Dir? then CountBelow(n.children) else 0
  }

  function CountBelow(cs: seq<Child>): nat
    decreases cs
  {
    if cs == [] then 0 else CountBelow(cs[..|cs| - 1]) + Count(cs[|cs| - 1].node)
  }

  function Size(n: Node): nat
    decreases n
  {
    KindSize(KindOf(n)) + if n.Dir? then SizeBelow(n.children) else 0
  }

  function SizeBelow(cs: seq<Child>): nat
    decreases cs
  {
    if cs == [] then 0 else SizeBelow(cs[..|cs| - 1]) + Size(cs[|cs| - 1].node)
  }

  // ----- The order the walk visits nodes in -----

  /** A node, then what is below it, the last child first. */
  function Emit(n: Node, path: Path): (es: seq<Entry>)
    ensures es != []
    decreases n
  {
    [Entry(path, KindOf(n))] + if n.Dir? then EmitBelow(n.children, path) else []
  }

  function EmitBelow(cs: seq<Child>, path: Path): seq<Entry>
    decreases cs
  {
    if cs == [] then []
    else
      var k := |cs| - 1;
      Emit(cs[k].node, path + [cs[k].name]) + EmitBelow(cs[..k], path)
  }

  /** The walk visits every node exactly once. */
  lemma {:induction false} EmitIsTree(n: Node, path: Path)
    ensures multiset(Emit(n, path)) == Nodes(n, path)
    ensures |Emit(n, path)| == Count(n) && Bytes(Emit(n, path)) == Size(n)
    decreases n
  {
    var e := Entry(path, KindOf(n));
    assert Bytes([e]) == KindSize(KindOf(n)) + Bytes([]);
    if n.Dir? {
      EmitBelowIsTree(n.children, path);
      BytesAppend([e], EmitBelow(n.children, path));
    }
  }

  lemma {:induction false} EmitBelowIsTree(cs: seq<Child>, path: Path)
    ensures multiset(EmitBelow(cs, path)) == NodesBelow(cs, path)
    ensures |EmitBelow(cs, path)| == CountBelow(cs) && Bytes(EmitBelow(cs, path)) == SizeBelow(cs)
    decreases cs
  {
    if cs != [] {
      var k := |cs| - 1;
      var last, others := Emit(cs[k].node, path + [cs[k].name]), EmitBelow(cs[..k], path);
      assert EmitBelow(cs, path) == last + others;
      EmitIsTree(cs[k].node, path + [cs[k].name]);
      EmitBelowIsTree(cs[..k], path);
      hide Emit, EmitBelow, Nodes, Count, Size, Bytes;
      BytesAppend(last, others);
    }
  }

  /** The directory that holds `path`. */
  function Holder(path: Path): Path
    requires path != []
  {
    path[..|path| - 1]
  }

  /** Each entry's directory comes before it, except for entries of directory `outside`. */
  ghost predicate ParentsFirst(es: seq<Entry>, outside: Path) {
    forall j :: 0 <= j < |es| ==> ParentFirst(es, j, outside)
  }

  ghost predicate ParentFirst(es: seq<Entry>, j: nat, outside: Path)
    requires j < |es|
  {
    es[j].path != [] && Holder(es[j].path) != outside ==> EntryBefore(es, j, Entry(Holder(es[j].path), DirEntry))
  }

  ghost predicate EntryBefore(es: seq<Entry>, j: nat, e: Entry) {
    exists i :: 0 <= i < j && i < |es| && es[i] == e
  }

  lemma EntryBeforeLater(a: seq<Entry>, b: seq<Entry>, j: nat, e: Entry)
    requires EntryBefore(b, j, e)
    ensures EntryBefore(a + b, |a| + j, e)
  {
    var i :| 0 <= i < j && i < |b| && b[i] == e;
    assert (a + b)[|a| + i] == e;
  }

  lemma ParentsFirstAppend(a: seq<Entry>, b: seq<Entry>, outside: Path)
    requires ParentsFirst(a, outside) && ParentsFirst(b, outside)
    ensures ParentsFirst(a + b, outside)
  {
    hide Holder;
    var es := a + b;
    forall j | 0 <= j < |es| ensures ParentFirst(es, j, outside) {
      if j < |a| {
        assert ParentFirst(a, j, outside) && es[j] == a[j];
        assert forall i :: 0 <= i < j ==> es[i] == a[i];
      } else {
        assert ParentFirst(b, j - |a|, outside) && es[j] == b[j - |a|];
        if es[j].path != [] && Holder(es[j].path) != outside {
          EntryBeforeLater(a, b, j - |a|, Entry(Holder(es[j].path), DirEntry));
        }
      }
    }
  }

  /** Putting the directory's own entry in front serves everything right below it. */
  lemma ParentsFirstUnder(path: Path, below: seq<Entry>)
    requires path != [] && ParentsFirst(below, path)
    ensures ParentsFirst([Entry(path, DirEntry)] + below, Holder(path))
  {
    hide Holder;
    var es := [Entry(path, DirEntry)] + below;
    forall j | 0 <= j < |es| ensures ParentFirst(es, j, Holder(path)) {
      if j > 0 && es[j].path != [] {
        assert ParentFirst(below, j - 1, path) && es[j] == below[j - 1];
        if Holder(es[j].path) == path {
          assert es[0] == Entry(path, DirEntry);
        } else {
          EntryBeforeLater([Entry(path, DirEntry)], below, j - 1, Entry(Holder(es[j].path), DirEntry));
        }
      }
    }
  }

  /** The walk emits every directory before anything in it. */
  lemma {:induction false} DirectoriesFirst(n: Node, path: Path)
    requires path != []
    ensures ParentsFirst(Emit(n, path), Holder(path))
    decreases n
  {
    if n.Dir? {
      DirectoriesFirstBelow(n.children, path);
      ParentsFirstUnder(path, EmitBelow(n.children, path));
    } else {
      assert Emit(n, path) == [Entry(path, KindOf(n))];
    }
  }

  lemma {:induction false} DirectoriesFirstBelow(cs: seq<Child>, path: Path)
    ensures ParentsFirst(EmitBelow(cs, path), path)
    decreases cs
  {
    if cs != [] {
      var k := |cs| - 1;
      var sub := path + [cs[k].name];
      DirectoriesFirst(cs[k].node, sub);
      assert Holder(sub) == path;
      DirectoriesFirstBelow(cs[..k], path);
      ParentsFirstAppend(Emit(cs[k].node, sub), EmitBelow(cs[..k], path), path);
    }
  }

  // ----- The budget -----

  datatype Limits = Limits(maxBytes: nat, maxEntries: nat)

  /** `u64` addition that saturates. */
  function Saturate(x: nat): nat {
    Min(x, U64_MAX)
  }

  /** The limits admit so many entries and bytes. */
  predicate Within(limits: Limits, entries: nat, bytes: nat) {
    Saturate(entries) <= limits.maxEntries && Saturate(bytes) <= limits.maxBytes
  }

  class CopyBudget {
    const limits: Limits
    var bytes: nat
    var entries: nat

    constructor (limits: Limits)
      ensures this.limits == limits && bytes == 0 && entries == 0
    {
      this.limits := limits;
      bytes, entries := 0, 0;
    }

    /** What has been charged, counted without saturation. */
    ghost predicate Charged(count: nat, total: nat)
      reads this
    {
      entries == Saturate(count) && bytes == Saturate(total)
    }

    method Add(size: nat) returns (ok: bool)
      modifies this
      ensures entries == Saturate(old(entries) + 1) && bytes == Saturate(old(bytes) + size)
      ensures ok <==> entries <= limits.maxEntries && bytes <= limits.maxBytes
    {
      entries := Saturate(entries + 1);
      bytes := Saturate(bytes + size);
      if entries > limits.maxEntries {
        return false;
      }
      if bytes > limits.maxBytes {
        return false;
      }
      return true;
    }
  }

  /** Saturating step by step is saturating the true sum. */
  lemma ChargeOne(before: seq<Entry>, es: seq<Entry>, e: Entry)
    ensures Saturate(Saturate(|before + es|) + 1) == Saturate(|before + (es + [e])|)
    ensures Saturate(Saturate(Bytes(before + es)) + KindSize(e.kind)) == Saturate(Bytes(before + (es + [e])))
  {
    assert before + (es + [e]) == before + es + [e];
    BytesAppend(before + es, [e]);
    assert Bytes([e]) == KindSize(e.kind) + Bytes([]);
  }

  /** File sizes are 64-bit numbers. */
  predicate WordSizes(es: seq<Entry>) {
    forall i :: 0 <= i < |es| ==> KindSize(es[i].kind) <= U64_MAX
  }

  /** Saturating makes no difference to this copy. */
  predicate JudgedTrue(limits: Limits, es: seq<Entry>) {
    Within(limits, |es|, Bytes(es)) <==> |es| <= limits.maxEntries && Bytes(es) <= limits.maxBytes
  }

  lemma {:induction false} EmptyEntries(n: nat)
    ensures Bytes(seq(n, i => Entry([], SpecialEntry))) == 0
    decreases n
  {
    if n > 0 {
      EmptyEntries(n - 1);
      assert seq(n, i => Entry([], SpecialEntry))[1..] == seq(n - 1, i => Entry([], SpecialEntry));
    }
  }

  /** Two files whose sizes sum to one more than the largest number. */
  lemma TwoFiles()
    ensures var es := [Entry([], FileEntry(U64_MAX)), Entry([], FileEntry(1))];
            WordSizes(es) && Bytes(es) == U64_MAX + 1
  {
    var es := [Entry([], FileEntry(U64_MAX)), Entry([], FileEntry(1))];
    assert Bytes(es[1..]) == 1 + Bytes(es[1..][1..]);
  }

  /** The saturated sums are judged as the true sums would be, for every copy, exactly if the
      entries are limited below the largest number and so are the bytes, unless at most one
      entry is admitted: one more entry, or two files, would otherwise saturate to the limit. */
  lemma AcceptedSumsAreTrue(limits: Limits)
    requires limits.maxBytes <= U64_MAX && limits.maxEntries <= U64_MAX
    ensures (forall es :: WordSizes(es) ==> JudgedTrue(limits, es)) <==>
            limits.maxEntries < U64_MAX && (limits.maxBytes < U64_MAX || limits.maxEntries <= 1)
  {
    if limits.maxEntries == U64_MAX {
      EmptyEntries(U64_MAX + 1);
      assert !JudgedTrue(limits, seq(U64_MAX + 1, i => Entry([], SpecialEntry)));
    } else if limits.maxBytes == U64_MAX && limits.maxEntries > 1 {
      TwoFiles();
      assert !JudgedTrue(limits, [Entry([], FileEntry(U64_MAX)), Entry([], FileEntry(1))]);
    } else {
      forall es: seq<Entry> | WordSizes(es) ensures JudgedTrue(limits, es) {
        if |es| == 1 {
          assert Bytes(es) == KindSize(es[0].kind) + Bytes(es[1..]) && es[1..] == [];
        }
      }
    }
  }

  // ----- The walk -----

  datatype Item = Item(node: Node, path: Path)

  /** What a stack of pending items will emit, the top (the last) first. */
  function EmitItems(items: seq<Item>): seq<Entry> {
    if items == [] then []
    else
      var k := |items| - 1;
      Emit(items[k].node, items[k].path) + EmitItems(items[..k])
  }

  function CountItems(items: seq<Item>): nat {
    if items == [] then 0 else CountItems(items[..|items| - 1]) + Count(items[|items| - 1].node)
  }

  function ChildItems(cs: seq<Child>, path: Path): (items: seq<Item>)
    ensures |items| == |cs|
  {
    if cs == [] then [] else ChildItems(cs[..|cs| - 1], path) + [Item(cs[|cs| - 1].node, path + [cs[|cs| - 1].name])]
  }

  lemma {:induction false} EmitPushed(items: seq<Item>, cs: seq<Child>, path: Path)
    ensures EmitItems(items + ChildItems(cs, path)) == EmitBelow(cs, path) + EmitItems(items)
    decreases |cs|
  {
    hide Emit;
    var all := items + ChildItems(cs, path);
    if cs == [] {
      assert all == items;
    } else {
      var k := |cs| - 1;
      var last := Item(cs[k].node, path + [cs[k].name]);
      var others := items + ChildItems(cs[..k], path);
      EmitPushed(items, cs[..k], path);
      assert all[..|all| - 1] == others && all[|all| - 1] == last;
      assert EmitItems(all) == Emit(last.node, last.path) + EmitItems(others);
      assert EmitBelow(cs, path) == Emit(last.node, last.path) + EmitBelow(cs[..k], path);
      hide EmitItems, EmitBelow, ChildItems;
      Reassociate(Emit(last.node, last.path), EmitBelow(cs[..k], path), EmitItems(items));
    }
  }

  lemma Reassociate(a: seq<Entry>, b: seq<Entry>, c: seq<Entry>)
    ensures a + (b + c) == a + b + c
  {
  }

  lemma {:induction false} CountPushed(items: seq<Item>, cs: seq<Child>, path: Path)
    ensures CountItems(items + ChildItems(cs, path)) == CountItems(items) + CountBelow(cs)
    decreases |cs|
  {
    hide Count;
    var all := items + ChildItems(cs, path);
    if cs == [] {
      assert all == items;
    } else {
      var k := |cs| - 1;
      CountPushed(items, cs[..k], path);
      assert all[..|all| - 1] == items + ChildItems(cs[..k], path);
      assert all[|all| - 1] == Item(cs[k].node, path + [cs[k].name]);
    }
  }

  /** What the walk emitted under its budget, as a part `emitted` of what the whole tree would
      be, after `before` had been charged: everything if the limits admit it, and otherwise
      as much as they admit, the next entry being the one that exceeds them. */
  ghost predicate Walked(all: seq<Entry>, emitted: seq<Entry>, before: seq<Entry>, limits: Limits, ok: bool) {
    && emitted <= all
    && (emitted != [] ==> Within(limits, |before + emitted|, Bytes(before + emitted)))
    && (ok ==> emitted == all)
    && (!ok ==> |emitted| < |all| && Exceeded(before + all[..|emitted| + 1], limits))
  }

  predicate Exceeded(es: seq<Entry>, limits: Limits) {
    !Within(limits, |es|, Bytes(es))
  }

  /** In the middle of the walk: what was emitted, what the stack still holds, and that
      everything emitted was within the limits. */
  ghost predicate OnTrack(all: seq<Entry>, emitted: seq<Entry>, pending: seq<Item>, before: seq<Entry>, limits: Limits) {
    && emitted + EmitItems(pending) == all
    && (emitted != [] ==> Within(limits, |before + emitted|, Bytes(before + emitted)))
  }

  /** Charges, emits and expands one item after another until the stack is empty. */
  method AppendPathLimited(source: Node, archiveName: Path, budget: CopyBudget, ghost before: seq<Entry>)
    returns (ok: bool, emitted: seq<Entry>)
    requires budget.Charged(|before|, Bytes(before))
    modifies budget
    ensures Walked(Emit(source, archiveName), emitted, before, budget.limits, ok)
    ensures ok ==> budget.Charged(|before + emitted|, Bytes(before + emitted))
  {
    hide EmitItems, Emit, Bytes, CountItems, ChildItems, Within, Walked, OnTrack;
    var pending := [Item(source, archiveName)];
    emitted := [];
    ghost var all := Emit(source, archiveName);
    StartOfWalk(source, archiveName, before, budget.limits);
    while pending != []
      invariant OnTrack(all, emitted, pending, before, budget.limits)
      invariant budget.Charged(|before + emitted|, Bytes(before + emitted))
      decreases CountItems(pending)
    {
      var item, rest := pending[|pending| - 1], pending[..|pending| - 1];
      var entry := Entry(item.path, KindOf(item.node));
      ChargeOne(before, emitted, entry);
      StepOfWalk(all, emitted, pending, before, budget.limits, rest, item, entry);
      var fits := budget.Add(KindSize(entry.kind));
      if !fits {
        return false, emitted;
      }
      emitted := emitted + [entry];
      pending := rest;
      if item.node.Dir? {
        pending := pending + ChildItems(item.node.children, item.path);
      }
    }
    EndOfWalk(all, emitted, before, budget.limits);
    ok := true;
  }

  lemma StartOfWalk(source: Node, name: Path, before: seq<Entry>, limits: Limits)
    ensures OnTrack(Emit(source, name), [], [Item(source, name)], before, limits)
    ensures before + [] == before
  {
    assert [Item(source, name)][..0] == [];
    assert Emit(source, name) + [] == Emit(source, name);
  }

  lemma EndOfWalk(all: seq<Entry>, emitted: seq<Entry>, before: seq<Entry>, limits: Limits)
    requires OnTrack(all, emitted, [], before, limits)
    ensures Walked(all, emitted, before, limits, true)
  {
    assert emitted + [] == emitted;
  }

  /** The top of the stack: admitting it and expanding it keeps the walk on track, refusing it
      ends the walk at the entry that exceeds the limits. */
  lemma StepOfWalk(all: seq<Entry>, emitted: seq<Entry>, pending: seq<Item>, before: seq<Entry>, limits: Limits,
                   rest: seq<Item>, item: Item, entry: Entry)
    requires OnTrack(all, emitted, pending, before, limits)
    requires pending == rest + [item] && entry == Entry(item.path, KindOf(item.node))
    ensures var next := if item.node.Dir? then rest + ChildItems(item.node.children, item.path) else rest;
            var more := before + (emitted + [entry]);
            && CountItems(next) < CountItems(pending)
            && (Saturate(|more|) <= limits.maxEntries && Saturate(Bytes(more)) <= limits.maxBytes ==>
                  OnTrack(all, emitted + [entry], next, before, limits))
            && (!(Saturate(|more|) <= limits.maxEntries && Saturate(Bytes(more)) <= limits.maxBytes) ==>
                  Walked(all, emitted, before, limits, false))
  {
    TopOfStack(emitted, rest, item, all);
    hide Bytes, EmitItems, CountItems, ChildItems, Walked;
    Refused(all, emitted, entry, before, limits);
  }

  lemma Refused(all: seq<Entry>, emitted: seq<Entry>, entry: Entry, before: seq<Entry>, limits: Limits)
    requires |emitted| < |all| && all[..|emitted| + 1] == emitted + [entry]
    requires emitted != [] ==> Within(limits, |before + emitted|, Bytes(before + emitted))
    ensures Exceeded(before + (emitted + [entry]), limits) ==> Walked(all, emitted, before, limits, false)
  {
    assert emitted == all[..|emitted|];
  }

  lemma TopOfStack(emitted: seq<Entry>, rest: seq<Item>, item: Item, all: seq<Entry>)
    requires emitted + EmitItems(rest + [item]) == all
    ensures var entry := Entry(item.path, KindOf(item.node));
            var next := if item.node.Dir? then rest + ChildItems(item.node.children, item.path) else rest;
            && |emitted| < |all| && all[..|emitted| + 1] == emitted + [entry]
            && emitted + [entry] + EmitItems(next) == all
            && CountItems(next) < CountItems(rest + [item])
  {
    var entry := Entry(item.path, KindOf(item.node));
    var below := if item.node.Dir? then EmitBelow(item.node.children, item.path) else [];
    assert EmitItems(rest + [item]) == [entry] + below + EmitItems(rest) by {
      assert (rest + [item])[..|rest|] == rest;
    }
    assert CountItems(rest + [item]) == CountItems(rest) + Count(item.node) by {
      assert (rest + [item])[..|rest|] == rest;
    }
    if item.node.Dir? {
      EmitPushed(rest, item.node.children, item.path);
      CountPushed(rest, item.node.children, item.path);
    }
    hide EmitItems, EmitBelow, Emit, CountItems, ChildItems;
    FirstOfRest(emitted, entry, below, EmitItems(rest), all);
  }

  lemma FirstOfRest(emitted: seq<Entry>, entry: Entry, below: seq<Entry>, rest: seq<Entry>, all: seq<Entry>)
    requires emitted + ([entry] + below + rest) == all
    ensures |emitted| < |all| && all[..|emitted| + 1] == emitted + [entry]
    ensures emitted + [entry] + (below + rest) == all
    ensures below == [] ==> emitted + [entry] + rest == all
  {
    assert emitted + ([entry] + below + rest) == emitted + [entry] + (below + rest);
    if below == [] {
      assert below + rest == rest;
    }
  }
}
