/** A whole copy: several sources under one budget, the byte limit on the archive stream that
    an accepted copy never reaches, and the order in which entries are unpacked. */
module Archive {
  import opened Common
  import opened FileCopy

  // ----- Several sources -----

  datatype Source = Source(node: Node, name: Path)

  function EmitSources(sources: seq<Source>): seq<Entry> {
    if sources == [] then []
    else
      var k := |sources| - 1;
      EmitSources(sources[..k]) + Emit(sources[k].node, sources[k].name)
  }

  /** More entries never come back within the limits. */
  lemma ExceededStays(es: seq<Entry>, more: seq<Entry>, limits: Limits)
    requires es <= more && Exceeded(es, limits)
    ensures Exceeded(more, limits)
  {
    BytesAppend(es, more[|es|..]);
    assert es + more[|es|..] == more;
  }

  /** A walk succeeds exactly if the limits admit the whole tree. */
  lemma WalkedExactly(all: seq<Entry>, emitted: seq<Entry>, before: seq<Entry>, limits: Limits, ok: bool)
    requires Walked(all, emitted, before, limits, ok) && all != []
    ensures ok <==> !Exceeded(before + all, limits)
    ensures before + emitted <= before + all && (ok ==> emitted == all)
    ensures (before != [] ==> !Exceeded(before, limits)) && before + emitted != [] ==>
              !Exceeded(before + emitted, limits)
  {
    assert emitted == [] ==> before + emitted == before;
    if !ok {
      ExceededStays(before + all[..|emitted| + 1], before + all, limits);
    }
  }

  /** There are sources, copying is not disabled, and the limits admit all of them. */
  predicate Admitted(sources: seq<Source>, limits: Limits) {
    sources != [] && limits.maxBytes != 0 && limits.maxEntries != 0 && !Exceeded(EmitSources(sources), limits)
  }

  /** Copies every source in turn. It succeeds exactly if there are sources, copying is not
      disabled, and the limits admit all their nodes and bytes; then it emitted all of them,
      and otherwise a part that the limits admit. */
  method SendArchive(sources: seq<Source>, limits: Limits) returns (ok: bool, emitted: seq<Entry>)
    ensures ok <==> Admitted(sources, limits)
    ensures ok ==> emitted == EmitSources(sources)
    ensures emitted <= EmitSources(sources) && (emitted != [] ==> !Exceeded(emitted, limits))
  {
    emitted := [];
    if sources == [] {
      return false, emitted;
    }
    if limits.maxBytes == 0 || limits.maxEntries == 0 {
      return false, emitted;
    }
    var budget := new CopyBudget(limits);
    for i := 0 to |sources|
      invariant emitted == EmitSources(sources[..i]) && fresh(budget) && budget.limits == limits
      invariant budget.Charged(|emitted|, Bytes(emitted))
      invariant emitted != [] ==> !Exceeded(emitted, limits)
      invariant i > 0 ==> emitted != []
    {
      hide Emit, Bytes, EmitSources, Walked, Exceeded;
      NextSource(sources, i);
      ghost var all := Emit(sources[i].node, sources[i].name);
      var part;
      ok, part := AppendPathLimited(sources[i].node, sources[i].name, budget, emitted);
      WalkedExactly(all, part, emitted, limits, ok);
      if !ok {
        ExceededStays(emitted + all, EmitSources(sources), limits);
        return false, emitted + part;
      }
      emitted := emitted + part;
    }
    assert sources[..|sources|] == sources;
    ok := true;
  }

  lemma NextSource(sources: seq<Source>, i: nat)
    requires i < |sources|
    ensures EmitSources(sources[..i + 1]) == EmitSources(sources[..i]) + Emit(sources[i].node, sources[i].name)
    ensures EmitSources(sources[..i + 1]) <= EmitSources(sources)
    ensures Emit(sources[i].node, sources[i].name) != []
  {
    assert sources[..i + 1][..i] == sources[..i];
    SourcesPrefix(sources, i + 1);
  }

  lemma {:induction false} SourcesPrefix(sources: seq<Source>, i: nat)
    requires i <= |sources|
    ensures EmitSources(sources[..i]) <= EmitSources(sources)
    decreases |sources|
  {
    var n := |sources|;
    if i == n {
      assert sources[..i] == sources;
    } else {
      SourcesPrefix(sources[..n - 1], i);
      assert sources[..n - 1][..i] == sources[..i];
    }
  }

  // ----- The byte limit of the archive stream -----

  const BLOCK: nat := 512

  function Padded(size: nat): (p: nat)
    ensures size <= p < size + BLOCK
  {
    (size + BLOCK - 1) / BLOCK * BLOCK
  }

  /** A header block and the padded contents, and what the library adds in `extra` records
      for a name that does not fit its header block. */
  function EntrySize(e: Entry, extra: Entry -> nat): nat {
    BLOCK + Padded(KindSize(e.kind)) + extra(e)
  }

  function EntriesSize(es: seq<Entry>, extra: Entry -> nat): nat {
    if es == [] then 0 else EntrySize(es[0], extra) + EntriesSize(es[1..], extra)
  }

  function ExtraSize(es: seq<Entry>, extra: Entry -> nat): nat {
    if es == [] then 0 else extra(es[0]) + ExtraSize(es[1..], extra)
  }

  /** The length of the archive: its entries, and two blocks at the end. */
  function ArchiveSize(es: seq<Entry>, extra: Entry -> nat): nat {
    EntriesSize(es, extra) + 2 * BLOCK
  }

  function ArchiveByteLimit(limits: Limits): nat {
    Saturate(Saturate(limits.maxBytes + Saturate(limits.maxEntries * 1024)) + STREAM_BUFFER)
  }

  /** Computing the byte limit does not overflow. */
  predicate Unsaturated(limits: Limits) {
    limits.maxBytes + limits.maxEntries * 1024 + STREAM_BUFFER <= U64_MAX
  }

  lemma {:induction false} EntriesSizeBound(es: seq<Entry>, extra: Entry -> nat)
    ensures EntriesSize(es, extra) <= Bytes(es) + 1024 * |es| + ExtraSize(es, extra)
    decreases |es|
  {
    if es != [] {
      EntriesSizeBound(es[1..], extra);
    }
  }

  /** The archive of an accepted copy stays within the byte limit derived from the same
      limits, unless that limit itself had to be cut off at the largest number, or records for
      long names use up the allowance of one stream buffer. */
  lemma AcceptedArchiveFits(es: seq<Entry>, limits: Limits, extra: Entry -> nat)
    requires !Exceeded(es, limits)
    requires Unsaturated(limits) && ExtraSize(es, extra) + 2 * BLOCK <= STREAM_BUFFER
    ensures ArchiveSize(es, extra) <= ArchiveByteLimit(limits)
  {
    EntriesSizeBound(es, extra);
  }

  lemma {:induction false} EmptyFilesSize(es: seq<Entry>, extra: Entry -> nat)
    requires forall e :: e in es ==> KindSize(e.kind) == 0 && extra(e) >= 2 * BLOCK
    ensures Bytes(es) == 0 && EntriesSize(es, extra) >= 3 * BLOCK * |es|
    decreases |es|
  {
    if es != [] {
      assert es[0] in es && forall e :: e in es[1..] ==> e in es;
      EmptyFilesSize(es[1..], extra);
    }
  }

  /** The allowance can be used up: many empty files with names that each take two blocks more
      are within the limits, and their archive is not. */
  lemma LongNamesOverflow(es: seq<Entry>, limits: Limits, extra: Entry -> nat)
    requires forall e :: e in es ==> KindSize(e.kind) == 0 && extra(e) >= 2 * BLOCK
    requires |es| == limits.maxEntries && limits.maxBytes + STREAM_BUFFER < 512 * |es|
    requires Unsaturated(limits)
    ensures !Exceeded(es, limits) && ArchiveSize(es, extra) > ArchiveByteLimit(limits)
  {
    EmptyFilesSize(es, extra);
  }

  lemma TakeMore(data: seq<Byte>, pos: nat, n: nat, before: seq<Byte>)
    requires pos + n <= |data|
    ensures before + data[..pos] + data[pos..][..n] == before + data[..pos + n]
  {
    assert data[..pos] + data[pos..][..n] == data[..pos + n];
  }

  /** Passes bytes on until the limit, whatever the writer behind it accepts at a time. */
  class LimitedWriter {
    const limit: nat
    var written: nat
    var inner: seq<Byte>

    constructor (limit: nat)
      ensures this.limit == limit && written == 0 && inner == []
    {
      this.limit := limit;
      written, inner := 0, [];
    }

    method PollWrite(buf: seq<Byte>, accept: nat) returns (r: Result<nat>)
      requires written <= limit
      modifies this
      ensures r.Err? <==> old(written) == limit
      ensures r.Err? ==> inner == old(inner) && written == old(written)
      ensures r.Ok? ==> r.value == Min(accept, Min(limit - old(written), |buf|))
      ensures r.Ok? ==> inner == old(inner) + buf[..r.value] && written == old(written) + r.value <= limit
    {
      if written >= limit {
        return Err;
      }
      var available := Min(limit - written, |buf|);
      var n := Min(accept, available);
      inner := inner + buf[..available][..n];
      assert buf[..available][..n] == buf[..n];
      written := written + n;
      return Ok(n);
    }

    /** Writes everything, in as many pieces as it takes: the bytes arrive unchanged and in
        order if they fit, and otherwise exactly those that fit arrive. */
    method WriteAll(data: seq<Byte>, accepts: nat -> nat) returns (ok: bool)
      requires written <= limit && forall i :: accepts(i) >= 1
      modifies this
      ensures written == old(written) + Min(|data|, limit - old(written)) <= limit
      ensures ok <==> old(written) + |data| <= limit
      ensures inner == old(inner) + data[..Min(|data|, limit - old(written))]
    {
      var pos, round := 0, 0;
      while pos < |data|
        invariant pos <= |data| && written == old(written) + pos <= limit
        invariant inner == old(inner) + data[..pos]
        decreases |data| - pos
      {
        assert accepts(round) >= 1;
        var r := PollWrite(data[pos..], accepts(round));
        if r.Err? {
          return false;
        }
        TakeMore(data, pos, r.value, old(inner));
        pos := pos + r.value;
        round := round + 1;
      }
      return true;
    }

    /** However the stream is cut into writes, what fits the limit passes through, and the
        stream is refused exactly if that is not all of it. */
    method WriteChunks(chunks: seq<seq<Byte>>, accepts: nat -> nat) returns (ok: bool)
      requires written == 0 && inner == [] && forall i :: accepts(i) >= 1
      modifies this
      ensures ok <==> |Concat(chunks)| <= limit
      ensures inner == Concat(chunks)[..Min(|Concat(chunks)|, limit)]
    {
      for i := 0 to |chunks|
        invariant written == |inner| <= limit && inner == Concat(chunks[..i])
      {
        ConcatStep(chunks, i);
        ConcatPrefix(chunks, i + 1);
        ghost var was := inner;
        ok := WriteAll(chunks[i], accepts);
        if !ok {
          assert |inner| == limit && inner <= was + chunks[i];
          assert inner <= Concat(chunks);
          return;
        }
        assert chunks[i][..|chunks[i]|] == chunks[i];
      }
      assert chunks[..|chunks|] == chunks;
      ok := true;
    }
  }

  // ----- Walk and writer together -----

  /** The archive stream: a record per entry, then the end. */
  function Records(es: seq<Entry>, record: Entry -> seq<Byte>): seq<Byte> {
    if es == [] then [] else record(es[0]) + Records(es[1..], record)
  }

  lemma {:induction false} RecordsLength(es: seq<Entry>, record: Entry -> seq<Byte>, extra: Entry -> nat)
    requires forall e :: |record(e)| == EntrySize(e, extra)
    ensures |Records(es, record)| == EntriesSize(es, extra)
    decreases |es|
  {
    if es != [] {
      RecordsLength(es[1..], record, extra);
    }
  }

  /** The copy with the limited writer behind it, however the library forms a record, cuts the
      stream into writes and finds the inner writer accepting. It succeeds exactly if the
      budget admits the sources and their archive fits the byte limit, and then the whole
      archive went through; what went through otherwise is the part that fits of the records
      of entries the budget admits. */
  method SendLimited(sources: seq<Source>, limits: Limits, record: Entry -> seq<Byte>, extra: Entry -> nat,
                     end: seq<Byte>, cut: seq<Byte> -> seq<seq<Byte>>, accepts: nat -> nat)
    returns (ok: bool, sent: seq<Byte>, ghost emitted: seq<Entry>)
    requires forall e :: |record(e)| == EntrySize(e, extra)
    requires |end| == 2 * BLOCK && (forall x :: Concat(cut(x)) == x) && forall i :: accepts(i) >= 1
    ensures ok <==> Admitted(sources, limits) && ArchiveSize(EmitSources(sources), extra) <= ArchiveByteLimit(limits)
    ensures ok ==> sent == Records(EmitSources(sources), record) + end
    ensures emitted <= EmitSources(sources) && (emitted != [] ==> !Exceeded(emitted, limits))
    ensures sent <= Records(emitted, record) + end && |sent| <= ArchiveByteLimit(limits)
    ensures !ok && !Admitted(sources, limits) ==> sent <= Records(emitted, record)
    ensures Unsaturated(limits) && ExtraSize(EmitSources(sources), extra) + 2 * BLOCK <= STREAM_BUFFER ==>
              (ok <==> Admitted(sources, limits))
  {
    var walked, es := SendArchive(sources, limits);
    emitted := es;
    var writer := new LimitedWriter(ArchiveByteLimit(limits));
    var stream := Records(es, record) + if walked then end else [];
    RecordsLength(es, record, extra);
    hide Records, EntriesSize, EmitSources, Exceeded;
    assert Concat(cut(stream)) == stream;
    ok := writer.WriteChunks(cut(stream), accepts);
    sent := writer.inner;
    ok := ok && walked;
    if walked && Unsaturated(limits) && ExtraSize(es, extra) + 2 * BLOCK <= STREAM_BUFFER {
      AcceptedArchiveFits(es, limits, extra);
    }
  }

  // ----- Unpacking -----

  datatype Packed = Packed(path: seq<Byte>, directory: bool, size: nat)

  /** Byte-wise order of paths. */
  predicate Before(a: seq<Byte>, b: seq<Byte>) {
    b != [] && (a == [] || a[0] < b[0] || (a[0] == b[0] && Before(a[1..], b[1..])))
  }

  lemma {:induction false} PrefixBefore(a: seq<Byte>, b: seq<Byte>)
    requires a < b
    ensures Before(a, b) && !Before(b, a)
    decreases |a|
  {
    if a != [] {
      PrefixBefore(a[1..], b[1..]);
    }
  }

  lemma {:induction false} BeforeTransitive(a: seq<Byte>, b: seq<Byte>, c: seq<Byte>)
    requires !Before(a, b) && !Before(b, c)
    ensures !Before(a, c)
    decreases |a|
  {
    if a != [] && b != [] && c != [] && a[0] == b[0] == c[0] {
      BeforeTransitive(a[1..], b[1..], c[1..]);
    }
  }

  lemma {:induction false} BeforeAsymmetric(a: seq<Byte>, b: seq<Byte>)
    requires Before(a, b)
    ensures !Before(b, a)
    decreases |a|
  {
    if a != [] && a[0] == b[0] {
      BeforeAsymmetric(a[1..], b[1..]);
    }
  }

  /** Later paths first. */
  predicate Descending(ds: seq<Packed>) {
    forall i, j :: 0 <= i < j < |ds| ==> !Before(ds[i].path, ds[j].path)
  }

  /** A stable sort in descending order. */
  function Insert(ds: seq<Packed>, d: Packed): seq<Packed> {
    if ds == [] then [d]
    else if Before(ds[|ds| - 1].path, d.path) then Insert(ds[..|ds| - 1], d) + [ds[|ds| - 1]]
    else ds + [d]
  }

  lemma {:induction false} InsertAdds(ds: seq<Packed>, d: Packed)
    ensures multiset(Insert(ds, d)) == multiset(ds) + multiset{d}
    decreases |ds|
  {
    if ds != [] {
      var n := |ds| - 1;
      assert ds == ds[..n] + [ds[n]];
      InsertAdds(ds[..n], d);
    }
  }

  lemma {:induction false} InsertSorts(ds: seq<Packed>, d: Packed)
    requires Descending(ds)
    ensures Descending(Insert(ds, d))
    decreases |ds|
  {
    hide Before;
    if ds != [] {
      var n := |ds| - 1;
      var last := ds[n];
      if Before(last.path, d.path) {
        InsertSorts(ds[..n], d);
        InsertAdds(ds[..n], d);
        BeforeAsymmetric(last.path, d.path);
        var r := Insert(ds[..n], d);
        forall i | 0 <= i < |r| ensures !Before(r[i].path, last.path) {
          assert r[i] in multiset(r);
          assert r[i] == d || r[i] in ds[..n];
        }
      } else {
        forall i | 0 <= i < n ensures !Before(ds[i].path, d.path) {
          BeforeTransitive(ds[i].path, last.path, d.path);
        }
      }
    }
  }

  /** Each directory comes after everything below it. */
  predicate DeepestFirst(order: seq<Packed>) {
    forall i, j :: 0 <= i < |order| && 0 <= j < |order| && order[i].directory && order[i].path < order[j].path ==> j < i
  }

  function PackedBytes(entries: seq<Packed>): nat {
    if entries == [] then 0 else PackedBytes(entries[..|entries| - 1]) + entries[|entries| - 1].size
  }

  lemma {:induction false} PackedBytesGrow(entries: seq<Packed>, i: nat)
    requires i <= |entries|
    ensures PackedBytes(entries[..i]) <= PackedBytes(entries)
    decreases |entries|
  {
    var n := |entries|;
    if i == n {
      assert entries[..i] == entries;
    } else {
      PackedBytesGrow(entries[..n - 1], i);
      assert entries[..n - 1][..i] == entries[..i];
    }
  }

  /** The entries of an archive the limits admit, each once, in the order they are unpacked:
      files as they come, then directories by descending path, so that every directory comes
      after everything below it. Otherwise some files only. */
  method UnpackLimited(entries: seq<Packed>, limits: Limits) returns (ok: bool, order: seq<Packed>)
    ensures ok <==> entries == [] || Within(limits, |entries|, PackedBytes(entries))
    ensures ok ==> multiset(order) == multiset(entries) && DeepestFirst(order)
    ensures !ok ==> multiset(order) <= multiset(entries) && forall e :: e in order ==> !e.directory
  {
    hide PackedBytes, Sorting, Within, DeepestFirst;
    var budget := new CopyBudget(limits);
    var directories: seq<Packed> := [];
    order := [];
    SortingStarts(entries);
    for i := 0 to |entries|
      invariant Sorting(entries, i, order, directories)
      invariant fresh(budget) && budget.limits == limits
      invariant budget.Charged(i, PackedBytes(entries[..i]))
      invariant i > 0 ==> Within(limits, i, PackedBytes(entries[..i]))
    {
      NextPacked(entries, i, order, directories);
      NextCharge(entries, i, limits);
      var fits := budget.Add(entries[i].size);
      if !fits {
        return false, order;
      }
      if entries[i].directory {
        directories := Insert(directories, entries[i]);
      } else {
        order := order + [entries[i]];
      }
    }
    SortingEnds(entries, order, directories);
    return true, order + directories;
  }

  /** After `i` entries: the files so far, and the directories so far in descending order. */
  ghost predicate Sorting(entries: seq<Packed>, i: nat, files: seq<Packed>, directories: seq<Packed>) {
    && i <= |entries|
    && multiset(files) + multiset(directories) == multiset(entries[..i])
    && Descending(directories)
    && forall e :: e in files ==> !e.directory
  }

  lemma SortingStarts(entries: seq<Packed>)
    ensures Sorting(entries, 0, [], []) && PackedBytes(entries[..0]) == 0
  {
  }

  lemma NextPacked(entries: seq<Packed>, i: nat, files: seq<Packed>, directories: seq<Packed>)
    requires Sorting(entries, i, files, directories) && i < |entries|
    ensures var e := entries[i];
            if e.directory then Sorting(entries, i + 1, files, Insert(directories, e))
            else Sorting(entries, i + 1, files + [e], directories)
    ensures multiset(files) <= multiset(entries) && forall e :: e in files ==> !e.directory
  {
    var e := entries[i];
    assert entries[..i + 1] == entries[..i] + [e];
    assert entries == entries[..i] + entries[i..];
    hide Descending, Insert;
    if e.directory {
      InsertSorts(directories, e);
      InsertAdds(directories, e);
    }
  }

  lemma NextCharge(entries: seq<Packed>, i: nat, limits: Limits)
    requires i < |entries|
    ensures var total := PackedBytes(entries[..i]) + entries[i].size;
            && total == PackedBytes(entries[..i + 1])
            && (Saturate(i + 1) <= limits.maxEntries && Saturate(total) <= limits.maxBytes <==> Within(limits, i + 1, total))
            && (!Within(limits, i + 1, total) ==> !Within(limits, |entries|, PackedBytes(entries)))
  {
    assert entries[..i + 1][..i] == entries[..i];
    PackedBytesGrow(entries, i + 1);
  }

  lemma SortingEnds(entries: seq<Packed>, files: seq<Packed>, directories: seq<Packed>)
    requires Sorting(entries, |entries|, files, directories)
    ensures multiset(files + directories) == multiset(entries) && DeepestFirst(files + directories)
    ensures entries[..|entries|] == entries
  {
    assert entries[..|entries|] == entries;
    UnpackOrder(files, directories);
  }

  lemma UnpackOrder(files: seq<Packed>, directories: seq<Packed>)
    requires Descending(directories) && forall e :: e in files ==> !e.directory
    ensures DeepestFirst(files + directories)
  {
    hide Before;
    var order, n := files + directories, |files|;
    assert forall k :: 0 <= k < n ==> !order[k].directory;
    assert forall k, l :: n <= k < l < |order| ==> !Before(order[k].path, order[l].path);
    forall i, j | 0 <= i < |order| && 0 <= j < |order| && order[i].directory && order[i].path < order[j].path
      ensures j < i
    {
      PrefixBefore(order[i].path, order[j].path);
    }
  }
}
