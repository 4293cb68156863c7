/** Types shared by every component: bytes, machine-word bounds and optional values. */
module Common {
  type Byte = b: int | 0 <= b < 256

  const U32_MAX: nat := 0xFFFF_FFFF
  const U64_MAX: nat := 0xFFFF_FFFF_FFFF_FFFF

  datatype Option<+T> = None | Some(value: T)

  datatype Result<+T> = Ok(value: T) | Err

  function Concat(parts: seq<seq<Byte>>): seq<Byte> {
    if parts == [] then [] else parts[0] + Concat(parts[1..])
  }

  lemma {:induction false} ConcatAppend(a: seq<seq<Byte>>, b: seq<seq<Byte>>)
    ensures Concat(a + b) == Concat(a) + Concat(b)
    decreases |a|
  {
    if a == [] {
      assert a + b == b;
    } else {
      ConcatAppend(a[1..], b);
      assert (a + b)[1..] == a[1..] + b && (a + b)[0] == a[0];
      var rest, more := Concat(a[1..]), Concat(b);
      assert Concat(a + b) == a[0] + (rest + more) && Concat(a) == a[0] + rest;
      hide Concat;
      assert a[0] + (rest + more) == a[0] + rest + more;
    }
  }

  lemma ConcatOne(part: seq<Byte>)
    ensures Concat([part]) == part
  {
    assert Concat([part]) == part + Concat([]);
  }

  lemma ConcatSnoc(parts: seq<seq<Byte>>, part: seq<Byte>)
    ensures Concat(parts + [part]) == Concat(parts) + part
  {
    ConcatOne(part);
    hide Concat;
    ConcatAppend(parts, [part]);
  }

  lemma ConcatStep(parts: seq<seq<Byte>>, i: nat)
    requires i < |parts|
    ensures Concat(parts[..i + 1]) == Concat(parts[..i]) + parts[i]
  {
    var more := parts[..i + 1];
    assert more[..i] == parts[..i] && more[i] == parts[i] && more == more[..i] + [more[i]];
    ConcatSnoc(more[..i], more[i]);
  }

  lemma ConcatPrefix(parts: seq<seq<Byte>>, i: nat)
    requires i <= |parts|
    ensures Concat(parts[..i]) <= Concat(parts)
  {
    hide Concat;
    assert parts == parts[..i] + parts[i..];
    ConcatAppend(parts[..i], parts[i..]);
  }

  function Min(a: int, b: int): int {
    if a < b then a else b
  }

  function Max(a: int, b: int): int {
    if a < b then b else a
  }
}
