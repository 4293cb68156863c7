/** The SSH wire format where hush writes it and where it reads it back: length-prefixed
    strings and multiple-precision integers (section 5 of RFC 4251), ECDSA signatures
    (section 3.1.2 of RFC 5656), and the identities answer of an ssh-agent. */
module SshWire {
  import opened Common

  type Bytes = seq<Byte>

  const WORD: nat := 0x1_0000_0000

  // ----- Numbers -----

  /** The big-endian value of a byte string. */
  function Value(bs: Bytes): nat {
    if bs == [] then 0 else Value(bs[..|bs| - 1]) * 256 + bs[|bs| - 1]
  }

  /** `as u32` and `to_be_bytes`: the length modulo 2^32, in four bytes. */
  function U32(n: nat): (bs: Bytes)
    ensures |bs| == 4
  {
    [n / 0x100_0000 % 256, n / 0x1_0000 % 256, n / 0x100 % 256, n % 256]
  }

  function FromU32(bs: Bytes): (n: nat)
    requires |bs| == 4
    ensures n < WORD
  {
    var a: int, b: int, c: int, d: int := bs[0], bs[1], bs[2], bs[3];
    ((a * 256 + b) * 256 + c) * 256 + d
  }

  lemma U32Truncates(n: nat)
    ensures FromU32(U32(n)) == n % WORD
  {
    var a, b, c := n / 0x100, n / 0x1_0000, n / 0x100_0000;
    assert b == a / 256 && c == b / 256;
    assert FromU32(U32(n)) == n - c / 256 * WORD;
  }

  lemma U32Unique(bs: Bytes)
    requires |bs| == 4
    ensures U32(FromU32(bs)) == bs
  {
    var n := FromU32(bs);
    var a: int, b: int, c: int, d: int := bs[0], bs[1], bs[2], bs[3];
    assert n % 256 == d && n / 256 == (a * 256 + b) * 256 + c;
    assert n / 0x1_0000 == n / 256 / 256 == a * 256 + b;
    assert n / 0x100_0000 == n / 0x1_0000 / 256 == a;
  }

  // ----- Strings -----

  function PutString(data: Bytes): Bytes {
    U32(|data|) + data
  }

  datatype Split<+T> = Split(head: T, rest: Bytes)

  function ReadU32(buf: Bytes): Result<Split<nat>> {
    if |buf| < 4 then Err else Ok(Split(FromU32(buf[..4]), buf[4..]))
  }

  /** What both readers do: a length, then that many bytes. */
  function ReadString(buf: Bytes): Result<Split<Bytes>> {
    match ReadU32(buf)
    case Err => Err
    case Ok(Split(len, rest)) => if |rest| < len then Err else Ok(Split(rest[..len], rest[len..]))
  }

  lemma ReadAfterU32(n: nat, rest: Bytes)
    ensures ReadU32(U32(n) + rest) == Ok(Split(n % WORD, rest))
  {
    U32Truncates(n);
    assert (U32(n) + rest)[..4] == U32(n) && (U32(n) + rest)[4..] == rest;
  }

  /** A string is read back, with what follows it left over, exactly if its length fits the
      length field. */
  lemma StringRoundTrip(data: Bytes, rest: Bytes)
    ensures ReadString(PutString(data) + rest) == Ok(Split(data, rest)) <==> |data| < WORD
  {
    hide U32, ReadU32;
    assert PutString(data) + rest == U32(|data|) + (data + rest);
    ReadAfterU32(|data|, data + rest);
    var len := |data| % WORD;
    assert |data| < WORD ==> len == |data| && (data + rest)[..len] == data && (data + rest)[len..] == rest;
  }

  /** Whatever was read is what such a string would have been written as. */
  lemma ReadStringInverts(buf: Bytes)
    requires ReadString(buf).Ok?
    ensures var s := ReadString(buf).value; |s.head| < WORD && buf == PutString(s.head) + s.rest
  {
    var s := ReadString(buf).value;
    var len, rest := FromU32(buf[..4]), buf[4..];
    assert ReadU32(buf) == Ok(Split(len, rest)) && s == Split(rest[..len], rest[len..]);
    U32Unique(buf[..4]);
    hide U32, FromU32, ReadU32, ReadString;
    assert rest == s.head + s.rest && |s.head| == len;
    assert buf == buf[..4] + rest == buf[..4] + s.head + s.rest;
  }

  /** The reader of OpenSSH private keys, a cursor over the bytes that are left. */
  class SshReader {
    var buf: Bytes

    constructor (buf: Bytes)
      ensures this.buf == buf
    {
      this.buf := buf;
    }

    method Take(n: nat) returns (r: Result<Bytes>)
      modifies this
      ensures r.Ok? <==> n <= |old(buf)|
      ensures if r.Ok? then r.value == old(buf)[..n] && buf == old(buf)[n..] else buf == old(buf)
    {
      if |buf| < n {
        return Err;
      }
      r := Ok(buf[..n]);
      buf := buf[n..];
    }

    method ReadNumber() returns (r: Result<nat>)
      modifies this
      ensures r.Err? <==> ReadU32(old(buf)).Err?
      ensures r.Err? ==> buf == old(buf)
      ensures r.Ok? ==> Split(r.value, buf) == ReadU32(old(buf)).value
    {
      var bytes := Take(4);
      if bytes.Err? {
        return Err;
      }
      return Ok(FromU32(bytes.value));
    }

    method ReadBytes() returns (r: Result<Bytes>)
      modifies this
      ensures r.Err? <==> ReadString(old(buf)).Err?
      ensures r.Ok? ==> Split(r.value, buf) == ReadString(old(buf)).value
    {
      var len := ReadNumber();
      if len.Err? {
        return Err;
      }
      r := Take(len.value);
    }
  }

  // ----- Multiple-precision integers -----

  /** The index of the first byte from `i` on that is not zero, or the length. */
  function FirstNonZero(m: Bytes, i: nat): (z: nat)
    requires i <= |m|
    ensures i <= z <= |m| && (z < |m| ==> m[z] != 0)
    ensures forall k :: i <= k < z ==> m[k] == 0
    decreases |m| - i
  {
    if i < |m| && m[i] == 0 then FirstNonZero(m, i + 1) else i
  }

  /** Without leading zero bytes. */
  function Trim(m: Bytes): (t: Bytes)
    ensures |t| <= |m| && m[|m| - |t|..] == t
    ensures forall i :: 0 <= i < |m| - |t| ==> m[i] == 0
    ensures t != [] ==> t[0] != 0
  {
    m[FirstNonZero(m, 0)..]
  }

  /** Those properties leave no choice. */
  lemma TrimIs(m: Bytes, t: Bytes)
    requires |t| <= |m| && m[|m| - |t|..] == t && (t != [] ==> t[0] != 0)
    requires forall i :: 0 <= i < |m| - |t| ==> m[i] == 0
    ensures Trim(m) == t
  {
    var z, y := FirstNonZero(m, 0), |m| - |t|;
    assert y < |m| ==> m[y] == t[0];
    assert z == y;
  }

  /** The contents of an mpint: a zero byte in front if the top bit would be a sign. */
  function MpintBody(m: Bytes): Bytes {
    var t := Trim(m);
    if t != [] && t[0] >= 0x80 then [0] + t else t
  }

  predicate NonNegative(c: Bytes) {
    c == [] || c[0] < 0x80
  }

  /** Non-negative and with no byte in front that could be left out. */
  predicate Canonical(c: Bytes) {
    NonNegative(c) && !(c != [] && c[0] == 0 && (|c| == 1 || c[1] < 0x80))
  }

  lemma {:induction false} ValueOfZeros(m: Bytes, z: nat)
    requires z <= |m| && forall i :: 0 <= i < z ==> m[i] == 0
    ensures Value(m) == Value(m[z..])
    decreases |m|
  {
    if z < |m| {
      var n := |m| - 1;
      ValueOfZeros(m[..n], z);
      assert m[z..][..n - z] == m[..n][z..];
    } else if m != [] {
      ValueOfZeros(m[..z - 1], z - 1);
      assert m[..z - 1][z - 1..] == [] == m[z..];
    }
  }

  lemma TrimKeepsValue(m: Bytes)
    ensures Value(Trim(m)) == Value(m)
  {
    ValueOfZeros(m, |m| - |Trim(m)|);
  }

  lemma {:induction false} TrimmedIsPositive(t: Bytes)
    requires t != [] && t[0] != 0
    ensures Value(t) > 0
    decreases |t|
  {
    if |t| > 1 {
      TrimmedIsPositive(t[..|t| - 1]);
    }
  }

  /** A byte string without leading zeros is determined by its value. */
  lemma {:induction false} TrimmedByValue(a: Bytes, b: Bytes)
    requires (a != [] ==> a[0] != 0) && (b != [] ==> b[0] != 0) && Value(a) == Value(b)
    ensures a == b
    decreases |a|
  {
    if a == [] {
      if b != [] {
        TrimmedIsPositive(b);
      }
    } else if b == [] {
      TrimmedIsPositive(a);
    } else {
      var i, j := a[..|a| - 1], b[..|b| - 1];
      assert Value(i) == Value(j) && a[|a| - 1] == b[|b| - 1];
      TrimmedByValue(i, j);
      assert a == i + [a[|a| - 1]] && b == j + [b[|b| - 1]];
    }
  }

  lemma TrimOfBody(m: Bytes)
    ensures Trim(MpintBody(m)) == Trim(m)
  {
    hide Trim;
    var t := Trim(m);
    if t != [] && t[0] >= 0x80 {
      PaddedTrims(t);
    } else {
      TrimmedTrims(t);
    }
  }

  lemma TrimmedTrims(t: Bytes)
    requires t != [] ==> t[0] != 0
    ensures Trim(t) == t
  {
    assert t[0..] == t;
    TrimIs(t, t);
  }

  lemma PaddedTrims(t: Bytes)
    requires t != [] && t[0] != 0
    ensures Trim([0] + t) == t
  {
    assert ([0] + t)[1..] == t;
    TrimIs([0] + t, t);
  }

  lemma SameTrimByValue(a: Bytes, b: Bytes)
    requires Value(a) == Value(b)
    ensures Trim(a) == Trim(b)
  {
    TrimKeepsValue(a);
    TrimKeepsValue(b);
    TrimmedByValue(Trim(a), Trim(b));
  }

  /** The encoding keeps the value, and is the one canonical non-negative form of it. */
  lemma MpintIsCanonical(m: Bytes, c: Bytes)
    ensures Value(MpintBody(m)) == Value(m) && Canonical(MpintBody(m))
    ensures Canonical(c) && Value(c) == Value(m) ==> c == MpintBody(m)
  {
    hide Trim, Value;
    TrimOfBody(m);
    TrimKeepsValue(m);
    TrimKeepsValue(MpintBody(m));
    if Canonical(c) && Value(c) == Value(m) {
      SameTrimByValue(c, m);
      CanonicalIsBody(c);
    }
  }

  lemma CanonicalIsBody(c: Bytes)
    requires Canonical(c)
    ensures MpintBody(c) == c
  {
    hide Trim;
    if c != [] && c[0] == 0 {
      assert c == [0] + c[1..];
      PaddedTrims(c[1..]);
    } else {
      TrimmedTrims(c);
    }
  }

  /** No non-negative form of the value is shorter. */
  lemma MpintIsShortest(m: Bytes, c: Bytes)
    requires NonNegative(c) && Value(c) == Value(m)
    ensures |MpintBody(m)| <= |c|
  {
    hide Trim, Value;
    SameTrimByValue(c, m);
  }

  /** `put_mpint`: the length and the contents, appended to the buffer. */
  method PutMpint(buf: Bytes, magnitude: Bytes) returns (out: Bytes)
    ensures out == buf + PutString(MpintBody(magnitude))
  {
    hide U32;
    var start := 0;
    while start < |magnitude| && magnitude[start] == 0
      invariant start <= |magnitude| && FirstNonZero(magnitude, 0) == FirstNonZero(magnitude, start)
    {
      start := start + 1;
    }
    var trimmed := magnitude[start..];
    assert trimmed == Trim(magnitude);
    hide Trim, FirstNonZero;
    var pad := trimmed != [] && trimmed[0] >= 0x80;
    out := buf + U32(|trimmed| + if pad then 1 else 0);
    if pad {
      out := out + [0];
    }
    out := out + trimmed;
    assert pad ==> buf + U32(|trimmed| + 1) + [0] + trimmed == buf + (U32(|trimmed| + 1) + ([0] + trimmed));
    assert !pad ==> buf + U32(|trimmed|) + trimmed == buf + (U32(|trimmed|) + trimmed);
  }

  // ----- Scalars of fixed width -----

  function Zeros(n: nat): (z: Bytes)
    ensures |z| == n && forall i :: 0 <= i < n ==> z[i] == 0
  {
    seq(n, _ => 0)
  }

  function NormalizeScalar(mpint: Bytes, size: nat): Result<Bytes> {
    var t := Trim(mpint);
    if |t| > size then Err else Ok(Zeros(size - |t|) + t)
  }

  /** The scalar is the byte string of that width with the same value; there is none exactly
      if the value needs more bytes. */
  lemma NormalizeMeans(mpint: Bytes, size: nat, x: Bytes)
    requires |x| == size
    ensures NormalizeScalar(mpint, size) == Ok(x) <==> Value(x) == Value(mpint)
  {
    hide Trim, Value, Zeros;
    var t := Trim(mpint);
    TrimKeepsValue(mpint);
    if |t| <= size {
      PaddedValue(t, size - |t|);
    }
    if Value(x) == Value(mpint) {
      SameTrimByValue(x, mpint);
      PaddedBack(x);
    }
  }

  lemma PaddedValue(t: Bytes, n: nat)
    ensures Value(Zeros(n) + t) == Value(t)
  {
    assert (Zeros(n) + t)[n..] == t;
    ValueOfZeros(Zeros(n) + t, n);
  }

  lemma PaddedBack(x: Bytes)
    ensures |Trim(x)| <= |x| && Zeros(|x| - |Trim(x)|) + Trim(x) == x
  {
    hide Trim, Zeros;
    var n := |x| - |Trim(x)|;
    assert x == x[..n] + x[n..] && x[..n] == Zeros(n);
  }

  /** A magnitude written as an mpint comes back unchanged at its own width. */
  lemma ScalarRoundTrip(m: Bytes)
    ensures NormalizeScalar(MpintBody(m), |m|) == Ok(m)
  {
    hide Value, NormalizeScalar, MpintBody;
    MpintIsCanonical(m, []);
    NormalizeMeans(MpintBody(m), |m|, m);
  }

  method NormalizedScalar(mpint: Bytes, size: nat) returns (r: Result<Bytes>)
    ensures r == NormalizeScalar(mpint, size)
  {
    var start := 0;
    while start < |mpint| && mpint[start] == 0
      invariant start <= |mpint| && FirstNonZero(mpint, 0) == FirstNonZero(mpint, start)
    {
      start := start + 1;
    }
    var trimmed := mpint[start..];
    assert trimmed == Trim(mpint);
    hide Trim, FirstNonZero;
    if |trimmed| > size {
      return Err;
    }
    var out, offset := new Byte[size](_ => 0), size - |trimmed|;
    forall i | 0 <= i < |trimmed| {
      out[offset + i] := trimmed[i];
    }
    hide Zeros;
    assert out[..] == Zeros(offset) + trimmed;
    return Ok(out[..]);
  }

  // ----- ECDSA signatures -----

  /** A fixed-width `r || s` signature as two mpints; empty or odd lengths are errors. */
  method EcdsaFixedToSsh(fixed: Bytes) returns (out: Result<Bytes>)
    ensures out == EncodeSignature(fixed)
  {
    if fixed == [] || |fixed| % 2 != 0 {
      return Err;
    }
    var half := |fixed| / 2;
    var blob := PutMpint([], fixed[..half]);
    blob := PutMpint(blob, fixed[half..]);
    return Ok(blob);
  }

  function EncodeSignature(fixed: Bytes): Result<Bytes> {
    if fixed == [] || |fixed| % 2 != 0 then Err
    else
      var half := |fixed| / 2;
      Ok([] + PutString(MpintBody(fixed[..half])) + PutString(MpintBody(fixed[half..])))
  }

  /** Two mpints read back at the width of the curve. */
  function DecodeSignature(blob: Bytes, size: nat): Result<Bytes> {
    match ReadString(blob)
    case Err => Err
    case Ok(Split(r, rest)) =>
      match ReadString(rest)
      case Err => Err
      case Ok(Split(s, tail)) =>
        if tail != [] || NormalizeScalar(r, size).Err? || NormalizeScalar(s, size).Err? then Err
        else Ok(NormalizeScalar(r, size).value + NormalizeScalar(s, size).value)
  }

  /** An mpint too long for its length field is cut short when it is read, and no shorter
      field has its value. */
  lemma OverlongIsLost(m: Bytes, rest: Bytes)
    requires |MpintBody(m)| >= WORD
    requires ReadString(PutString(MpintBody(m)) + rest).Ok?
    ensures Value(ReadString(PutString(MpintBody(m)) + rest).value.head) != Value(m)
  {
    hide Value;
    var body := MpintBody(m);
    var head := ReadString(PutString(body) + rest).value.head;
    assert PutString(body) + rest == U32(|body|) + (body + rest);
    ReadAfterU32(|body|, body + rest);
    assert head == body[..|body| % WORD];
    MpintIsCanonical(m, body);
    if Value(head) == Value(m) {
      MpintIsShortest(m, head);
    }
  }

  lemma NormalizedLength(mpint: Bytes, size: nat)
    requires NormalizeScalar(mpint, size).Ok?
    ensures |NormalizeScalar(mpint, size).value| == size
  {
  }

  /** What a decoded signature says about the two fields it was read from. */
  lemma DecodedFields(blob: Bytes, r: Bytes, s: Bytes)
    requires |r| == |s| && DecodeSignature(blob, |r|) == Ok(r + s)
    ensures ReadString(blob).Ok? && Value(ReadString(blob).value.head) == Value(r)
    ensures ReadString(ReadString(blob).value.rest).Ok?
    ensures Value(ReadString(ReadString(blob).value.rest).value.head) == Value(s)
  {
    hide ReadString, NormalizeScalar, Value;
    var size := |r|;
    var first := ReadString(blob).value;
    var second := ReadString(first.rest).value;
    var x, y := NormalizeScalar(first.head, size).value, NormalizeScalar(second.head, size).value;
    NormalizedLength(first.head, size);
    NormalizedLength(second.head, size);
    assert x == (x + y)[..size] == (r + s)[..size] == r;
    assert y == (x + y)[size..] == (r + s)[size..] == s;
    NormalizeMeans(first.head, size, r);
    NormalizeMeans(second.head, size, s);
  }

  /** Both mpints of the signature fit their length fields. */
  predicate SignatureFits(fixed: Bytes) {
    |MpintBody(fixed[..|fixed| / 2])| < WORD && |MpintBody(fixed[|fixed| / 2..])| < WORD
  }

  /** A signature survives the encoding exactly if its mpints fit their length fields. */
  lemma SignatureRoundTrip(fixed: Bytes)
    requires EncodeSignature(fixed).Ok?
    ensures DecodeSignature(EncodeSignature(fixed).value, |fixed| / 2) == Ok(fixed) <==> SignatureFits(fixed)
  {
    hide PutString, MpintBody, ReadString, NormalizeScalar;
    var half := |fixed| / 2;
    var r, s := fixed[..half], fixed[half..];
    var pr, ps := PutString(MpintBody(r)), PutString(MpintBody(s));
    var blob := EncodeSignature(fixed).value;
    assert [] + pr + ps == pr + ps && ps + [] == ps;
    assert r + s == fixed;
    StringRoundTrip(MpintBody(r), ps);
    StringRoundTrip(MpintBody(s), []);
    ScalarRoundTrip(r);
    ScalarRoundTrip(s);
    if DecodeSignature(blob, half) == Ok(fixed) && !SignatureFits(fixed) {
      DecodedFields(blob, r, s);
      if |MpintBody(r)| >= WORD {
        OverlongIsLost(r, ps);
      } else {
        OverlongIsLost(s, []);
      }
    }
  }

  // ----- The identities answer of an ssh-agent -----

  const IDENTITIES_ANSWER: Byte := 12
  const MAX_AGENT_MESSAGE_SIZE: nat := 1024 * 1024

  datatype Identity = Identity(key: Bytes, comment: Bytes)

  /** The lengths of both fields fit their length fields. */
  predicate Fits(id: Identity) {
    |id.key| < WORD && |id.comment| < WORD
  }

  predicate AllFit(ids: seq<Identity>) {
    forall id :: id in ids ==> Fits(id)
  }

  predicate Encodable(ids: seq<Identity>) {
    |ids| <= MAX_AGENT_MESSAGE_SIZE / 8 && AllFit(ids)
  }

  function EncodeAll(ids: seq<Identity>): Bytes {
    if ids == [] then [] else PutString(ids[0].key) + PutString(ids[0].comment) + EncodeAll(ids[1..])
  }

  function EncodeAnswer(ids: seq<Identity>): Bytes {
    [IDENTITIES_ANSWER] + U32(|ids|) + EncodeAll(ids)
  }

  function ReadIdentity(buf: Bytes): Result<Split<Identity>> {
    match ReadString(buf)
    case Err => Err
    case Ok(Split(key, rest)) =>
      match ReadString(rest)
      case Err => Err
      case Ok(Split(comment, tail)) => Ok(Split(Identity(key, comment), tail))
  }

  function ReadIdentities(buf: Bytes, count: nat): Result<Split<seq<Identity>>>
    decreases count
  {
    if count == 0 then Ok(Split([], buf))
    else
      match ReadIdentity(buf)
      case Err => Err
      case Ok(Split(id, rest)) =>
        match ReadIdentities(rest, count - 1)
        case Err => Err
        case Ok(Split(ids, tail)) => Ok(Split([id] + ids, tail))
  }

  /** The whole answer: its kind, a count, that many identities, and nothing after them. */
  function ParseAnswer(response: Bytes): Result<seq<Identity>> {
    if response == [] || response[0] != IDENTITIES_ANSWER then Err
    else
      match ReadU32(response[1..])
      case Err => Err
      case Ok(Split(count, body)) =>
        if count > MAX_AGENT_MESSAGE_SIZE / 8 then Err
        else
          match ReadIdentities(body, count)
          case Err => Err
          case Ok(Split(ids, tail)) => if tail != [] then Err else Ok(ids)
  }

  /** The keys that the key library recognises, in order. */
  function KnownKeys(ids: seq<Identity>, known: Bytes -> bool): seq<Bytes> {
    if ids == [] then []
    else
      var n := |ids| - 1;
      KnownKeys(ids[..n], known) + if known(ids[n].key) then [ids[n].key] else []
  }

  /** The parse loop: a cursor over the body, the list of recognised keys growing. */
  method ListIdentities(response: Bytes, known: Bytes -> bool) returns (r: Result<seq<Bytes>>)
    ensures r.Err? <==> ParseAnswer(response).Err?
    ensures r.Ok? ==> r.value == KnownKeys(ParseAnswer(response).value, known)
  {
    hide ReadString, ReadIdentities, ReadU32, KnownKeys;
    if response == [] || response[0] != IDENTITIES_ANSWER {
      return Err;
    }
    var header := ReadU32(response[1..]);
    if header.Err? {
      return Err;
    }
    var count, body := header.value.head, header.value.rest;
    if count > MAX_AGENT_MESSAGE_SIZE / 8 {
      return Err;
    }
    var identities: seq<Bytes> := [];
    ghost var parsed: seq<Identity> := [];
    ghost var whole := ReadIdentities(body, count);
    ReadStarts(whole, known);
    for i := 0 to count
      invariant identities == KnownKeys(parsed, known)
      invariant ReadOn(whole, parsed, ReadIdentities(body, count - i))
    {
      hide ReadOn;
      ReadOneMore(whole, parsed, body, count - i, known);
      var key := ReadString(body);
      if key.Err? {
        return Err;
      }
      var comment := ReadString(key.value.rest);
      if comment.Err? {
        return Err;
      }
      parsed := parsed + [Identity(key.value.head, comment.value.head)];
      body := comment.value.rest;
      if known(key.value.head) {
        identities := identities + [key.value.head];
      }
    }
    ReadEnds(whole, parsed, body);
    if body != [] {
      return Err;
    }
    return Ok(identities);
  }

  lemma ReadStarts(whole: Result<Split<seq<Identity>>>, known: Bytes -> bool)
    ensures ReadOn(whole, [], whole) && KnownKeys([], known) == []
  {
    assert whole.Ok? ==> [] + whole.value.head == whole.value.head;
  }

  lemma ReadOneMore(whole: Result<Split<seq<Identity>>>, parsed: seq<Identity>, body: Bytes, n: nat, known: Bytes -> bool)
    requires n > 0 && ReadOn(whole, parsed, ReadIdentities(body, n))
    ensures match ReadString(body)
            case Err => whole.Err?
            case Ok(Split(key, rest)) =>
              match ReadString(rest)
              case Err => whole.Err?
              case Ok(Split(comment, tail)) =>
                var more := parsed + [Identity(key, comment)];
                && ReadOn(whole, more, ReadIdentities(tail, n - 1))
                && KnownKeys(more, known) == KnownKeys(parsed, known) + if known(key) then [key] else []
  {
    hide ReadString;
    var first := ReadIdentity(body);
    if first.Ok? {
      var id, later := first.value.head, ReadIdentities(first.value.rest, n - 1);
      assert (parsed + [id])[..|parsed|] == parsed;
      assert later.Ok? ==> parsed + ([id] + later.value.head) == parsed + [id] + later.value.head;
    }
  }

  lemma ReadEnds(whole: Result<Split<seq<Identity>>>, parsed: seq<Identity>, body: Bytes)
    requires ReadOn(whole, parsed, ReadIdentities(body, 0))
    ensures whole == Ok(Split(parsed, body))
  {
    assert parsed + [] == parsed;
  }

  /** `whole` is `parsed` followed by what `later` still reads. */
  predicate ReadOn(whole: Result<Split<seq<Identity>>>, parsed: seq<Identity>, later: Result<Split<seq<Identity>>>) {
    && (whole.Err? <==> later.Err?)
    && (later.Ok? ==> whole.value == Split(parsed + later.value.head, later.value.rest))
  }

  lemma IdentityRoundTrip(id: Identity, rest: Bytes)
    requires Fits(id)
    ensures ReadIdentity(PutString(id.key) + PutString(id.comment) + rest) == Ok(Split(id, rest))
  {
    hide PutString, ReadString;
    StringRoundTrip(id.key, PutString(id.comment) + rest);
    StringRoundTrip(id.comment, rest);
    assert PutString(id.key) + PutString(id.comment) + rest == PutString(id.key) + (PutString(id.comment) + rest);
  }

  lemma {:induction false} IdentitiesRoundTrip(ids: seq<Identity>, rest: Bytes)
    requires AllFit(ids)
    ensures ReadIdentities(EncodeAll(ids) + rest, |ids|) == Ok(Split(ids, rest))
    decreases |ids|
  {
    hide PutString, ReadIdentity;
    if ids == [] {
      assert EncodeAll(ids) + rest == rest;
    } else {
      var head := PutString(ids[0].key) + PutString(ids[0].comment);
      assert EncodeAll(ids) + rest == head + (EncodeAll(ids[1..]) + rest);
      IdentityRoundTrip(ids[0], EncodeAll(ids[1..]) + rest);
      IdentitiesRoundTrip(ids[1..], rest);
      assert ids == [ids[0]] + ids[1..];
    }
  }

  lemma {:induction false} ReadIdentitiesInverts(buf: Bytes, count: nat)
    requires ReadIdentities(buf, count).Ok?
    ensures var s := ReadIdentities(buf, count).value;
            |s.head| == count && AllFit(s.head) && buf == EncodeAll(s.head) + s.rest
    decreases count
  {
    hide ReadIdentity;
    if count == 0 {
      assert EncodeAll([]) + buf == buf;
    } else {
      hide EncodeAll, PutString;
      ReadIdentityInverts(buf);
      var first := ReadIdentity(buf).value;
      ReadIdentitiesInverts(first.rest, count - 1);
      var more := ReadIdentities(first.rest, count - 1).value;
      EncodeOneMore(first.head, more.head, more.rest);
      AllFitMore(first.head, more.head);
    }
  }

  lemma AllFitMore(id: Identity, ids: seq<Identity>)
    requires Fits(id) && AllFit(ids)
    ensures AllFit([id] + ids)
  {
  }

  lemma EncodeOneMore(id: Identity, ids: seq<Identity>, rest: Bytes)
    ensures EncodeAll([id] + ids) + rest == PutString(id.key) + PutString(id.comment) + (EncodeAll(ids) + rest)
  {
    hide PutString;
    assert ([id] + ids)[1..] == ids;
    var head := PutString(id.key) + PutString(id.comment);
    assert head + EncodeAll(ids) + rest == head + (EncodeAll(ids) + rest);
  }

  lemma ReadIdentityInverts(buf: Bytes)
    requires ReadIdentity(buf).Ok?
    ensures var s := ReadIdentity(buf).value;
            Fits(s.head) && buf == PutString(s.head.key) + PutString(s.head.comment) + s.rest
  {
    hide PutString, ReadString;
    ReadStringInverts(buf);
    var key := ReadString(buf).value;
    ReadStringInverts(key.rest);
    var comment := ReadString(key.rest).value;
    assert buf == PutString(key.head) + (PutString(comment.head) + comment.rest);
  }

  /** The parser accepts exactly the encodings, and returns what was encoded. */
  lemma ParserInverts(response: Bytes, ids: seq<Identity>)
    ensures ParseAnswer(response) == Ok(ids) <==> Encodable(ids) && response == EncodeAnswer(ids)
  {
    if Encodable(ids) && response == EncodeAnswer(ids) {
      AnswerThen(ids, []);
      assert EncodeAnswer(ids) + [] == EncodeAnswer(ids);
    }
    if ParseAnswer(response) == Ok(ids) {
      ParsedIsEncoded(response);
    }
  }

  lemma ParsedIsEncoded(response: Bytes)
    requires ParseAnswer(response).Ok?
    ensures var ids := ParseAnswer(response).value; Encodable(ids) && response == EncodeAnswer(ids)
  {
    var ids, body := ParseAnswer(response).value, response[1..];
    var s := ReadU32(body).value;
    U32Unique(body[..4]);
    hide U32, FromU32, ReadIdentities, EncodeAll, AllFit;
    ReadIdentitiesInverts(s.rest, s.head);
    assert EncodeAll(ids) + [] == EncodeAll(ids);
    assert response == [response[0]] + body && body == body[..4] + body[4..];
    assert [response[0]] + (body[..4] + body[4..]) == [response[0]] + body[..4] + body[4..];
  }

  /** Parsing an encoding with something after it. */
  lemma AnswerThen(ids: seq<Identity>, more: Bytes)
    requires Encodable(ids)
    ensures ParseAnswer(EncodeAnswer(ids) + more) == if more == [] then Ok(ids) else Err
  {
    hide U32, ReadIdentities, EncodeAll;
    var response, body := EncodeAnswer(ids) + more, EncodeAll(ids) + more;
    assert response[1..] == U32(|ids|) + body && response[0] == IDENTITIES_ANSWER;
    ReadAfterU32(|ids|, body);
    IdentitiesRoundTrip(ids, more);
  }

  /** An accepted answer with anything added is refused, and so is every proper prefix. */
  lemma AnswersAreExact(response: Bytes, more: Bytes)
    requires more != []
    ensures !(ParseAnswer(response).Ok? && ParseAnswer(response + more).Ok?)
  {
    hide ParseAnswer, EncodeAnswer, Encodable;
    if ParseAnswer(response).Ok? {
      var ids := ParseAnswer(response).value;
      ParserInverts(response, ids);
      AnswerThen(ids, more);
    }
  }
}
