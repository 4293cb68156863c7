/** What the escape filter guarantees over every run: nothing is lost or reordered, an
    escape is reported exactly for Enter, `~`, `.`, and read boundaries matter only in
    the two places where the tokeniser does not wait. */
module EscapeLaws {
  import opened Common
  import opened Escapes

  // ----- Tokenising and filtering as two passes -----

  /** A tokenised read: its tokens, and what is left unfinished. */
  datatype Stream = End(leftover: seq<Byte>) | Press(key: Key, bytes: seq<Byte>, rest: Stream) {
    predicate Valid() {
      match this
      case End(l) => l != [] ==> Unfinished(l) && |l| <= MAX_PARTIAL_CSI_LEN
      case Press(_, bytes, rest) => bytes != [] && rest.Valid()
    }

    function Leftover(): seq<Byte> {
      if End? then leftover else rest.Leftover()
    }

    function Bytes(): seq<Byte> {
      if End? then leftover else bytes + rest.Bytes()
    }

    /** The key presses among the tokens. */
    function Pressed(): seq<Key> {
      if End? then [] else (if key == Ignore then [] else [key]) + rest.Pressed()
    }
  }

  function Tokenise(kitty: Classifier, input: seq<Byte>): (s: Stream)
    ensures s.Valid()
    decreases |input|
  {
    if input == [] then End([])
    else
      match NextKey(kitty, input)
      case None => End(input)
      case Some(Token(len, key)) => Press(key, input[..len], Tokenise(kitty, input[len..]))
  }

  /** The filter over a tokenised read. */
  function Feed(st: State, s: Stream): Outcome
    decreases s
  {
    match s
    case End(l) => Outcome(false, st.(partial := st.partial + l), [])
    case Press(key, bytes, rest) =>
      var o := Handle(st, key, bytes);
      if o.escaped then o else After(o.out, Feed(o.st, rest))
  }

  lemma {:induction false} ScanIsFeed(kitty: Classifier, st: State, input: seq<Byte>)
    ensures Scan(kitty, st, input) == Feed(st, Tokenise(kitty, input))
    decreases |input|
  {
    if input != [] {
      match NextKey(kitty, input)
      case None =>
      case Some(Token(len, key)) =>
        ScanIsFeed(kitty, Handle(st, key, input[..len]).st, input[len..]);
    } else {
      assert st.partial + [] == st.partial;
    }
  }

  lemma {:induction false} TokeniseKeeps(kitty: Classifier, input: seq<Byte>)
    ensures Tokenise(kitty, input).Bytes() == input
    decreases |input|
  {
    if input != [] {
      match NextKey(kitty, input)
      case None =>
      case Some(Token(len, _)) =>
        TokeniseKeeps(kitty, input[len..]);
        assert input == input[..len] + input[len..];
    }
  }

  // ----- The carried state -----

  lemma {:induction false} FeedValid(st: State, s: Stream)
    requires st.Valid() && st.partial == [] && s.Valid()
    ensures Feed(st, s).st.Valid()
    decreases s
  {
    match s
    case End(l) => assert st.partial + l == l;
    case Press(key, bytes, rest) =>
      var o := Handle(st, key, bytes);
      if !o.escaped {
        FeedValid(o.st, rest);
      }
  }

  /** Over every run the carried partial is empty or an unfinished control sequence of at
      most 256 bytes, and bytes are held only at a line start. */
  lemma {:induction false} RunValid(kitty: Classifier, st: State, inputs: seq<seq<Byte>>)
    requires st.Valid()
    ensures Run(kitty, st, inputs).st.Valid()
    decreases |inputs|
  {
    if inputs != [] {
      var x := st.partial + inputs[0];
      OneReadIsFeed(kitty, st, inputs[0]);
      FeedValid(st.(partial := []), Tokenise(kitty, x));
      var o := OneRead(kitty, st, inputs[0]);
      if !o.escaped {
        RunValid(kitty, o.st, inputs[1..]);
      }
    }
  }

  // ----- Conservation -----

  /** What the filter has put out or still holds. */
  function Accounted(o: Outcome): seq<Byte> {
    o.out + o.st.held + o.st.partial
  }

  lemma HandleConserves(st: State, key: Key, bytes: seq<Byte>)
    requires st.partial == []
    ensures var o := Handle(st, key, bytes);
            o.st.partial == [] && o.out + o.st.held == if o.escaped then st.held else st.held + bytes
  {
  }

  /** Putting earlier output in front of what a later step accounts for. */
  lemma AccountedAfter(out: seq<Byte>, o: Outcome, held: seq<Byte>, rest: seq<Byte>, all: seq<Byte>)
    requires all == out + held + rest
    requires if o.escaped then Accounted(o) <= held + rest else Accounted(o) == held + rest
    ensures if o.escaped then Accounted(After(out, o)) <= all else Accounted(After(out, o)) == all
  {
    assert Accounted(After(out, o)) == out + Accounted(o);
    assert all == out + (held + rest);
  }

  lemma PressConserves(st: State, key: Key, bytes: seq<Byte>, rest: seq<Byte>)
    requires st.partial == [] && !Handle(st, key, bytes).escaped
    ensures var o := Handle(st, key, bytes);
            o.st.partial == [] && st.held + (bytes + rest) == o.out + o.st.held + rest
  {
    HandleConserves(st, key, bytes);
    hide Handle;
    assert st.held + (bytes + rest) == st.held + bytes + rest;
  }

  lemma {:induction false} FeedConserves(st: State, s: Stream)
    requires st.partial == []
    ensures var o := Feed(st, s);
            if o.escaped then o.st.partial == [] && Accounted(o) <= st.held + s.Bytes()
            else Accounted(o) == st.held + s.Bytes()
    decreases s
  {
    match s
    case End(l) =>
    case Press(key, bytes, rest) =>
      var o := Handle(st, key, bytes);
      if o.escaped {
        HandleConserves(st, key, bytes);
      } else {
        hide Handle, Accounted;
        PressConserves(st, key, bytes, rest.Bytes());
        FeedConserves(o.st, rest);
        AccountedAfter(o.out, Feed(o.st, rest), o.st.held, rest.Bytes(), st.held + s.Bytes());
      }
  }

  lemma OneReadConserves(kitty: Classifier, st: State, input: seq<Byte>)
    ensures var o := OneRead(kitty, st, input);
            if o.escaped then o.st.partial == [] && Accounted(o) <= st.held + (st.partial + input)
            else Accounted(o) == st.held + (st.partial + input)
  {
    hide Tokenise, OneRead, Feed;
    OneReadIsFeed(kitty, st, input);
    TokeniseKeeps(kitty, st.partial + input);
    FeedConserves(st.(partial := []), Tokenise(kitty, st.partial + input));
  }

  lemma Reassociate(a: seq<Byte>, b: seq<Byte>, c: seq<Byte>, d: seq<Byte>)
    ensures a + b + (c + d) == a + b + c + d == a + (b + (c + d)) == a + (b + c) + d
  {
  }

  /** In every run without an escape the input so far is exactly the output, then the held
      bytes, then the carried partial; at an escape output and held bytes are a prefix. */
  lemma {:induction false} RunConserves(kitty: Classifier, st: State, inputs: seq<seq<Byte>>)
    ensures var o := Run(kitty, st, inputs);
            var input := st.held + (st.partial + Concat(inputs));
            if o.escaped then o.st.partial == [] && Accounted(o) <= input else Accounted(o) == input
    decreases |inputs|
  {
    hide OneRead;
    if inputs != [] {
      OneReadConserves(kitty, st, inputs[0]);
      var o, more := OneRead(kitty, st, inputs[0]), Concat(inputs[1..]);
      Reassociate(st.held, st.partial, inputs[0], more);
      if !o.escaped {
        RunConserves(kitty, o.st, inputs[1..]);
        Reassociate(o.out, o.st.held, o.st.partial, more);
        AccountedAfter(o.out, Run(kitty, o.st, inputs[1..]), o.st.held, o.st.partial + more,
                       st.held + (st.partial + Concat(inputs)));
      }
    }
  }

  // ----- Which key sequences are escapes -----

  /** The key presses of a whole run, tokenised with the partial carried from read to read,
      whether or not one of them completed an escape. */
  function PressedIn(kitty: Classifier, partial: seq<Byte>, inputs: seq<seq<Byte>>): seq<Key>
    decreases |inputs|
  {
    if inputs == [] then []
    else
      var s := Tokenise(kitty, partial + inputs[0]);
      s.Pressed() + PressedIn(kitty, s.Leftover(), inputs[1..])
  }

  /** `~` then `.`, with the `~` first of all or right after Enter. */
  ghost predicate HasEscape(keys: seq<Key>) {
    exists i :: EscapeAt(keys, i)
  }

  predicate EscapeAt(keys: seq<Key>, i: int) {
    && 0 <= i < |keys| - 1
    && keys[i] == Tilde && keys[i + 1] == Dot
    && (i == 0 || keys[i - 1] == Enter)
  }

  /** The presses so far end in a `~` that starts a line. */
  predicate EndsInTilde(keys: seq<Key>) {
    |keys| > 0 && keys[|keys| - 1] == Tilde && (|keys| == 1 || keys[|keys| - 2] == Enter)
  }

  /** The filter's state is a summary of the presses so far, none of which was an escape. */
  ghost predicate Summarises(st: State, keys: seq<Key>) {
    && !HasEscape(keys)
    && (st.held != [] <==> EndsInTilde(keys))
    && (st.atLineStart <==> AtLineStart(keys))
  }

  /** The next press starts a line, or follows a `~` that does. */
  predicate AtLineStart(keys: seq<Key>) {
    keys == [] || keys[|keys| - 1] == Enter || EndsInTilde(keys)
  }

  lemma EscapeExtends(keys: seq<Key>, more: seq<Key>)
    requires HasEscape(keys)
    ensures HasEscape(keys + more)
  {
    var i :| EscapeAt(keys, i);
    assert EscapeAt(keys + more, i);
  }

  lemma EscapeOfOneMore(keys: seq<Key>, key: Key)
    requires !HasEscape(keys)
    ensures HasEscape(keys + [key]) <==> key == Dot && EndsInTilde(keys)
  {
    var more := keys + [key];
    if HasEscape(more) {
      var i :| EscapeAt(more, i);
      assert !EscapeAt(keys, i);
    }
    if key == Dot && EndsInTilde(keys) {
      assert EscapeAt(more, |keys| - 1);
    }
  }

  lemma HandleSummarises(st: State, keys: seq<Key>, key: Key, bytes: seq<Byte>)
    requires Summarises(st, keys) && bytes != []
    ensures var o := Handle(st, key, bytes);
            var more := if key == Ignore then keys else keys + [key];
            if o.escaped then HasEscape(more) else Summarises(o.st, more)
  {
    if key != Ignore {
      EscapeOfOneMore(keys, key);
    }
  }

  lemma {:induction false} FeedSummarises(st: State, keys: seq<Key>, s: Stream)
    requires Summarises(st, keys) && st.partial == [] && s.Valid()
    ensures var o := Feed(st, s);
            && (o.escaped <==> HasEscape(keys + s.Pressed()))
            && (!o.escaped ==> Summarises(o.st, keys + s.Pressed()) && o.st.partial == s.Leftover())
    decreases s
  {
    match s
    case End(l) =>
      assert keys + [] == keys && [] + l == l;
    case Press(key, bytes, rest) =>
      HandleSummarises(st, keys, key, bytes);
      var o := Handle(st, key, bytes);
      var more := if key == Ignore then keys else keys + [key];
      assert keys + s.Pressed() == more + rest.Pressed();
      if o.escaped {
        EscapeExtends(more, rest.Pressed());
      } else {
        FeedSummarises(o.st, more, rest);
      }
  }

  /** The presses of a run are those of its first read, then the others. */
  lemma PressedStep(kitty: Classifier, partial: seq<Byte>, keys: seq<Key>, inputs: seq<seq<Byte>>)
    requires inputs != []
    ensures var s := Tokenise(kitty, partial + inputs[0]);
            keys + PressedIn(kitty, partial, inputs) ==
            keys + s.Pressed() + PressedIn(kitty, s.Leftover(), inputs[1..])
  {
    var s := Tokenise(kitty, partial + inputs[0]);
    var rest := PressedIn(kitty, s.Leftover(), inputs[1..]);
    assert PressedIn(kitty, partial, inputs) == s.Pressed() + rest;
    hide *;
    assert keys + (s.Pressed() + rest) == keys + s.Pressed() + rest;
  }

  lemma RunStep(kitty: Classifier, st: State, inputs: seq<seq<Byte>>)
    requires inputs != []
    ensures var o := OneRead(kitty, st, inputs[0]);
            && (Run(kitty, st, inputs).escaped <==> o.escaped || Run(kitty, o.st, inputs[1..]).escaped)
            && (!o.escaped ==> Run(kitty, st, inputs).st == Run(kitty, o.st, inputs[1..]).st)
  {
    hide OneRead;
  }

  lemma ReadSummarises(kitty: Classifier, st: State, keys: seq<Key>, input: seq<Byte>)
    requires Summarises(st, keys)
    ensures var o, s := OneRead(kitty, st, input), Tokenise(kitty, st.partial + input);
            && (o.escaped <==> HasEscape(keys + s.Pressed()))
            && (!o.escaped ==> Summarises(o.st, keys + s.Pressed()) && o.st.partial == s.Leftover())
  {
    OneReadIsFeed(kitty, st, input);
    hide OneRead, Tokenise, HasEscape, Feed;
    FeedSummarises(st.(partial := []), keys, Tokenise(kitty, st.partial + input));
  }

  lemma {:induction false} RunSummarises(kitty: Classifier, st: State, keys: seq<Key>, inputs: seq<seq<Byte>>)
    requires Summarises(st, keys)
    ensures Run(kitty, st, inputs).escaped <==> HasEscape(keys + PressedIn(kitty, st.partial, inputs))
    ensures !Run(kitty, st, inputs).escaped ==>
              Summarises(Run(kitty, st, inputs).st, keys + PressedIn(kitty, st.partial, inputs))
    decreases |inputs|
  {
    if inputs == [] {
      assert keys + [] == keys;
    } else {
      hide *;
      var o, s := OneRead(kitty, st, inputs[0]), Tokenise(kitty, st.partial + inputs[0]);
      ReadSummarises(kitty, st, keys, inputs[0]);
      RunStep(kitty, st, inputs);
      PressedStep(kitty, st.partial, keys, inputs);
      if o.escaped {
        EscapeExtends(keys + s.Pressed(), PressedIn(kitty, s.Leftover(), inputs[1..]));
      } else {
        RunSummarises(kitty, o.st, keys + s.Pressed(), inputs[1..]);
      }
    }
  }

  /** Over every run the filter reports an escape exactly when the key presses hold `~`, `.`
      with the `~` first or right after Enter. */
  lemma EscapeExactly(kitty: Classifier, inputs: seq<seq<Byte>>)
    ensures Run(kitty, INITIAL, inputs).escaped <==> HasEscape(PressedIn(kitty, [], inputs))
  {
    RunSummarises(kitty, INITIAL, [], inputs);
    assert [] + PressedIn(kitty, [], inputs) == PressedIn(kitty, [], inputs);
  }

  // ----- Plain text -----

  predicate IsEnter(b: Byte) { b == 0x0d || b == 0x0a }

  /** The bytes `~.` at `i`, at the start of the text or of a line. */
  predicate PlainEscapeAt(text: seq<Byte>, i: int) {
    && 0 <= i < |text| - 1
    && text[i] == 0x7e && text[i + 1] == 0x2e
    && (i == 0 || IsEnter(text[i - 1]))
  }

  function Keys(text: seq<Byte>): (keys: seq<Key>)
    ensures |keys| == |text| && forall i :: 0 <= i < |text| ==> keys[i] == SingleKey(text[i])
  {
    seq(|text|, i requires 0 <= i < |text| => SingleKey(text[i]))
  }

  lemma {:induction false} PlainTokens(kitty: Classifier, text: seq<Byte>)
    requires ESC !in text
    ensures Tokenise(kitty, text).Pressed() == Keys(text) && Tokenise(kitty, text).Leftover() == []
    decreases |text|
  {
    if text != [] {
      PlainTokens(kitty, text[1..]);
      assert Keys(text) == [SingleKey(text[0])] + Keys(text[1..]);
    }
  }

  lemma KeysAppend(a: seq<Byte>, b: seq<Byte>)
    ensures Keys(a + b) == Keys(a) + Keys(b)
  {
    hide SingleKey;
    assert forall i :: 0 <= i < |a| + |b| ==> Keys(a + b)[i] == (Keys(a) + Keys(b))[i];
  }

  lemma {:induction false} PlainPressed(kitty: Classifier, inputs: seq<seq<Byte>>)
    requires ESC !in Concat(inputs)
    ensures PressedIn(kitty, [], inputs) == Keys(Concat(inputs))
    decreases |inputs|
  {
    hide Keys, SingleKey, Tokenise;
    if inputs == [] {
      KeysAppend([], []);
    } else {
      var first, rest := inputs[0], Concat(inputs[1..]);
      assert [] + first == first;
      assert forall b :: b in first || b in rest ==> b in Concat(inputs);
      PlainTokens(kitty, first);
      PlainPressed(kitty, inputs[1..]);
      KeysAppend(first, rest);
    }
  }

  /** Text without control sequences, however it is cut into reads, is an escape exactly if it
      holds `~.` at its start or after a carriage return or line feed. */
  lemma PlainTextEscape(kitty: Classifier, inputs: seq<seq<Byte>>)
    requires ESC !in Concat(inputs)
    ensures Run(kitty, INITIAL, inputs).escaped <==> exists i :: PlainEscapeAt(Concat(inputs), i)
  {
    EscapeExactly(kitty, inputs);
    PlainPressed(kitty, inputs);
    hide Concat, Run, PressedIn;
    var text := Concat(inputs);
    forall i ensures EscapeAt(Keys(text), i) <==> PlainEscapeAt(text, i) {
    }
    if HasEscape(Keys(text)) {
      var i :| EscapeAt(Keys(text), i);
      assert PlainEscapeAt(text, i);
    }
    if exists i :: PlainEscapeAt(text, i) {
      var i :| PlainEscapeAt(text, i);
      assert EscapeAt(Keys(text), i);
    }
  }

  // ----- Read boundaries: when the two tokenisations agree -----

  /** A token the tokeniser passed on although more bytes could change it: a lone ESC, or a
      control sequence still unfinished after 256 bytes. */
  predicate Open(x: seq<Byte>) {
    x == [ESC] || (Unfinished(x) && |x| > MAX_PARTIAL_CSI_LEN)
  }

  /** Tokens that are not open do not depend on what follows. */
  lemma NextKeyStable(kitty: Classifier, x: seq<Byte>, b: seq<Byte>)
    requires x != [] && !Open(x) && NextKey(kitty, x).Some?
    ensures NextKey(kitty, x + b) == NextKey(kitty, x)
    ensures NextKey(kitty, x).value.len == |x| ==> !Unfinished(x)
  {
    if StartsCsi(x) {
      var n := ParamsEnd(x, 2);
      ParamsEndIs(x + b, 2, n);
      assert (x + b)[2..n] == x[2..n];
    }
  }

  lemma {:induction false} ParamsEndIs(s: seq<Byte>, i: nat, n: nat)
    requires i <= n < |s|
    requires forall k :: i <= k < n ==> IsParam(s[k])
    requires !IsParam(s[n])
    ensures ParamsEnd(s, i) == n
    decreases n - i
  {
    if i < n {
      ParamsEndIs(s, i + 1, n);
    }
  }

  /** Focus reports and private-prefixed reports, such as mouse events, are no key presses,
      wherever they stand. */
  lemma ReportsIgnored(kitty: Classifier, params: seq<Byte>, final: Byte, rest: seq<Byte>)
    requires AllParams(params) && IsFinal(final)
    requires (params == [] && final in {0x49, 0x4f}) || (params != [] && params[0] in {0x3c, 0x3d, 0x3e, 0x3f})
    ensures var report := [ESC, LBRACKET] + params + [final];
            Tokenise(kitty, report + rest) == Press(Ignore, report, Tokenise(kitty, rest))
  {
    var report := [ESC, LBRACKET] + params + [final];
    var x, n := report + rest, 2 + |params|;
    assert x[2..n] == params && x[n] == final;
    forall k | 2 <= k < n ensures IsParam(x[k]) {
      assert x[k] == params[k - 2];
    }
    ParamsEndIs(x, 2, n);
    assert x[..n + 1] == report && x[n + 1..] == rest;
  }

  /** The tokens of a read with more bytes appended: only the end is tokenised again. */
  function Extend(kitty: Classifier, s: Stream, b: seq<Byte>): Stream {
    match s
    case End(l) => Tokenise(kitty, l + b)
    case Press(key, bytes, rest) =>
      if rest == End([]) && Open(bytes) then Tokenise(kitty, bytes + b)
      else Press(key, bytes, Extend(kitty, rest, b))
  }

  lemma {:induction false} TokeniseAppend(kitty: Classifier, x: seq<Byte>, b: seq<Byte>)
    ensures Tokenise(kitty, x + b) == Extend(kitty, Tokenise(kitty, x), b)
    decreases |x|
  {
    if x == [] {
      assert x + b == b == [] + b;
    } else if NextKey(kitty, x).Some? {
      var len := NextKey(kitty, x).value.len;
      assert x[..|x|] == x && x[|x|..] == [];
      if Open(x) {
        OpenIsWhole(kitty, x);
      } else {
        NextKeyStable(kitty, x, b);
        assert (x + b)[..len] == x[..len] && (x + b)[len..] == x[len..] + b;
        TokeniseAppend(kitty, x[len..], b);
        OpenNeedsEnd(kitty, x);
      }
    }
  }

  lemma OpenIsWhole(kitty: Classifier, x: seq<Byte>)
    requires Open(x)
    ensures NextKey(kitty, x) == Some(Token(|x|, Other))
  {
    if Unfinished(x) {
      forall k | 2 <= k < |x| ensures IsParam(x[k]) {
        assert x[k] == x[2..][k - 2];
      }
      AllParamsEnd(x, 2);
    }
  }

  /** If the first token of `x` is open and nothing follows it, it is all of `x`. */
  lemma OpenNeedsEnd(kitty: Classifier, x: seq<Byte>)
    requires x != [] && NextKey(kitty, x).Some?
    ensures var len := NextKey(kitty, x).value.len;
            Tokenise(kitty, x[len..]) == End([]) ==> x[..len] == x
  {
    var len := NextKey(kitty, x).value.len;
    TokeniseKeeps(kitty, x[len..]);
    if Tokenise(kitty, x[len..]) == End([]) {
      assert x[len..] == [];
    }
  }

  // ----- Read boundaries: when the two outcomes agree -----

  /** In this state the filter treats the key as it would treat any other key. */
  predicate LikeOther(st: State, key: Key) {
    match key
    case Other => true
    case Enter => false
    case Dot => st.held == []
    case Tilde => st.held != [] || !st.atLineStart
    case Ignore => st.held == [] && !st.atLineStart
  }

  lemma LikeOtherHandled(st: State, key: Key, bytes: seq<Byte>)
    requires bytes != [] && (st.held != [] ==> st.atLineStart)
    ensures LikeOther(st, key) <==> Handle(st, key, bytes) == Handle(st, Other, bytes)
  {
    if key == Tilde && st.held == [] && st.atLineStart {
      assert Handle(st, key, bytes).out == [] != Handle(st, Other, bytes).out;
    }
  }

  /** However the long control sequence `x` ends, it counts as any other key. */
  ghost predicate HarmlessEnding(kitty: Classifier, st: State, x: seq<Byte>)
    requires StartsCsi(x)
  {
    forall params: seq<Byte>, final: Byte ::
      AllParams(params) && IsFinal(final) ==> LikeOther(st, ClassifyCsi(kitty, x[2..] + params, final))
  }

  /** Cutting the input after the tokens `s` is harmless when the next read is `b`: they do
      not end in an open token, except a lone ESC not followed by `[` or a long sequence
      with a harmless ending. */
  ghost predicate SafeCut(kitty: Classifier, st: State, s: Stream, b: seq<Byte>)
    decreases s
  {
    match s
    case End(_) => true
    case Press(key, bytes, rest) =>
      if rest == End([]) && Open(bytes) then
        if bytes == [ESC] then b == [] || b[0] != LBRACKET else HarmlessEnding(kitty, st, bytes)
      else
        var o := Handle(st, key, bytes);
        o.escaped || SafeCut(kitty, o.st, rest, b)
  }

  /** Two reads, the second not made after an escape. */
  function TwoReads(kitty: Classifier, st: State, a: seq<Byte>, b: seq<Byte>): Outcome {
    var o := OneRead(kitty, st, a);
    if o.escaped then o else After(o.out, OneRead(kitty, o.st, b))
  }

  /** The second read after the tokens of the first. */
  function FeedThen(kitty: Classifier, st: State, s: Stream, b: seq<Byte>): Outcome {
    var o := Feed(st, s);
    if o.escaped then o
    else After(o.out, Feed(o.st.(partial := []), Tokenise(kitty, o.st.partial + b)))
  }

  lemma OneReadIsFeed(kitty: Classifier, st: State, input: seq<Byte>)
    ensures OneRead(kitty, st, input) == Feed(st.(partial := []), Tokenise(kitty, st.partial + input))
  {
    hide Scan, Feed, Tokenise;
    ScanIsFeed(kitty, st.(partial := []), st.partial + input);
  }

  lemma TwoReadsIsFeedThen(kitty: Classifier, st: State, a: seq<Byte>, b: seq<Byte>)
    ensures var s := Tokenise(kitty, st.partial + a);
            && TwoReads(kitty, st, a, b) == FeedThen(kitty, st.(partial := []), s, b)
            && OneRead(kitty, st, a + b) == Feed(st.(partial := []), Extend(kitty, s, b))
  {
    hide OneRead, Feed, Tokenise, Extend;
    OneReadIsFeed(kitty, st, a);
    OneReadIsFeed(kitty, OneRead(kitty, st, a).st, b);
    OneReadIsFeed(kitty, st, a + b);
    TokeniseAppend(kitty, st.partial + a, b);
    assert st.partial + (a + b) == st.partial + a + b;
  }

  /** One token more in front changes nothing. */
  lemma FeedThenPress(kitty: Classifier, st: State, key: Key, bytes: seq<Byte>, rest: Stream, b: seq<Byte>)
    requires st.partial == []
    ensures var o := Handle(st, key, bytes);
            FeedThen(kitty, st, Press(key, bytes, rest), b) ==
            if o.escaped then o else After(o.out, FeedThen(kitty, o.st, rest, b))
  {
    var o := Handle(st, key, bytes);
    if !o.escaped {
      var r := Feed(o.st, rest);
      AfterAfter(o.out, r.out, Feed(r.st.(partial := []), Tokenise(kitty, r.st.partial + b)));
    }
  }

  /** An empty first read leaves the second one. */
  lemma SecondReadOnly(kitty: Classifier, st: State, b: seq<Byte>)
    requires st.partial == []
    ensures FeedThen(kitty, st, End([]), b) == Feed(st, Tokenise(kitty, b))
  {
    hide Tokenise;
    assert [] + b == b;
    AfterNothing(Feed(st, Tokenise(kitty, b)));
  }

  const MIDLINE := State(false, [], [])

  /** In the middle of a line a byte that is neither ESC nor Enter passes straight through. */
  lemma MidlineByte(kitty: Classifier, b: Byte, rest: seq<Byte>)
    requires b != ESC && SingleKey(b) != Enter
    ensures Feed(MIDLINE, Tokenise(kitty, [b] + rest)) == After([b], Feed(MIDLINE, Tokenise(kitty, rest)))
  {
    var x := [b] + rest;
    assert x[..1] == [b] && x[1..] == rest;
    assert Tokenise(kitty, x) == Press(SingleKey(b), [b], Tokenise(kitty, rest));
  }

  lemma {:induction false} MidlineParams(kitty: Classifier, params: seq<Byte>, rest: seq<Byte>)
    requires AllParams(params)
    ensures Feed(MIDLINE, Tokenise(kitty, params + rest)) == After(params, Feed(MIDLINE, Tokenise(kitty, rest)))
    decreases |params|
  {
    hide Tokenise, Feed;
    if params == [] {
      assert params + rest == rest;
      AfterNothing(Feed(MIDLINE, Tokenise(kitty, rest)));
      assert params == [];
    } else {
      assert IsParam(params[0]);
      MidlineByte(kitty, params[0], params[1..] + rest);
      MidlineParams(kitty, params[1..], rest);
      AfterAfter([params[0]], params[1..], Feed(MIDLINE, Tokenise(kitty, rest)));
      assert params + rest == [params[0]] + (params[1..] + rest) && params == [params[0]] + params[1..];
    }
  }

  /** The first token of a long unfinished sequence followed by `params` and `rest`. */
  lemma LongNext(kitty: Classifier, x: seq<Byte>, params: seq<Byte>, rest: seq<Byte>)
    requires Unfinished(x) && |x| > MAX_PARTIAL_CSI_LEN && AllParams(params)
    requires rest != [] ==> !IsParam(rest[0])
    ensures NextKey(kitty, x + params + rest) == Some(
              if rest != [] && IsFinal(rest[0]) then
                Token(|x| + |params| + 1, ClassifyCsi(kitty, x[2..] + params, rest[0]))
              else Token(|x| + |params|, Other))
  {
    var y, n := x + params + rest, |x| + |params|;
    forall k | 2 <= k < n ensures IsParam(y[k]) {
      if k < |x| {
        assert y[k] == x[2..][k - 2];
      }
    }
    if rest == [] {
      AllParamsEnd(y, 2);
    } else {
      ParamsEndIs(y, 2, n);
      assert y[2..n] == x[2..] + params && y[n] == rest[0];
    }
  }

  lemma {:induction false} AllParamsEnd(s: seq<Byte>, i: nat)
    requires i <= |s|
    requires forall k :: i <= k < |s| ==> IsParam(s[k])
    ensures ParamsEnd(s, i) == |s|
    decreases |s| - i
  {
    if i < |s| {
      AllParamsEnd(s, i + 1);
    }
  }

  lemma LongToken(kitty: Classifier, x: seq<Byte>, params: seq<Byte>, rest: seq<Byte>)
    requires Unfinished(x) && |x| > MAX_PARTIAL_CSI_LEN && AllParams(params)
    requires rest != [] ==> !IsParam(rest[0])
    ensures Tokenise(kitty, x + params + rest) ==
            if rest != [] && IsFinal(rest[0]) then
              Press(ClassifyCsi(kitty, x[2..] + params, rest[0]), x + params + [rest[0]], Tokenise(kitty, rest[1..]))
            else Press(Other, x + params, Tokenise(kitty, rest))
  {
    hide NextKey, ClassifyCsi, Unfinished, AllParams;
    var y, n := x + params + rest, |x| + |params|;
    LongNext(kitty, x, params, rest);
    if rest != [] && IsFinal(rest[0]) {
      assert y[..n + 1] == x + params + [rest[0]] && y[n + 1..] == rest[1..];
    } else {
      assert y[..n] == x + params && y[n..] == rest;
    }
  }

  /** An other key puts out what was held and its own bytes, and ends mid-line. */
  lemma OtherHandled(st: State, bytes: seq<Byte>)
    requires st.partial == []
    ensures Handle(st, Other, bytes) == Outcome(false, MIDLINE, st.held + bytes)
  {
  }

  /** Splitting a read into its leading parameter bytes and the rest. */
  lemma SplitParams(b: seq<Byte>) returns (params: seq<Byte>, rest: seq<Byte>)
    ensures b == params + rest && AllParams(params) && (rest != [] ==> !IsParam(rest[0]))
  {
    var n := ParamsEnd(b, 0);
    params, rest := b[..n], b[n..];
  }

  /** A long sequence passed on early as another key, then the rest of it: the outcome of
      treating the whole sequence as another key. */
  lemma LongSplit(kitty: Classifier, st: State, x: seq<Byte>, params: seq<Byte>, rest: seq<Byte>)
    requires st.partial == [] && AllParams(params)
    ensures FeedThen(kitty, st, Press(Other, x, End([])), params + rest) ==
            After(st.held + (x + params), Feed(MIDLINE, Tokenise(kitty, rest)))
    ensures rest != [] && IsFinal(rest[0]) ==>
            FeedThen(kitty, st, Press(Other, x, End([])), params + rest) ==
            After(st.held + (x + params + [rest[0]]), Feed(MIDLINE, Tokenise(kitty, rest[1..])))
  {
    hide Tokenise, Handle, Feed, FeedThen;
    FeedThenPress(kitty, st, Other, x, End([]), params + rest);
    OtherHandled(st, x);
    SecondReadOnly(kitty, MIDLINE, params + rest);
    MidlineParams(kitty, params, rest);
    AfterAfter(st.held + x, params, Feed(MIDLINE, Tokenise(kitty, rest)));
    assert st.held + x + params == st.held + (x + params);
    if rest != [] && IsFinal(rest[0]) {
      MidlineByte(kitty, rest[0], rest[1..]);
      assert [rest[0]] + rest[1..] == rest;
      AfterAfter(st.held + (x + params), [rest[0]], Feed(MIDLINE, Tokenise(kitty, rest[1..])));
      assert st.held + (x + params) + [rest[0]] == st.held + (x + params + [rest[0]]);
    }
  }

  /** The outcome of the same bytes in one read. */
  lemma LongJoined(kitty: Classifier, st: State, x: seq<Byte>, params: seq<Byte>, rest: seq<Byte>)
    requires st.partial == [] && AllParams(params) && (st.held != [] ==> st.atLineStart)
    requires Unfinished(x) && |x| > MAX_PARTIAL_CSI_LEN
    requires rest != [] ==> !IsParam(rest[0])
    requires rest != [] && IsFinal(rest[0]) ==>
               LikeOther(st, ClassifyCsi(kitty, x[2..] + params, rest[0]))
    ensures Feed(st, Tokenise(kitty, x + (params + rest))) == FeedThen(kitty, st, Press(Other, x, End([])), params + rest)
  {
    hide Tokenise, Handle, FeedThen, ClassifyCsi, Unfinished, AllParams;
    LongToken(kitty, x, params, rest);
    LongSplit(kitty, st, x, params, rest);
    assert x + (params + rest) == x + params + rest;
    if rest != [] && IsFinal(rest[0]) {
      var key, bytes := ClassifyCsi(kitty, x[2..] + params, rest[0]), x + params + [rest[0]];
      LikeOtherHandled(st, key, bytes);
      OtherHandled(st, bytes);
    } else {
      OtherHandled(st, x + params);
    }
  }

  /** A lone ESC at the cut matters only if `[` follows. */
  lemma LoneEscape(kitty: Classifier, st: State, b: seq<Byte>)
    requires st.partial == [] && (b == [] || b[0] != LBRACKET)
    ensures Feed(st, Tokenise(kitty, [ESC] + b)) == FeedThen(kitty, st, Press(Other, [ESC], End([])), b)
  {
    var x := [ESC] + b;
    assert x[..1] == [ESC] && x[1..] == b && [] + b == b;
    assert Tokenise(kitty, x) == Press(Other, [ESC], Tokenise(kitty, b));
    OtherHandled(st, [ESC]);
    FeedThenPress(kitty, st, Other, [ESC], End([]), b);
    SecondReadOnly(kitty, MIDLINE, b);
  }

  /** The tokeniser gives an open token at the end of a read the class of any other key. */
  predicate Tokenised(s: Stream) {
    match s
    case End(_) => s.Valid()
    case Press(key, bytes, rest) =>
      bytes != [] && (rest == End([]) && Open(bytes) ==> key == Other) && Tokenised(rest)
  }

  lemma {:induction false} TokeniseTokenised(kitty: Classifier, x: seq<Byte>)
    ensures Tokenised(Tokenise(kitty, x))
    decreases |x|
  {
    if x != [] && NextKey(kitty, x).Some? {
      var len := NextKey(kitty, x).value.len;
      TokeniseTokenised(kitty, x[len..]);
      OpenNeedsEnd(kitty, x);
      if Open(x) {
        OpenIsWhole(kitty, x);
      }
    }
  }

  lemma {:induction false} SafeCutAgrees(kitty: Classifier, st: State, s: Stream, b: seq<Byte>)
    requires st.partial == [] && (st.held != [] ==> st.atLineStart) && Tokenised(s)
    requires SafeCut(kitty, st, s, b)
    ensures FeedThen(kitty, st, s, b) == Feed(st, Extend(kitty, s, b))
    decreases s
  {
    match s
    case End(l) =>
      assert [] + l == l;
      AfterNothing(Feed(st, Tokenise(kitty, l + b)));
    case Press(key, bytes, rest) =>
      if rest == End([]) && Open(bytes) {
        if bytes == [ESC] {
          LoneEscape(kitty, st, b);
        } else {
          var params, tail := SplitParams(b);
          LongJoined(kitty, st, bytes, params, tail);
        }
      } else {
        FeedThenPress(kitty, st, key, bytes, rest, b);
        var o := Handle(st, key, bytes);
        if !o.escaped {
          SafeCutAgrees(kitty, o.st, rest, b);
        }
      }
  }

  lemma AfterNothing(o: Outcome)
    ensures After([], o) == o
  {
    assert [] + o.out == o.out;
  }

  /** A read that shows the difference when the cut is not safe for every next read. */
  lemma {:induction false} UnsafeCutDiffers(kitty: Classifier, st: State, s: Stream) returns (b: seq<Byte>)
    requires st.partial == [] && (st.held != [] ==> st.atLineStart) && Tokenised(s)
    requires !SafeCut(kitty, st, s, [LBRACKET])
    ensures FeedThen(kitty, st, s, b) != Feed(st, Extend(kitty, s, b))
    decreases s
  {
    var Press(key, bytes, rest) := s;
    if rest == End([]) && Open(bytes) {
      OtherHandled(st, bytes);
      if bytes == [ESC] {
        b := [LBRACKET];
        FeedThenPress(kitty, st, key, bytes, rest, b);
        var x := bytes + b;
        assert Unfinished(x) && Tokenise(kitty, x) == End(x);
      } else {
        var params: seq<Byte>, final: Byte :|
          AllParams(params) && IsFinal(final) && !LikeOther(st, ClassifyCsi(kitty, bytes[2..] + params, final));
        b := params + [final];
        LongDiffers(kitty, st, bytes, params, final);
      }
    } else {
      var o := Handle(st, key, bytes);
      b := UnsafeCutDiffers(kitty, o.st, rest);
      FeedThenPress(kitty, st, key, bytes, rest, b);
      AfterInjective(o.out, FeedThen(kitty, o.st, rest, b), Feed(o.st, Extend(kitty, rest, b)));
    }
  }

  lemma AfterInjective(out: seq<Byte>, o: Outcome, o': Outcome)
    requires o != o'
    ensures After(out, o) != After(out, o')
  {
    if out + o.out == out + o'.out {
      assert (out + o.out)[|out|..] == o.out && (out + o'.out)[|out|..] == o'.out;
    }
  }

  lemma LongDiffers(kitty: Classifier, st: State, x: seq<Byte>, params: seq<Byte>, final: Byte)
    requires st.partial == [] && AllParams(params) && (st.held != [] ==> st.atLineStart)
    requires Unfinished(x) && |x| > MAX_PARTIAL_CSI_LEN && IsFinal(final)
    requires !LikeOther(st, ClassifyCsi(kitty, x[2..] + params, final))
    ensures Feed(st, Tokenise(kitty, x + (params + [final]))) !=
            FeedThen(kitty, st, Press(Other, x, End([])), params + [final])
  {
    hide Handle, FeedThen, ClassifyCsi, Unfinished, AllParams;
    var key, bytes := ClassifyCsi(kitty, x[2..] + params, final), x + params + [final];
    LongToken(kitty, x, params, [final]);
    LongSplit(kitty, st, x, params, [final]);
    assert x + (params + [final]) == bytes;
    LikeOtherHandled(st, key, bytes);
    OtherHandled(st, bytes);
    var o := Handle(st, key, bytes);
    assert Tokenise(kitty, [final][1..]) == End([]);
    assert Feed(MIDLINE, End([])) == Outcome(false, MIDLINE, []);
    assert Feed(o.st, End([])) == Outcome(false, o.st, []) by {
      assert o.st.partial + [] == o.st.partial;
    }
    assert o.out + [] == o.out && st.held + bytes + [] == st.held + bytes;
  }

  /** Pushing `a` then `b` gives the same verdict, output and state as pushing `a + b`,
      unless the cut falls between ESC and `[`, or inside a control sequence already longer
      than 256 bytes whose ending could matter. */
  lemma ReadBoundary(kitty: Classifier, st: State, a: seq<Byte>, b: seq<Byte>)
    requires st.Valid()
    requires SafeCut(kitty, st.(partial := []), Tokenise(kitty, st.partial + a), b)
    ensures TwoReads(kitty, st, a, b) == OneRead(kitty, st, a + b)
  {
    TokeniseTokenised(kitty, st.partial + a);
    TwoReadsIsFeedThen(kitty, st, a, b);
    SafeCutAgrees(kitty, st.(partial := []), Tokenise(kitty, st.partial + a), b);
  }

  /** The condition is exact: the cut after `a` is invisible for every next read precisely
      when it is safe for a next read that starts with `[`. */
  lemma ReadBoundaryExactly(kitty: Classifier, st: State, a: seq<Byte>)
    requires st.Valid()
    ensures (forall b :: TwoReads(kitty, st, a, b) == OneRead(kitty, st, a + b)) <==>
            SafeCut(kitty, st.(partial := []), Tokenise(kitty, st.partial + a), [LBRACKET])
  {
    var st0, s := st.(partial := []), Tokenise(kitty, st.partial + a);
    TokeniseTokenised(kitty, st.partial + a);
    if SafeCut(kitty, st0, s, [LBRACKET]) {
      forall b ensures TwoReads(kitty, st, a, b) == OneRead(kitty, st, a + b) {
        SafeForAll(kitty, st0, s, b);
        ReadBoundary(kitty, st, a, b);
      }
    } else {
      var b := UnsafeCutDiffers(kitty, st0, s);
      TwoReadsIsFeedThen(kitty, st, a, b);
    }
  }

  lemma {:induction false} SafeForAll(kitty: Classifier, st: State, s: Stream, b: seq<Byte>)
    requires SafeCut(kitty, st, s, [LBRACKET])
    ensures SafeCut(kitty, st, s, b)
    decreases s
  {
    match s
    case End(_) =>
    case Press(key, bytes, rest) =>
      if !(rest == End([]) && Open(bytes)) && !Handle(st, key, bytes).escaped {
        SafeForAll(kitty, Handle(st, key, bytes).st, rest, b);
      }
  }

  // ----- Read boundaries: the condition in terms of the bytes -----

  /** The bytes from the last ESC on, none if there is no ESC. */
  function FromLastEsc(x: seq<Byte>): (t: seq<Byte>)
    ensures |t| <= |x| && t == x[|x| - |t|..]
    ensures t == [] <==> ESC !in x
    ensures t != [] ==> t[0] == ESC && ESC !in t[1..]
  {
    x[EscBefore(x, |x|)..]
  }

  /** The position of the last ESC among the first `n` bytes, or the length of all. */
  function EscBefore(x: seq<Byte>, n: nat): (i: nat)
    requires n <= |x|
    ensures i < n || i == |x|
    ensures i < |x| ==> x[i] == ESC && forall k :: i < k < n ==> x[k] != ESC
    ensures i == |x| ==> forall k :: 0 <= k < n ==> x[k] != ESC
  {
    if n == 0 then |x| else if x[n - 1] == ESC then n - 1 else EscBefore(x, n - 1)
  }

  lemma LastEscAt(x: seq<Byte>, t: seq<Byte>)
    requires t != [] && t[0] == ESC && ESC !in t[1..] && |t| <= |x| && t == x[|x| - |t|..]
    ensures x[|x| - |t|] == ESC
    ensures forall k :: |x| - |t| < k < |x| ==> x[k] != ESC
  {
    forall k | |x| - |t| < k < |x| ensures x[k] != ESC {
      assert x[k] == t[1..][k - (|x| - |t|) - 1];
    }
  }

  /** Only one suffix starts with an ESC and holds no other. */
  lemma LastEscIs(x: seq<Byte>, t: seq<Byte>)
    requires t != [] && t[0] == ESC && ESC !in t[1..] && |t| <= |x| && t == x[|x| - |t|..]
    ensures FromLastEsc(x) == t
  {
    hide FromLastEsc;
    LastEscAt(x, t);
    assert x[|x| - |t|] in x;
    SameLastEsc(x, t, FromLastEsc(x));
  }

  lemma SameLastEsc(x: seq<Byte>, t: seq<Byte>, u: seq<Byte>)
    requires t != [] && t[0] == ESC && ESC !in t[1..] && |t| <= |x| && t == x[|x| - |t|..]
    requires u != [] && u[0] == ESC && ESC !in u[1..] && |u| <= |x| && u == x[|x| - |u|..]
    ensures t == u
  {
    LastEscAt(x, t);
    LastEscAt(x, u);
    assert |t| == |u|;
  }

  /** No token holds an ESC behind its first byte. */
  lemma TokenHasNoEsc(kitty: Classifier, x: seq<Byte>)
    requires x != [] && NextKey(kitty, x).Some?
    ensures ESC !in x[1..NextKey(kitty, x).value.len]
  {
  }

  /** The open token that ends a tokenised read, if one does. */
  function LastOpen(s: Stream): (t: Option<seq<Byte>>)
    ensures t.Some? ==> Open(t.value)
  {
    match s
    case End(_) => None
    case Press(_, bytes, rest) => if rest == End([]) then (if Open(bytes) then Some(bytes) else None) else LastOpen(rest)
  }

  /** One token more in front, unless it is the only one. */
  lemma LastOpenStep(kitty: Classifier, x: seq<Byte>)
    requires x != [] && NextKey(kitty, x).Some?
    ensures var len := NextKey(kitty, x).value.len;
            LastOpen(Tokenise(kitty, x)) ==
            if len == |x| then (if Open(x) then Some(x) else None) else LastOpen(Tokenise(kitty, x[len..]))
  {
    var len := NextKey(kitty, x).value.len;
    TokeniseKeeps(kitty, x[len..]);
    hide Open, NextKey;
    if len == |x| {
      assert x[..len] == x && x[len..] == [];
    } else {
      assert Tokenise(kitty, x[len..]) != End([]);
    }
  }

  /** It is what follows the last ESC. */
  lemma {:induction false} LastOpenIs(kitty: Classifier, x: seq<Byte>)
    ensures LastOpen(Tokenise(kitty, x)) == if Open(FromLastEsc(x)) then Some(FromLastEsc(x)) else None
    decreases |x|
  {
    if x == [] {
    } else if NextKey(kitty, x).Some? {
      var len := NextKey(kitty, x).value.len;
      TokenHasNoEsc(kitty, x);
      LastOpenStep(kitty, x);
      hide Open, NextKey, Tokenise, LastOpen, FromLastEsc;
      if len == |x| {
        assert x[1..len] == x[1..];
        WholeToken(x, FromLastEsc(x));
      } else {
        LastOpenIs(kitty, x[len..]);
        LaterOpen(kitty, x, len);
      }
    } else {
      UnfinishedTail(x);
    }
  }

  /** A whole token is open exactly if its part from the last ESC on is. */
  lemma WholeToken(x: seq<Byte>, t: seq<Byte>)
    requires x != [] && ESC !in x[1..] && t == FromLastEsc(x)
    ensures Open(t) <==> Open(x)
    ensures Open(t) ==> t == x
  {
    if x[0] == ESC {
      LastEscIs(x, x);
    } else {
      assert forall i :: 0 < i < |x| ==> x[i] == x[1..][i - 1];
    }
  }

  /** An unfinished control sequence holds no second ESC. */
  lemma UnfinishedTail(x: seq<Byte>)
    requires Unfinished(x)
    ensures FromLastEsc(x) == x
  {
    hide FromLastEsc;
    var params := x[2..];
    assert ESC !in params;
    assert x[1..] == [LBRACKET] + params;
    assert x[0..] == x;
    LastEscIs(x, x);
  }

  lemma LaterEsc(x: seq<Byte>, len: nat)
    requires len < |x| && ESC in x[len..]
    ensures FromLastEsc(x) == FromLastEsc(x[len..])
  {
    var u := FromLastEsc(x[len..]);
    hide FromLastEsc;
    assert x[len..][|x| - len - |u|..] == x[|x| - |u|..];
    LastEscIs(x, u);
  }

  lemma FirstEsc(x: seq<Byte>, len: nat)
    requires 1 <= len < |x| && ESC !in x[1..len] && ESC !in x[len..]
    ensures FromLastEsc(x) == [] || FromLastEsc(x) == x
  {
    var t := FromLastEsc(x);
    hide FromLastEsc;
    if t != [] {
      LastEscAt(x, t);
      NoLaterEsc(x, len);
    }
  }

  /** Taking a first token off leaves an open end alone. */
  lemma LaterOpen(kitty: Classifier, x: seq<Byte>, len: nat)
    requires 1 <= len < |x| && NextKey(kitty, x).Some? && NextKey(kitty, x).value.len == len && ESC !in x[1..len]
    ensures var t, u := FromLastEsc(x), FromLastEsc(x[len..]);
            (Open(t) <==> Open(u)) && (Open(t) ==> t == u)
  {
    assert !Open([]);
    hide FromLastEsc, NextKey, Open;
    if ESC in x[len..] {
      LaterEsc(x, len);
    } else {
      FirstEsc(x, len);
      if Open(x) {
        OpenIsWhole(kitty, x);
      }
    }
  }

  lemma NoLaterEsc(x: seq<Byte>, len: nat)
    requires 1 <= len < |x| && ESC !in x[1..len] && ESC !in x[len..]
    ensures forall k :: 1 <= k < |x| ==> x[k] != ESC
  {
    forall k | 1 <= k < |x| ensures x[k] != ESC {
      assert if k < len then x[k] == x[1..len][k - 1] else x[k] == x[len..][k - len];
    }
  }

  /** The state the filter is in when it comes to the last token. */
  function BeforeLast(st: State, s: Stream): State
    decreases s
  {
    match s
    case End(_) => st
    case Press(key, bytes, rest) => if rest == End([]) then st else BeforeLast(Handle(st, key, bytes).st, rest)
  }

  /** A cut is safe if the read does not end in an open token, or ends in an ESC and no `[`
      follows. */
  lemma {:induction false} SafeByEnd(kitty: Classifier, st: State, s: Stream, b: seq<Byte>)
    requires LastOpen(s).None? || (LastOpen(s) == Some([ESC]) && (b == [] || b[0] != LBRACKET))
    ensures SafeCut(kitty, st, s, b)
    decreases s
  {
    match s
    case End(_) =>
    case Press(key, bytes, rest) =>
      if rest != End([]) {
        SafeByEnd(kitty, Handle(st, key, bytes).st, rest, b);
      }
  }

  /** After a first read without an escape, only the open token decides. */
  lemma {:induction false} SafeByEndExactly(kitty: Classifier, st: State, s: Stream)
    requires LastOpen(s).Some? && !Feed(st, s).escaped
    ensures SafeCut(kitty, st, s, [LBRACKET]) <==>
            LastOpen(s).value != [ESC] && HarmlessEnding(kitty, BeforeLast(st, s), LastOpen(s).value)
    decreases s
  {
    var Press(key, bytes, rest) := s;
    if rest != End([]) {
      SafeByEndExactly(kitty, Handle(st, key, bytes).st, rest);
    }
  }

  lemma {:induction false} BeforeLastValid(st: State, s: Stream)
    requires st.held != [] ==> st.atLineStart
    ensures BeforeLast(st, s).held != [] ==> BeforeLast(st, s).atLineStart
    decreases s
  {
    match s
    case End(_) =>
    case Press(key, bytes, rest) =>
      if rest != End([]) {
        BeforeLastValid(Handle(st, key, bytes).st, rest);
      }
  }

  /** The bytes so far end in a control sequence that is unfinished and too long to wait for. */
  predicate EndsInLong(x: seq<Byte>) {
    Unfinished(FromLastEsc(x)) && |FromLastEsc(x)| > MAX_PARTIAL_CSI_LEN
  }

  /** The cut cannot be seen if it falls neither between ESC and `[` nor inside a control
      sequence of more than 256 bytes, in every state and for every classifier. */
  lemma ReadBoundaryBytes(kitty: Classifier, st: State, a: seq<Byte>, b: seq<Byte>)
    requires st.Valid()
    requires FromLastEsc(st.partial + a) == [ESC] ==> b == [] || b[0] != LBRACKET
    requires !EndsInLong(st.partial + a)
    ensures TwoReads(kitty, st, a, b) == OneRead(kitty, st, a + b)
  {
    var x := st.partial + a;
    LastOpenIs(kitty, x);
    SafeByEnd(kitty, st.(partial := []), Tokenise(kitty, x), b);
    ReadBoundary(kitty, st, a, b);
  }

  /** The first exception: ESC in one read, `[` in the next. */
  lemma CutAfterEsc(kitty: Classifier)
    ensures TwoReads(kitty, INITIAL, [ESC], [LBRACKET]) != OneRead(kitty, INITIAL, [ESC] + [LBRACKET])
  {
    var x := [ESC] + [LBRACKET];
    TwoReadsIsFeedThen(kitty, INITIAL, [ESC], [LBRACKET]);
    assert [] + [ESC] == [ESC] && [ESC][..1] == [ESC] && [ESC][1..] == [];
    assert Tokenise(kitty, [ESC]) == Press(Other, [ESC], End([]));
    OtherHandled(INITIAL, [ESC]);
    FeedThenPress(kitty, INITIAL, Other, [ESC], End([]), [LBRACKET]);
    assert Unfinished(x) && Tokenise(kitty, x) == End(x);
  }

  function LongReport(): seq<Byte> {
    [ESC, LBRACKET, 0x3c] + seq(300, i => 0x30)
  }

  /** The second: a mouse report of more than 256 bytes whose last byte comes in the next
      read. In one read it is ignored, and the line start stays. */
  lemma CutInLongReport(kitty: Classifier)
    ensures TwoReads(kitty, INITIAL, LongReport(), [0x4d]) != OneRead(kitty, INITIAL, LongReport() + [0x4d])
  {
    var x := LongReport();
    assert Unfinished(x) by {
      assert forall i :: 0 <= i < |x[2..]| ==> IsParam(x[2..][i]);
    }
    hide LongReport;
    CutInLong(kitty, x, 0x4d);
  }

  /** ... as for every private report of that length at the start of a line. */
  lemma CutInLong(kitty: Classifier, x: seq<Byte>, final: Byte)
    requires Unfinished(x) && |x| > MAX_PARTIAL_CSI_LEN && PrivateReport(x) && IsFinal(final)
    ensures TwoReads(kitty, INITIAL, x, [final]) != OneRead(kitty, INITIAL, x + [final])
  {
    LongIsOneToken(kitty, x);
    TwoReadsIsFeedThen(kitty, INITIAL, x, [final]);
    assert [] + x == x && [] + [final] == [final];
    assert (x[2..] + [])[0] == x[2];
    hide TwoReads, OneRead, Feed, FeedThen, Tokenise;
    LongDiffers(kitty, INITIAL, x, [], final);
  }

  lemma LongIsOneToken(kitty: Classifier, x: seq<Byte>)
    requires Unfinished(x) && |x| > MAX_PARTIAL_CSI_LEN
    ensures Tokenise(kitty, x) == Press(Other, x, End([]))
  {
    OpenIsWhole(kitty, x);
    assert x[..|x|] == x && x[|x|..] == [];
  }

  // ----- Read boundaries: exactly, over the classifiers -----

  /** The classifiers agree on parameters of up to `n` bytes. */
  ghost predicate SameUpTo(k: Classifier, kitty: Classifier, n: nat) {
    forall p :: |p| <= n ==> k(p) == kitty(p)
  }

  lemma {:induction false} SameTokens(k: Classifier, kitty: Classifier, x: seq<Byte>, n: nat)
    requires SameUpTo(k, kitty, n) && |x| <= n
    ensures Tokenise(k, x) == Tokenise(kitty, x)
    decreases |x|
  {
    if x != [] {
      assert NextKey(k, x) == NextKey(kitty, x) by {
        if StartsCsi(x) {
          assert |x[2..ParamsEnd(x, 2)]| <= n;
        }
      }
      if NextKey(k, x).Some? {
        SameTokens(k, kitty, x[NextKey(k, x).value.len..], n);
      }
    }
  }

  /** The control sequence is a private-prefixed report, which is no key press. */
  predicate PrivateReport(x: seq<Byte>) {
    |x| > 2 && 0x3c <= x[2] <= 0x3f
  }

  lemma PrivateIsHarmless(k: Classifier, st: State, x: seq<Byte>)
    requires Unfinished(x) && PrivateReport(x) && !st.atLineStart && st.held == []
    ensures HarmlessEnding(k, st, x)
  {
    forall params: seq<Byte>, final: Byte | AllParams(params) && IsFinal(final)
      ensures LikeOther(st, ClassifyCsi(k, x[2..] + params, final))
    {
      assert (x[2..] + params)[0] == x[2];
    }
  }

  /** Otherwise some classifier, or any one, makes an ending of it matter. */
  lemma OthersMatter(kitty: Classifier, st: State, x: seq<Byte>, n: nat) returns (k: Classifier)
    requires Unfinished(x) && |x| > MAX_PARTIAL_CSI_LEN
    requires !PrivateReport(x) || st.atLineStart
    ensures SameUpTo(k, kitty, n) && !HarmlessEnding(k, st, x)
  {
    k := p => if |p| <= n then kitty(p) else Enter;
    var params: seq<Byte> := seq(n + 1, i => 0x30);
    assert AllParams(params) && IsFinal(0x75);
    assert (x[2..] + params)[0] == x[2];
    assert !LikeOther(st, ClassifyCsi(k, x[2..] + params, 0x75));
  }

  /** Nothing the filter could do with the next read shows the cut. */
  ghost predicate Invisible(k: Classifier, st: State, a: seq<Byte>) {
    forall b :: TwoReads(k, st, a, b) == OneRead(k, st, a + b)
  }

  lemma InvisibleByEnd(k: Classifier, kitty: Classifier, st: State, a: seq<Byte>)
    requires st.Valid() && SameUpTo(k, kitty, |st.partial + a|) && !OneRead(kitty, st, a).escaped
    ensures var x, st0 := st.partial + a, st.(partial := []);
            Invisible(k, st, a) <==>
            && FromLastEsc(x) != [ESC]
            && (EndsInLong(x) ==> HarmlessEnding(k, BeforeLast(st0, Tokenise(kitty, x)), FromLastEsc(x)))
  {
    var x, st0 := st.partial + a, st.(partial := []);
    SameTokens(k, kitty, x, |x|);
    LastOpenIs(k, x);
    OneReadIsFeed(kitty, st, a);
    ReadBoundaryExactly(k, st, a);
    hide HarmlessEnding, Tokenise, OneRead, TwoReads, FromLastEsc, Feed, SafeCut;
    if Open(FromLastEsc(x)) {
      SafeByEndExactly(k, st0, Tokenise(k, x));
    } else {
      SafeByEnd(k, st0, Tokenise(k, x), [LBRACKET]);
    }
  }

  /** After an escape nothing shows the cut. */
  lemma {:induction false} EscapedIsSafe(kitty: Classifier, st: State, s: Stream, b: seq<Byte>)
    requires Tokenised(s) && Feed(st, s).escaped
    ensures SafeCut(kitty, st, s, b)
    decreases s
  {
    var Press(key, bytes, rest) := s;
    if !Handle(st, key, bytes).escaped {
      EscapedIsSafe(kitty, Handle(st, key, bytes).st, rest, b);
    }
  }

  lemma EscapedIsInvisible(k: Classifier, kitty: Classifier, st: State, a: seq<Byte>)
    requires st.Valid() && SameUpTo(k, kitty, |st.partial + a|) && OneRead(kitty, st, a).escaped
    ensures Invisible(k, st, a)
  {
    var x, st0 := st.partial + a, st.(partial := []);
    SameTokens(k, kitty, x, |x|);
    OneReadIsFeed(kitty, st, a);
    TokeniseTokenised(k, x);
    hide Tokenise, OneRead, TwoReads, Feed, SafeCut, Tokenised;
    forall b ensures TwoReads(k, st, a, b) == OneRead(k, st, a + b) {
      EscapedIsSafe(k, st0, Tokenise(k, x), b);
      ReadBoundary(k, st, a, b);
    }
  }

  /** The cut is invisible whatever the next read, and however the classifier judges longer
      parameters than the bytes so far can hold. */
  ghost predicate AlwaysInvisible(kitty: Classifier, st: State, a: seq<Byte>) {
    forall k :: SameUpTo(k, kitty, |st.partial + a|) ==> Invisible(k, st, a)
  }

  /** Exactly: the cut is always invisible if and only if the first read reports an escape, or
      the bytes do not end in ESC, and if they end in a control sequence too long to wait for,
      it is a private report and the filter came to it in the middle of a line. */
  lemma ReadBoundaryByBytes(kitty: Classifier, st: State, a: seq<Byte>)
    requires st.Valid()
    ensures var x := st.partial + a;
            AlwaysInvisible(kitty, st, a) <==>
            || OneRead(kitty, st, a).escaped
            || (&& FromLastEsc(x) != [ESC]
                && (EndsInLong(x) ==>
                      && PrivateReport(FromLastEsc(x))
                      && !BeforeLast(st.(partial := []), Tokenise(kitty, x)).atLineStart))
  {
    if OneRead(kitty, st, a).escaped {
      forall k | SameUpTo(k, kitty, |st.partial + a|) ensures Invisible(k, st, a) {
        EscapedIsInvisible(k, kitty, st, a);
      }
    } else {
      InvisibleUnescaped(kitty, st, a);
    }
  }

  lemma InvisibleUnescaped(kitty: Classifier, st: State, a: seq<Byte>)
    requires st.Valid() && !OneRead(kitty, st, a).escaped
    ensures var x := st.partial + a;
            AlwaysInvisible(kitty, st, a) <==>
            && FromLastEsc(x) != [ESC]
            && (EndsInLong(x) ==>
                  && PrivateReport(FromLastEsc(x))
                  && !BeforeLast(st.(partial := []), Tokenise(kitty, x)).atLineStart)
  {
    var x := st.partial + a;
    var t, before := FromLastEsc(x), BeforeLast(st.(partial := []), Tokenise(kitty, x));
    BeforeLastValid(st.(partial := []), Tokenise(kitty, x));
    forall k | SameUpTo(k, kitty, |x|)
      ensures Invisible(k, st, a) <==> t != [ESC] && (EndsInLong(x) ==> HarmlessEnding(k, before, t))
    {
      InvisibleByEnd(k, kitty, st, a);
    }
    hide HarmlessEnding, Tokenise, OneRead, FromLastEsc, BeforeLast, Invisible;
    assert SameUpTo(kitty, kitty, |x|);
    if EndsInLong(x) {
      if PrivateReport(t) && !before.atLineStart {
        forall k: Classifier ensures HarmlessEnding(k, before, t) {
          PrivateIsHarmless(k, before, t);
        }
      } else {
        var k := OthersMatter(kitty, before, t, |x|);
        assert !HarmlessEnding(k, before, t);
      }
    }
  }

  /** All presses but the last. */
  function ButLast(keys: seq<Key>): seq<Key> {
    if keys == [] then [] else keys[..|keys| - 1]
  }

  /** The state at an open last token summarises the presses before it. */
  lemma {:induction false} BeforeLastSummarises(st: State, keys: seq<Key>, s: Stream)
    requires Summarises(st, keys) && Tokenised(s) && LastOpen(s).Some? && !Feed(st, s).escaped
    ensures s.Pressed() != [] && Summarises(BeforeLast(st, s), keys + ButLast(s.Pressed()))
    decreases s
  {
    var Press(key, bytes, rest) := s;
    if rest == End([]) {
      assert s.Pressed() == [Other] && keys + [] == keys;
    } else {
      HandleSummarises(st, keys, key, bytes);
      var o, first := Handle(st, key, bytes), if key == Ignore then [] else [key];
      assert keys + [] == keys;
      BeforeLastSummarises(o.st, keys + first, rest);
      ButLastAppend(keys, first, rest.Pressed());
    }
  }

  lemma ButLastAppend(keys: seq<Key>, first: seq<Key>, rest: seq<Key>)
    requires rest != []
    ensures keys + ButLast(first + rest) == keys + first + ButLast(rest)
  {
    assert (first + rest)[..|first + rest| - 1] == first + rest[..|rest| - 1];
  }

  /** The same over every run, in terms of the bytes and of the key presses so far: the cut
      after `a` is always invisible if and only if the presses hold an escape, or the bytes do
      not end in ESC, and a control sequence too long to wait for at their end is a private
      report that neither starts a line nor follows a `~` that does. */
  lemma ReadBoundaryByPresses(kitty: Classifier, inputs: seq<seq<Byte>>, a: seq<Byte>)
    requires !HasEscape(PressedIn(kitty, [], inputs))
    ensures var st, before := Run(kitty, INITIAL, inputs).st, PressedIn(kitty, [], inputs);
            var x := st.partial + a;
            var pressed := Tokenise(kitty, x).Pressed();
            AlwaysInvisible(kitty, st, a) <==>
            || HasEscape(before + pressed)
            || (&& FromLastEsc(x) != [ESC]
                && (EndsInLong(x) ==> PrivateReport(FromLastEsc(x)) && !AtLineStart(before + ButLast(pressed))))
  {
    var st, before := Run(kitty, INITIAL, inputs).st, PressedIn(kitty, [], inputs);
    var x := st.partial + a;
    RunSummarises(kitty, INITIAL, [], inputs);
    assert [] + before == before;
    RunValid(kitty, INITIAL, inputs);
    ReadSummarises(kitty, st, before, a);
    ReadBoundaryByBytes(kitty, st, a);
    hide Run, PressedIn, Tokenise, OneRead, FromLastEsc, BeforeLast, AlwaysInvisible, HasEscape, AtLineStart, Feed;
    if EndsInLong(x) && !OneRead(kitty, st, a).escaped {
      OneReadIsFeed(kitty, st, a);
      LastOpenIs(kitty, x);
      TokeniseTokenised(kitty, x);
      BeforeLastSummarises(st.(partial := []), before, Tokenise(kitty, x));
    }
  }
}
