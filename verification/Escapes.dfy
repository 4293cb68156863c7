/** The `<Enter>~.` disconnect escape: a tokeniser of terminal input that carries an
    unfinished control sequence across reads, and the filter that withholds a `~` until
    the next key press decides whether it starts an escape. */
module Escapes {
  import opened Common

  const ESC: Byte := 0x1b
  const LBRACKET: Byte := 0x5b
  const MAX_PARTIAL_CSI_LEN: nat := 256

  datatype Key = Enter | Tilde | Dot | Other | Ignore

  /** Classifies the parameters of a `CSI … u` key event. Every theorem below holds for
      every such classifier. */
  type Classifier = seq<Byte> -> Key

  // ----- Tokeniser -----

  predicate IsParam(b: Byte) { 0x20 <= b <= 0x3f }

  predicate IsFinal(b: Byte) { 0x40 <= b <= 0x7e }

  predicate AllParams(s: seq<Byte>) {
    forall i :: 0 <= i < |s| ==> IsParam(s[i])
  }

  /** The end of the run of parameter bytes that starts at `i`. */
  function ParamsEnd(s: seq<Byte>, i: nat): (n: nat)
    requires i <= |s|
    ensures i <= n <= |s|
    ensures forall k :: i <= k < n ==> IsParam(s[k])
    ensures n < |s| ==> !IsParam(s[n])
    decreases |s| - i
  {
    if i < |s| && IsParam(s[i]) then ParamsEnd(s, i + 1) else i
  }

  function ClassifyCsi(kitty: Classifier, params: seq<Byte>, final: Byte): Key {
    if params == [] && (final == 0x49 || final == 0x4f) then Ignore
    else if params != [] && 0x3c <= params[0] <= 0x3f then Ignore
    else if final == 0x75 then kitty(params)
    else Other
  }

  predicate StartsCsi(s: seq<Byte>) {
    |s| >= 2 && s[0] == ESC && s[1] == LBRACKET
  }

  /** A control sequence whose final byte has not arrived. */
  predicate Unfinished(s: seq<Byte>) {
    StartsCsi(s) && AllParams(s[2..])
  }

  datatype Token = Token(len: nat, key: Key)

  function SingleKey(b: Byte): Key {
    if b == 0x0d || b == 0x0a then Enter
    else if b == 0x7e then Tilde
    else if b == 0x2e then Dot
    else Other
  }

  function NextKey(kitty: Classifier, input: seq<Byte>): (t: Option<Token>)
    requires input != []
    ensures t.Some? ==> 1 <= t.value.len <= |input|
    ensures t.None? <==> Unfinished(input) && |input| <= MAX_PARTIAL_CSI_LEN
  {
    if StartsCsi(input) then
      var n := ParamsEnd(input, 2);
      assert Unfinished(input) <==> n == |input| by {
        if n < |input| {
          assert !IsParam(input[2..][n - 2]);
        }
      }
      if n < |input| then
        if IsFinal(input[n]) then Some(Token(n + 1, ClassifyCsi(kitty, input[2..n], input[n])))
        else Some(Token(n, Other))
      else if |input| > MAX_PARTIAL_CSI_LEN then Some(Token(|input|, Other))
      else None
    else Some(Token(1, SingleKey(input[0])))
  }

  // ----- Filter -----

  datatype State = State(atLineStart: bool, held: seq<Byte>, partial: seq<Byte>) {
    /** Bytes are held only from a `~` at line start, and the carried partial is empty or
        an unfinished control sequence of at most 256 bytes. */
    predicate Valid() {
      && (held != [] ==> atLineStart)
      && (partial != [] ==> Unfinished(partial) && |partial| <= MAX_PARTIAL_CSI_LEN)
    }
  }

  const INITIAL := State(true, [], [])

  datatype Outcome = Outcome(escaped: bool, st: State, out: seq<Byte>)

  function Emit(st: State, key: Key, bytes: seq<Byte>): Outcome {
    if key == Tilde && st.atLineStart then Outcome(false, st.(held := st.held + bytes), [])
    else if key == Ignore then Outcome(false, st, bytes)
    else Outcome(false, st.(atLineStart := key == Enter), bytes)
  }

  function Handle(st: State, key: Key, bytes: seq<Byte>): Outcome {
    if st.held == [] then Emit(st, key, bytes)
    else if key == Dot then Outcome(true, st, [])
    else if key == Ignore then Outcome(false, st.(held := st.held + bytes), [])
    else
      var o := Emit(st.(held := [], atLineStart := false), key, bytes);
      o.(out := st.held + o.out)
  }

  /** Puts output produced earlier in front. */
  function After(out: seq<Byte>, o: Outcome): Outcome {
    o.(out := out + o.out)
  }

  function Scan(kitty: Classifier, st: State, input: seq<Byte>): Outcome
    decreases |input|
  {
    if input == [] then Outcome(false, st, [])
    else
      match NextKey(kitty, input)
      case None => Outcome(false, st.(partial := st.partial + input), [])
      case Some(Token(len, key)) =>
        var o := Handle(st, key, input[..len]);
        if o.escaped then o else After(o.out, Scan(kitty, o.st, input[len..]))
  }

  lemma AfterAfter(a: seq<Byte>, b: seq<Byte>, o: Outcome)
    ensures After(a, After(b, o)) == After(a + b, o)
  {
    assert a + (b + o.out) == a + b + o.out;
  }

  /** One read: the carried partial is put in front of the new bytes. */
  function OneRead(kitty: Classifier, st: State, input: seq<Byte>): Outcome
  {
    Scan(kitty, st.(partial := []), st.partial + input)
  }

  /** Reads in order, stopping at an escape. */
  function Run(kitty: Classifier, st: State, inputs: seq<seq<Byte>>): Outcome
    decreases |inputs|
  {
    if inputs == [] then Outcome(false, st, [])
    else
      var o := OneRead(kitty, st, inputs[0]);
      if o.escaped then o else After(o.out, Run(kitty, o.st, inputs[1..]))
  }

  class EscapeFilter {
    const kitty: Classifier
    var enabled: bool
    var atLineStart: bool
    var held: seq<Byte>
    var partial: seq<Byte>

    ghost function Value(): State
      reads this
    {
      State(atLineStart, held, partial)
    }

    constructor (kitty: Classifier, enabled: bool)
      ensures this.kitty == kitty && this.enabled == enabled && Value() == INITIAL
    {
      this.kitty := kitty;
      this.enabled := enabled;
      atLineStart := true;
      held := [];
      partial := [];
    }

    method HandleKey(key: Key, bytes: seq<Byte>, before: seq<Byte>) returns (escaped: bool, output: seq<Byte>)
      modifies this`atLineStart, this`held
      ensures Outcome(escaped, Value(), output) == After(before, Handle(old(Value()), key, bytes))
    {
      output := before;
      if held != [] {
        match key {
          case Dot => return true, output;
          case Ignore =>
            held := held + bytes;
            return false, output;
          case _ =>
            output := output + held;
            held := [];
            atLineStart := false;
        }
      }
      if key == Tilde && atLineStart {
        held := held + bytes;
      } else if key == Ignore {
        output := output + bytes;
      } else {
        output := output + bytes;
        atLineStart := key == Enter;
      }
      escaped := false;
    }

    method Push(input: seq<Byte>, before: seq<Byte>) returns (escaped: bool, output: seq<Byte>)
      modifies this`atLineStart, this`held, this`partial
      ensures enabled ==>
              Outcome(escaped, Value(), output) == After(before, OneRead(kitty, old(Value()), input))
      ensures !enabled ==> !escaped && Value() == old(Value()) && output == before + input
    {
      output := before;
      if !enabled {
        return false, output + input;
      }
      var joined := partial + input;
      partial := [];
      var pos := 0;
      ghost var rest := joined;
      while pos < |joined|
        invariant pos <= |joined| && rest == joined[pos..] && enabled && partial == []
        invariant After(before, OneRead(kitty, old(Value()), input)) == After(output, Scan(kitty, Value(), rest))
      {
        hide NextKey, Handle;
        var next := NextKey(kitty, joined[pos..]);
        if next.None? {
          partial := partial + joined[pos..];
          break;
        }
        var len := next.value.len;
        assert rest[..len] == joined[pos..pos + len] && rest[len..] == joined[pos + len..];
        ghost var o, was := Handle(Value(), next.value.key, rest[..len]), output;
        escaped, output := HandleKey(next.value.key, joined[pos..pos + len], output);
        if escaped {
          return;
        }
        AfterAfter(was, o.out, Scan(kitty, o.st, rest[len..]));
        pos := pos + len;
        rest := rest[len..];
      }
      escaped := false;
    }

    /** End of input: everything withheld goes out, and nothing is kept. */
    method Finish(before: seq<Byte>) returns (output: seq<Byte>)
      modifies this`held, this`partial
      ensures output == before + old(held) + old(partial) && held == [] && partial == []
    {
      output := before + held + partial;
      held := [];
      partial := [];
    }
  }
}
