/** Following the alternate screen switches `CSI ? 47/1047/1049 h/l` in terminal output,
    one byte at a time (control sequences as in section 5.4 of ECMA-48). */
module AltScreen {
  import opened Common

  const ESC: Byte := 0x1b
  const LBRACKET: Byte := 0x5b
  const QUESTION: Byte := 0x3f
  const SEMICOLON: Byte := 0x3b
  const SET: Byte := 0x68
  const RESET: Byte := 0x6c

  datatype Screen = Off | Plain | SaveCursor

  datatype CsiState = Ground | Escape | Entry | PrivateParams | Skipping

  datatype Tracker = Tracker(alt: Screen, state: CsiState, param: nat, mode: Option<Screen>)

  const INITIAL := Tracker(Off, Ground, 0, None)

  /** C0 controls that execute without interrupting a control sequence. */
  predicate Executes(b: Byte) {
    b <= 0x1f && b != ESC && b != 0x18 && b != 0x1a
  }

  predicate IsDigit(b: Byte) { 0x30 <= b <= 0x39 }

  /** `u32` multiplication by ten and addition of a digit, both saturating. */
  function Accumulate(param: nat, digit: nat): nat {
    Min(Min(param * 10, U32_MAX) + digit, U32_MAX)
  }

  function ModeOf(value: nat): Option<Screen> {
    if value == 47 || value == 1047 then Some(Plain)
    else if value == 1049 then Some(SaveCursor)
    else None
  }

  function EndParam(t: Tracker): Tracker {
    t.(param := 0, mode := if ModeOf(t.param).Some? then ModeOf(t.param) else t.mode)
  }

  function Step(t: Tracker, b: Byte): Tracker {
    if b == ESC then t.(state := Escape)
    else if b == 0x18 || b == 0x1a then t.(state := Ground)
    else if t.state == Ground then t
    else if t.state == Escape then t.(state := if b == LBRACKET then Entry else Ground)
    else if b <= 0x1f then t
    else if t.state == Entry && b == QUESTION then t.(param := 0, mode := None, state := PrivateParams)
    else if t.state == PrivateParams && IsDigit(b) then t.(param := Accumulate(t.param, b - 0x30))
    else if t.state == PrivateParams && b == SEMICOLON then EndParam(t)
    else if t.state == PrivateParams && (b == SET || b == RESET) then
      var e := EndParam(t);
      e.(state := Ground,
         alt := if e.mode.None? then e.alt else if b == SET then e.mode.value else Off)
    else if 0x40 <= b <= 0x7e then t.(state := Ground)
    else t.(state := Skipping)
  }

  function Feed(t: Tracker, bytes: seq<Byte>): Tracker
    decreases |bytes|
  {
    if bytes == [] then t else Feed(Step(t, bytes[0]), bytes[1..])
  }

  class AltScreenTracker {
    var alt: Screen
    var state: CsiState
    var param: nat
    var mode: Option<Screen>

    ghost function Value(): Tracker
      reads this
    {
      Tracker(alt, state, param, mode)
    }

    constructor ()
      ensures Value() == INITIAL
    {
      alt, state, param, mode := Off, Ground, 0, None;
    }

    method EndParameter()
      modifies this`param, this`mode
      ensures Value() == EndParam(old(Value()))
    {
      match param {
        case 47 => mode := Some(Plain);
        case 1047 => mode := Some(Plain);
        case 1049 => mode := Some(SaveCursor);
        case _ =>
      }
      param := 0;
    }

    method Push(output: seq<Byte>) returns (changed: bool)
      modifies this
      ensures Value() == Feed(old(Value()), output)
      ensures changed <==> alt != old(alt)
    {
      var before := alt;
      assert output[0..] == output;
      for i := 0 to |output|
        invariant Feed(old(Value()), output) == Feed(Value(), output[i..])
      {
        assert output[i..][1..] == output[i + 1..];
        ghost var was := Value();
        var b := output[i];
        if b == ESC {
          state := Escape;
        } else if b == 0x18 || b == 0x1a {
          state := Ground;
        } else if state == Ground {
        } else if state == Escape {
          state := if b == LBRACKET then Entry else Ground;
        } else if b <= 0x1f {
        } else if state == Entry && b == QUESTION {
          param := 0;
          mode := None;
          state := PrivateParams;
        } else if state == PrivateParams && IsDigit(b) {
          param := Min(Min(param * 10, U32_MAX) + (b - 0x30), U32_MAX);
        } else if state == PrivateParams && b == SEMICOLON {
          EndParameter();
        } else if state == PrivateParams && (b == SET || b == RESET) {
          EndParameter();
          if mode.Some? {
            alt := if b == SET then mode.value else Off;
          }
          state := Ground;
        } else if 0x40 <= b <= 0x7e {
          state := Ground;
        } else {
          state := Skipping;
        }
        assert Value() == Step(was, b);
      }
      return alt != before;
    }
  }

  // ----- What a switch sequence means -----

  predicate AllDigits(s: seq<Byte>) {
    forall i :: 0 <= i < |s| ==> IsDigit(s[i])
  }

  /** The decimal value, without any bound. */
  function Decimal(digits: seq<Byte>): nat
    requires AllDigits(digits)
  {
    if digits == [] then 0
    else Decimal(digits[..|digits| - 1]) * 10 + (digits[|digits| - 1] - 0x30)
  }

  predicate Numbers(params: seq<seq<Byte>>) {
    forall i :: 0 <= i < |params| ==> AllDigits(params[i])
  }

  /** The parameters as written, separated by semicolons. */
  function Join(params: seq<seq<Byte>>): seq<Byte>
    requires params != []
  {
    var n := |params| - 1;
    if n == 0 then params[0] else Join(params[..n]) + [SEMICOLON] + params[n]
  }

  /** The screen named by the last parameter that names one. */
  function LastMode(params: seq<seq<Byte>>): Option<Screen>
    requires Numbers(params)
  {
    if params == [] then None
    else
      var n := |params| - 1;
      var m := ModeOf(Decimal(params[n]));
      if m.Some? then m else LastMode(params[..n])
  }

  /** The bytes of a sequence with the C0 controls that merely execute taken out. */
  function Strip(s: seq<Byte>): seq<Byte> {
    if s == [] then []
    else
      var n := |s| - 1;
      Strip(s[..n]) + if Executes(s[n]) then [] else [s[n]]
  }

  /** `w`, the bytes after `ESC [`, is `? n1;...;nk h` or `l`, perhaps with C0 controls between. */
  predicate IsSwitch(w: seq<Byte>, params: seq<seq<Byte>>, final: Byte) {
    && params != [] && Numbers(params)
    && (final == SET || final == RESET)
    && Strip(w) == [QUESTION] + Join(params) + [final]
  }

  // ----- Splitting into reads -----

  /** Reads may be split anywhere. */
  lemma {:induction false} FeedAppend(t: Tracker, a: seq<Byte>, b: seq<Byte>)
    ensures Feed(t, a + b) == Feed(Feed(t, a), b)
    decreases |a|
  {
    if a == [] {
      assert a + b == b;
    } else {
      FeedAppend(Step(t, a[0]), a[1..], b);
      assert (a + b)[1..] == a[1..] + b;
    }
  }

  lemma FeedLast(t: Tracker, a: seq<Byte>, b: Byte)
    ensures Feed(t, a + [b]) == Step(Feed(t, a), b)
  {
    FeedAppend(t, a, [b]);
  }

  // ----- A switch sequence has its meaning from any state -----

  /** Overlong numbers saturate, so they never read as a mode they do not spell. */
  lemma {:induction false} DigitsSaturate(t: Tracker, digits: seq<Byte>)
    requires t.state == PrivateParams && t.param == 0 && AllDigits(digits)
    ensures Feed(t, digits) == t.(param := Min(Decimal(digits), U32_MAX))
  {
    if digits != [] {
      var n := |digits| - 1;
      DigitsSaturate(t, digits[..n]);
      FeedLast(t, digits[..n], digits[n]);
      assert digits == digits[..n] + [digits[n]];
    }
  }

  lemma {:induction false} ParamsTracked(t: Tracker, params: seq<seq<Byte>>)
    requires t.state == PrivateParams && t.param == 0 && t.mode == None && params != [] && Numbers(params)
    ensures Feed(t, Join(params)) ==
            t.(param := Min(Decimal(params[|params| - 1]), U32_MAX), mode := LastMode(params[..|params| - 1]))
    decreases |params|
  {
    var n := |params| - 1;
    if n == 0 {
      DigitsSaturate(t, params[0]);
    } else {
      var init := Join(params[..n]);
      ParamsTracked(t, params[..n]);
      FeedAppend(t, init + [SEMICOLON], params[n]);
      FeedLast(t, init, SEMICOLON);
      assert params[..n][..n - 1] == params[..n - 1];
      DigitsSaturate(Feed(t, init + [SEMICOLON]), params[n]);
    }
  }

  /** C0 controls after `ESC [` change nothing. */
  lemma {:induction false} ControlsExecute(t: Tracker, w: seq<Byte>)
    requires t.state != Escape && ESC !in Strip(w)
    ensures Feed(t, w) == Feed(t, Strip(w)) && Feed(t, w).state != Escape
    decreases |w|
  {
    if w != [] {
      hide Feed;
      var n := |w| - 1;
      assert w == w[..n] + [w[n]];
      FeedLast(t, w[..n], w[n]);
      if Executes(w[n]) {
        assert Strip(w) == Strip(w[..n]);
        ControlsExecute(t, w[..n]);
      } else {
        assert w[n] == Strip(w)[|Strip(w)| - 1];
        assert forall b :: b in Strip(w[..n]) ==> b in Strip(w);
        ControlsExecute(t, w[..n]);
        FeedLast(t, Strip(w[..n]), w[n]);
      }
    }
  }

  lemma NoEscapeIn(params: seq<seq<Byte>>)
    requires params != [] && Numbers(params)
    ensures ESC !in Join(params)
  {
  }

  /** From any state, a switch sequence sets the screen by the last parameter whose value is
      exactly 47, 1047 or 1049, to Off for `l`, and leaves it alone if there is none. */
  lemma SwitchSequence(t: Tracker, w: seq<Byte>, params: seq<seq<Byte>>, final: Byte)
    requires IsSwitch(w, params, final)
    ensures var m := LastMode(params);
            Feed(t, [ESC, LBRACKET] + w) ==
            Tracker(if m.None? then t.alt else if final == SET then m.value else Off, Ground, 0, m)
  {
    hide Strip, Join, Decimal, LastMode;
    var e := t.(state := Entry);
    assert Feed(t, [ESC, LBRACKET]) == e by {
      FeedLast(t, [ESC], LBRACKET);
      assert [ESC, LBRACKET] == [ESC] + [LBRACKET];
    }
    FeedAppend(t, [ESC, LBRACKET], w);
    NoEscapeIn(params);
    ControlsExecute(e, w);
    var p := t.(state := PrivateParams, param := 0, mode := None);
    assert Feed(e, [QUESTION]) == p;
    hide Feed;
    FeedLast(e, [QUESTION] + Join(params), final);
    FeedAppend(e, [QUESTION], Join(params));
    ParamsTracked(p, params);
    LastModeStep(params);
  }

  lemma LastModeStep(params: seq<seq<Byte>>)
    requires params != [] && Numbers(params)
    ensures var n := |params| - 1;
            var m := ModeOf(Decimal(params[n]));
            LastMode(params) == if m.Some? then m else LastMode(params[..n])
  {
  }

  // ----- Nothing else switches the screen -----

  /** What the stream must have held for the tracker to be where it is. */
  ghost predicate Explains(x: seq<Byte>, t: Tracker, y: seq<Byte>, w: seq<Byte>, params: seq<seq<Byte>>) {
    match t.state
    case Escape => x == y + [ESC]
    case Entry => x == y + [ESC, LBRACKET] + w && Strip(w) == []
    case PrivateParams =>
      && x == y + [ESC, LBRACKET] + w
      && params != [] && Numbers(params)
      && Strip(w) == [QUESTION] + Join(params)
      && t.param == Min(Decimal(params[|params| - 1]), U32_MAX)
      && t.mode == LastMode(params[..|params| - 1])
    case _ => true
  }

  lemma StripLast(w: seq<Byte>, b: Byte)
    ensures Strip(w + [b]) == Strip(w) + if Executes(b) then [] else [b]
  {
    assert (w + [b])[..|w|] == w;
  }

  lemma DigitExtends(params: seq<seq<Byte>>, b: Byte) returns (more: seq<seq<Byte>>)
    requires params != [] && Numbers(params) && IsDigit(b)
    ensures more != [] && Numbers(more) && Join(more) == Join(params) + [b]
    ensures more[..|more| - 1] == params[..|params| - 1]
    ensures Decimal(more[|more| - 1]) == Decimal(params[|params| - 1]) * 10 + (b - 0x30)
  {
    var n := |params| - 1;
    more := params[n := params[n] + [b]];
    assert more[..n] == params[..n];
    assert more[n][..|params[n]|] == params[n];
    if n > 0 {
      assert Join(params) + [b] == Join(params[..n]) + [SEMICOLON] + (params[n] + [b]);
    }
  }

  lemma SemicolonExtends(params: seq<seq<Byte>>) returns (more: seq<seq<Byte>>)
    requires params != [] && Numbers(params)
    ensures more != [] && Numbers(more) && Join(more) == Join(params) + [SEMICOLON]
    ensures more[..|more| - 1] == params && more[|more| - 1] == []
  {
    more := params + [[]];
    assert more[..|params|] == params;
    assert Join(params) + [SEMICOLON] + [] == Join(params) + [SEMICOLON];
  }

  /** One byte more keeps an explanation. */
  lemma ExplainStep(x: seq<Byte>, b: Byte, t: Tracker, y: seq<Byte>, w: seq<Byte>, params: seq<seq<Byte>>)
    returns (y': seq<Byte>, w': seq<Byte>, params': seq<seq<Byte>>)
    requires Explains(x, t, y, w, params)
    ensures Explains(x + [b], Step(t, b), y', w', params')
  {
    y', w', params' := y, w + [b], params;
    StripLast(w, b);
    assert y + [ESC, LBRACKET] + w + [b] == y + [ESC, LBRACKET] + (w + [b]);
    if b == ESC {
      y' := x;
    } else if t.state == Escape {
      w' := [];
      assert y + [ESC] + [LBRACKET] == y + [ESC, LBRACKET] + [];
    } else if t.state == Entry && b == QUESTION {
      params' := [[]];
      assert [QUESTION] + Join([[]]) == [QUESTION];
    } else if t.state == PrivateParams && IsDigit(b) {
      params' := DigitExtends(params, b);
      assert [QUESTION] + Join(params) + [b] == [QUESTION] + (Join(params) + [b]);
    } else if t.state == PrivateParams && b == SEMICOLON {
      params' := SemicolonExtends(params);
      assert [QUESTION] + Join(params) + [b] == [QUESTION] + (Join(params) + [b]);
    }
  }

  lemma {:induction false} Explained(x: seq<Byte>) returns (y: seq<Byte>, w: seq<Byte>, params: seq<seq<Byte>>)
    ensures Explains(x, Feed(INITIAL, x), y, w, params)
    decreases |x|
  {
    if x == [] {
      y, w, params := [], [], [];
    } else {
      var n := |x| - 1;
      assert x == x[..n] + [x[n]];
      y, w, params := Explained(x[..n]);
      y, w, params := ExplainStep(x[..n], x[n], Feed(INITIAL, x[..n]), y, w, params);
      FeedLast(INITIAL, x[..n], x[n]);
    }
  }

  /** Whenever a byte changes the screen, the stream so far ends in a switch sequence with a
      parameter that names a screen. */
  lemma OnlySwitchSequences(x: seq<Byte>, b: Byte) returns (y: seq<Byte>, w: seq<Byte>, params: seq<seq<Byte>>)
    requires Feed(INITIAL, x + [b]).alt != Feed(INITIAL, x).alt
    ensures x + [b] == y + [ESC, LBRACKET] + w
    ensures IsSwitch(w, params, b) && LastMode(params).Some?
  {
    FeedLast(INITIAL, x, b);
    var v;
    y, v, params := Explained(x);
    w := v + [b];
    StripLast(v, b);
    assert y + [ESC, LBRACKET] + v + [b] == y + [ESC, LBRACKET] + w;
    assert params == params[..|params| - 1] + [params[|params| - 1]];
  }

  // ----- The screen a whole stream leaves -----

  /** The stream ends in this switch sequence, and one of its parameters names a screen. */
  predicate EndsIn(x: seq<Byte>, y: seq<Byte>, w: seq<Byte>, params: seq<seq<Byte>>, final: Byte) {
    x == y + [ESC, LBRACKET] + w && IsSwitch(w, params, final) && LastMode(params).Some?
  }

  ghost predicate EndsInSwitch(x: seq<Byte>) {
    exists y, w, params, final :: EndsIn(x, y, w, params, final)
  }

  /** No switch sequence that names a screen ends after the first `k` bytes. */
  ghost predicate NoSwitchAfter(x: seq<Byte>, k: nat) {
    forall j :: k < j <= |x| ==> !EndsInSwitch(x[..j])
  }

  lemma ChangeEndsInSwitch(x: seq<Byte>, b: Byte)
    requires Feed(INITIAL, x + [b]).alt != Feed(INITIAL, x).alt
    ensures EndsInSwitch(x + [b])
  {
    var y, w, params := OnlySwitchSequences(x, b);
    assert EndsIn(x + [b], y, w, params, b);
  }

  lemma {:induction false} ScreenStays(x: seq<Byte>, k: nat)
    requires k <= |x| && NoSwitchAfter(x, k)
    ensures Feed(INITIAL, x).alt == Feed(INITIAL, x[..k]).alt
    decreases |x|
  {
    var n := |x| - 1;
    if k == |x| {
      assert x[..k] == x;
    } else {
      assert x[..n + 1] == x == x[..n] + [x[n]];
      forall j | k < j <= n ensures !EndsInSwitch(x[..n][..j]) {
        assert x[..n][..j] == x[..j];
      }
      ScreenStays(x[..n], k);
      assert x[..n][..k] == x[..k];
      hide Feed;
      if Feed(INITIAL, x[..n] + [x[n]]).alt != Feed(INITIAL, x[..n]).alt {
        ChangeEndsInSwitch(x[..n], x[n]);
      }
    }
  }

  /** The screen after a stream is the one set by the last switch sequence in it that names a
      screen: the last such parameter for `h`, none for `l`. */
  lemma LastSwitchDecides(x: seq<Byte>, k: nat, y: seq<Byte>, w: seq<Byte>, params: seq<seq<Byte>>, final: Byte)
    requires k <= |x| && EndsIn(x[..k], y, w, params, final) && NoSwitchAfter(x, k)
    ensures Feed(INITIAL, x).alt == if final == SET then LastMode(params).value else Off
  {
    hide Feed, NoSwitchAfter, IsSwitch, LastMode;
    ScreenStays(x, k);
    SwitchSequence(Feed(INITIAL, y), w, params, final);
    FeedAppend(INITIAL, y, [ESC, LBRACKET] + w);
    assert y + ([ESC, LBRACKET] + w) == y + [ESC, LBRACKET] + w;
  }

  /** A stream without such a sequence leaves the screen off. */
  lemma NoSwitchNoScreen(x: seq<Byte>)
    requires NoSwitchAfter(x, 0)
    ensures Feed(INITIAL, x).alt == Off
  {
    ScreenStays(x, 0);
  }
}
