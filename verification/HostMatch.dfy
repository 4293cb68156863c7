/** The ssh_config `Host` line matcher: a wildcard matcher that remembers only the
    last `*`, and the list of plain and negated patterns built on it. */
module HostMatch {
  import opened Common

  const STAR: Byte := 0x2a
  const QUESTION: Byte := 0x3f
  const BANG: Byte := 0x21

  function LowerByte(b: Byte): Byte {
    if 0x41 <= b <= 0x5a then b + 32 else b
  }

  function Lower(s: seq<Byte>): (r: seq<Byte>)
    ensures |r| == |s|
    ensures STAR in r <==> STAR in s
  {
    var r := seq(|s|, i requires 0 <= i < |s| => LowerByte(s[i]));
    assert STAR in s ==> STAR in r by {
      if STAR in s {
        var i :| 0 <= i < |s| && s[i] == STAR;
        assert r[i] == STAR;
      }
    }
    r
  }

  // ----- The reference: glob matching by recursion on the pattern -----

  /** The pattern from `p` on matches the host from `h` on: `*` matches any run of bytes,
      `?` any one byte, every other byte itself. */
  predicate GlobFrom(pattern: seq<Byte>, host: seq<Byte>, p: nat, h: nat)
    requires p <= |pattern| && h <= |host|
    decreases |pattern| - p + |host| - h
  {
    if p == |pattern| then h == |host|
    else if pattern[p] == STAR then
      GlobFrom(pattern, host, p + 1, h) || (h < |host| && GlobFrom(pattern, host, p, h + 1))
    else
      && h < |host|
      && (pattern[p] == QUESTION || pattern[p] == host[h])
      && GlobFrom(pattern, host, p + 1, h + 1)
  }

  predicate Glob(pattern: seq<Byte>, host: seq<Byte>) {
    GlobFrom(pattern, host, 0, 0)
  }

  predicate AllStars(p: seq<Byte>) {
    forall i :: 0 <= i < |p| ==> p[i] == STAR
  }

  /** The pattern byte at `p` accepts the host byte at `h` (the test made first in the loop). */
  predicate Accepts(pattern: seq<Byte>, host: seq<Byte>, p: nat, h: nat)
    requires h < |host|
  {
    p < |pattern| && (pattern[p] == QUESTION || pattern[p] == host[h])
  }

  // ----- The loop, one call per iteration -----

  /** Where the matcher stands: the two cursors, the last `*` and the host index it is
      currently stretched to. */
  datatype Cursor = Cursor(p: nat, h: nat, star: Option<nat>, afterStar: nat) {
    predicate Valid(pattern: seq<Byte>, host: seq<Byte>) {
      && p <= |pattern|
      && afterStar <= h <= |host|
      && (star.Some? ==> star.value < p && pattern[star.value] == STAR && p - (star.value + 1) == h - afterStar)
      && (star.None? ==> p == h && afterStar == 0)
    }
  }

  function Greedy(pattern: seq<Byte>, host: seq<Byte>, c: Cursor): bool
    requires c.Valid(pattern, host)
    decreases |pattern| - (if c.star.Some? then c.star.value + 1 else 0), |host| - c.afterStar, |host| - c.h
  {
    if c.h == |host| then AllStars(pattern[c.p..])
    else if Accepts(pattern, host, c.p, c.h) then
      Greedy(pattern, host, c.(p := c.p + 1, h := c.h + 1))
    else if c.p < |pattern| && pattern[c.p] == STAR then
      Greedy(pattern, host, Cursor(c.p + 1, c.h, Some(c.p), c.h))
    else if c.star.Some? then
      Greedy(pattern, host, Cursor(c.star.value + 1, c.afterStar + 1, c.star, c.afterStar + 1))
    else false
  }

  const START := Cursor(0, 0, None, 0)

  /** Whether the matcher accepts `host` for `pattern`. */
  predicate Matches(pattern: seq<Byte>, host: seq<Byte>) {
    Greedy(Lower(pattern), Lower(host), START)
  }

  /** The matcher with its two loops. It terminates on every input, never accepts more
      than the glob relation, and accepts exactly that when the host holds no `*`. */
  method HostPatternMatches(pattern: seq<Byte>, host: seq<Byte>) returns (matched: bool)
    ensures matched == Matches(pattern, host)
    ensures matched ==> Glob(Lower(pattern), Lower(host))
    ensures STAR !in host ==> (matched <==> Glob(Lower(pattern), Lower(host)))
  {
    hide GlobFrom, Lower;
    var pat, hst := Lower(pattern), Lower(host);
    var p: nat, h: nat := 0, 0;
    var star: Option<nat>, afterStar: nat := None, 0;
    while h < |hst|
      invariant Cursor(p, h, star, afterStar).Valid(pat, hst)
      invariant Matches(pattern, host) == Greedy(pat, hst, Cursor(p, h, star, afterStar))
      decreases |pat| - (if star.Some? then star.value + 1 else 0), |hst| - afterStar, |hst| - h
    {
      if p < |pat| && (pat[p] == QUESTION || pat[p] == hst[h]) {
        p := p + 1;
        h := h + 1;
      } else if p < |pat| && pat[p] == STAR {
        star := Some(p);
        p := p + 1;
        afterStar := h;
      } else if star.Some? {
        p := star.value + 1;
        afterStar := afterStar + 1;
        h := afterStar;
      } else {
        MatchesIsGlob(pattern, host);
        return false;
      }
    }
    ghost var rest := p;
    while p < |pat| && pat[p] == STAR
      invariant rest <= p <= |pat| && forall k :: rest <= k < p ==> pat[k] == STAR
    {
      p := p + 1;
    }
    matched := p == |pat|;
    assert p < |pat| ==> pat[rest..][p - rest] != STAR;
    MatchesIsGlob(pattern, host);
  }

  // ----- Soundness: the matcher never accepts a host the glob relation refuses -----

  lemma {:induction false} OnlyStarsMatchTheEnd(pattern: seq<Byte>, host: seq<Byte>, p: nat)
    requires p <= |pattern|
    ensures AllStars(pattern[p..]) <==> GlobFrom(pattern, host, p, |host|)
    decreases |pattern| - p
  {
    if p < |pattern| {
      OnlyStarsMatchTheEnd(pattern, host, p + 1);
      assert pattern[p..] == [pattern[p]] + pattern[p + 1..];
    }
  }

  lemma {:induction false} GreedySound(pattern: seq<Byte>, host: seq<Byte>, c: Cursor)
    requires c.Valid(pattern, host)
    requires Greedy(pattern, host, c)
    ensures || GlobFrom(pattern, host, c.p, c.h)
            || (c.star.Some? && GlobFrom(pattern, host, c.star.value, c.afterStar))
    decreases |pattern| - (if c.star.Some? then c.star.value + 1 else 0), |host| - c.afterStar, |host| - c.h
  {
    if c.h == |host| {
      OnlyStarsMatchTheEnd(pattern, host, c.p);
    } else if Accepts(pattern, host, c.p, c.h) {
      GreedySound(pattern, host, c.(p := c.p + 1, h := c.h + 1));
      if pattern[c.p] == STAR && GlobFrom(pattern, host, c.p + 1, c.h + 1) {
        // A literal `*` of the host was consumed: one more stretch of the pattern's `*`.
        assert GlobFrom(pattern, host, c.p, c.h + 1);
      }
    } else if c.p < |pattern| && pattern[c.p] == STAR {
      GreedySound(pattern, host, Cursor(c.p + 1, c.h, Some(c.p), c.h));
    } else {
      GreedySound(pattern, host, Cursor(c.star.value + 1, c.afterStar + 1, c.star, c.afterStar + 1));
      assert GlobFrom(pattern, host, c.star.value, c.afterStar + 1);
    }
  }

  // ----- Completeness on hosts without `*` -----

  /** A run of non-`*` pattern bytes consumes one host byte each. */
  lemma {:induction false} GlobThroughLiterals(pattern: seq<Byte>, host: seq<Byte>, p: nat, h: nat, len: nat)
    requires p + len <= |pattern| && h <= |host|
    requires forall k :: p <= k < p + len ==> pattern[k] != STAR
    requires GlobFrom(pattern, host, p, h)
    ensures h + len <= |host| && GlobFrom(pattern, host, p + len, h + len)
    decreases len
  {
    if len > 0 {
      GlobThroughLiterals(pattern, host, p + 1, h + 1, len - 1);
    }
  }

  /** A `*` that matches a later suffix matches every earlier one. */
  lemma {:induction false} StarAbsorbs(pattern: seq<Byte>, host: seq<Byte>, p: nat, h: nat, k: nat)
    requires p < |pattern| && pattern[p] == STAR
    requires h <= k <= |host|
    requires GlobFrom(pattern, host, p, k)
    ensures GlobFrom(pattern, host, p, h)
    decreases k - h
  {
    if h < k {
      StarAbsorbs(pattern, host, p, h + 1, k);
    }
  }

  /** If a leading `*` matches, it stretches to some host index from which the rest matches. */
  lemma {:induction false} StarStretch(pattern: seq<Byte>, host: seq<Byte>, p: nat, h: nat) returns (k: nat)
    requires p < |pattern| && pattern[p] == STAR
    requires h <= |host|
    requires GlobFrom(pattern, host, p, h)
    ensures h <= k <= |host| && GlobFrom(pattern, host, p + 1, k)
    decreases |host| - h
  {
    if GlobFrom(pattern, host, p + 1, h) {
      k := h;
    } else {
      k := StarStretch(pattern, host, p, h + 1);
    }
  }

  /** What is still to be matched, from the remembered `*` on if there is one. */
  predicate Remaining(pattern: seq<Byte>, host: seq<Byte>, c: Cursor)
    requires c.Valid(pattern, host)
  {
    if c.star.Some? then GlobFrom(pattern, host, c.star.value, c.afterStar)
    else GlobFrom(pattern, host, c.p, c.h)
  }

  /** Only literals and `?` were passed since the remembered `*`, or since the start. */
  predicate OnlyLiterals(pattern: seq<Byte>, host: seq<Byte>, c: Cursor)
    requires c.Valid(pattern, host)
  {
    var from := if c.star.Some? then c.star.value + 1 else 0;
    forall k :: from <= k < c.p ==> pattern[k] != STAR
  }

  /** Reaching a new `*`, the older one need never be stretched again. */
  lemma NewStar(pattern: seq<Byte>, host: seq<Byte>, c: Cursor)
    requires c.Valid(pattern, host) && OnlyLiterals(pattern, host, c) && Remaining(pattern, host, c)
    requires c.p < |pattern| && pattern[c.p] == STAR
    ensures GlobFrom(pattern, host, c.p, c.h)
  {
    if c.star.Some? {
      var s := c.star.value;
      var k := StarStretch(pattern, host, s, c.afterStar);
      GlobThroughLiterals(pattern, host, s + 1, k, c.p - (s + 1));
      StarAbsorbs(pattern, host, c.p, c.h, k + (c.p - (s + 1)));
    }
  }

  /** At a mismatch the remembered `*` has to take one byte more. */
  lemma Backtrack(pattern: seq<Byte>, host: seq<Byte>, c: Cursor)
    requires c.Valid(pattern, host) && OnlyLiterals(pattern, host, c) && Remaining(pattern, host, c)
    requires c.h < |host| && !Accepts(pattern, host, c.p, c.h)
    requires c.p < |pattern| ==> pattern[c.p] != STAR
    ensures c.star.Some? && GlobFrom(pattern, host, c.star.value, c.afterStar + 1)
  {
    assert !GlobFrom(pattern, host, c.p, c.h);
    if c.star.Some? && GlobFrom(pattern, host, c.star.value + 1, c.afterStar) {
      GlobThroughLiterals(pattern, host, c.star.value + 1, c.afterStar, c.h - c.afterStar);
      assert false;
    }
  }

  /** At the end of the host only `*` may be left. */
  lemma HostExhausted(pattern: seq<Byte>, host: seq<Byte>, c: Cursor)
    requires c.Valid(pattern, host) && OnlyLiterals(pattern, host, c) && Remaining(pattern, host, c)
    requires c.h == |host|
    ensures AllStars(pattern[c.p..])
  {
    if c.star.Some? {
      var s := c.star.value;
      var k := StarStretch(pattern, host, s, c.afterStar);
      GlobThroughLiterals(pattern, host, s + 1, k, c.p - (s + 1));
    }
    OnlyStarsMatchTheEnd(pattern, host, c.p);
  }

  lemma {:induction false} GreedyComplete(pattern: seq<Byte>, host: seq<Byte>, c: Cursor)
    requires STAR !in host
    requires c.Valid(pattern, host) && OnlyLiterals(pattern, host, c) && Remaining(pattern, host, c)
    ensures Greedy(pattern, host, c)
    decreases |pattern| - (if c.star.Some? then c.star.value + 1 else 0), |host| - c.afterStar, |host| - c.h
  {
    if c.h == |host| {
      HostExhausted(pattern, host, c);
    } else if Accepts(pattern, host, c.p, c.h) {
      assert pattern[c.p] != STAR;
      GreedyComplete(pattern, host, c.(p := c.p + 1, h := c.h + 1));
    } else if c.p < |pattern| && pattern[c.p] == STAR {
      NewStar(pattern, host, c);
      GreedyComplete(pattern, host, Cursor(c.p + 1, c.h, Some(c.p), c.h));
    } else {
      Backtrack(pattern, host, c);
      GreedyComplete(pattern, host, Cursor(c.star.value + 1, c.afterStar + 1, c.star, c.afterStar + 1));
    }
  }

  /** Sound on every host, and exact on hosts without `*`. */
  lemma MatchesIsGlob(pattern: seq<Byte>, host: seq<Byte>)
    ensures Matches(pattern, host) ==> Glob(Lower(pattern), Lower(host))
    ensures STAR !in host ==> (Matches(pattern, host) <==> Glob(Lower(pattern), Lower(host)))
  {
    if Matches(pattern, host) {
      GreedySound(Lower(pattern), Lower(host), START);
    }
    if STAR !in host && Glob(Lower(pattern), Lower(host)) {
      GreedyComplete(Lower(pattern), Lower(host), START);
    }
  }

  // ----- The condition on the host is exact -----

  /** A pattern that a host with a `*` satisfies but the matcher refuses: the bytes before
      the host's first `*`, a `*`, and one `?` per remaining byte. */
  function Refuted(host: seq<Byte>, i: nat): (p: seq<Byte>)
    requires i < |host|
    ensures |p| == |host| + 1
  {
    host[..i] + [STAR] + seq(|host| - i, _ => QUESTION)
  }

  lemma {:induction false} RefutedIsGlob(host: seq<Byte>, i: nat, h: nat)
    requires i < |host| && STAR !in host[..i] && h <= |host|
    ensures GlobFrom(Refuted(host, i), host, if h <= i then h else h + 1, h)
    decreases |host| - h
  {
    var p := Refuted(host, i);
    if h < |host| {
      RefutedIsGlob(host, i, h + 1);
      if h < i {
        assert p[h] == host[h] && host[h] in host[..i];
      } else {
        // From the `*` on (h == i) the `*` takes nothing and each `?` takes one byte.
        assert p[h + 1] == QUESTION;
        assert GlobFrom(p, host, h + 1, h);
      }
    }
  }

  lemma {:induction false} RefutedIsRefused(host: seq<Byte>, i: nat, h: nat)
    requires i < |host| && STAR !in host[..i] && host[i] == STAR && h <= |host|
    ensures !Greedy(Refuted(host, i), host, Cursor(h, h, None, 0))
    decreases |host| - h
  {
    var p := Refuted(host, i);
    if h == |host| {
      assert p[h..][0] == QUESTION;
    } else {
      RefutedIsRefused(host, i, h + 1);
      assert h < i ==> p[h] == host[h];
    }
  }

  lemma FirstStar(host: seq<Byte>) returns (i: nat)
    requires STAR in host
    ensures i < |host| && host[i] == STAR && STAR !in host[..i]
  {
    i := 0;
    while host[i] != STAR
      invariant i < |host| && STAR !in host[..i] && STAR in host[i..]
      decreases |host| - i
    {
      assert host[i..] == [host[i]] + host[i + 1..];
      assert host[..i + 1] == host[..i] + [host[i]];
      i := i + 1;
    }
  }

  /** The matcher agrees with the glob relation for every pattern exactly when the host holds
      no `*`. */
  lemma ExactHosts(host: seq<Byte>)
    ensures (forall p :: Matches(p, host) <==> Glob(Lower(p), Lower(host))) <==> STAR !in host
  {
    if STAR in host {
      var h := Lower(host);
      var i := FirstStar(h);
      var p := Refuted(h, i);
      RefutedIsGlob(h, i, 0);
      RefutedIsRefused(h, i, 0);
      forall k | 0 <= k < |p| ensures LowerByte(p[k]) == p[k] {
        assert k < i ==> p[k] == LowerByte(host[k]);
      }
      assert Lower(p) == p;
      assert !Matches(p, host) && Glob(Lower(p), h);
    } else {
      forall p ensures Matches(p, host) <==> Glob(Lower(p), Lower(host)) {
        MatchesIsGlob(p, host);
      }
    }
  }

  // ----- Host lines -----

  /** Whether a token of the line starts with `!`, and the pattern it holds. */
  predicate Negated(token: seq<Byte>) {
    token != [] && token[0] == BANG
  }

  function PatternOf(token: seq<Byte>): seq<Byte> {
    if Negated(token) then token[1..] else token
  }

  /** The token names a non-empty pattern that matches the host. */
  predicate Hits(token: seq<Byte>, host: seq<Byte>) {
    PatternOf(token) != [] && Matches(PatternOf(token), host)
  }

  /** A `Host` line over its whitespace-separated tokens, with the early return. */
  method HostBlockMatches(tokens: seq<seq<Byte>>, host: seq<Byte>) returns (matched: bool)
    ensures matched <==> (exists t :: t in tokens && !Negated(t) && Hits(t, host))
                         && !(exists t :: t in tokens && Negated(t) && Hits(t, host))
  {
    var positive := false;
    for i := 0 to |tokens|
      invariant positive <==> exists t :: t in tokens[..i] && !Negated(t) && Hits(t, host)
      invariant forall t :: t in tokens[..i] && Negated(t) ==> !Hits(t, host)
    {
      assert tokens[..i + 1] == tokens[..i] + [tokens[i]];
      var token := tokens[i];
      var negated := token != [] && token[0] == BANG;
      var pattern := if negated then token[1..] else token;
      var hit := false;
      if pattern != [] {
        hit := HostPatternMatches(pattern, host);
      }
      assert hit == Hits(token, host) && token in tokens;
      if !hit {
        continue;
      }
      if negated {
        return false;
      }
      positive := true;
      assert token in tokens[..i + 1];
    }
    assert tokens[..|tokens|] == tokens;
    return positive;
  }

  /** What a `Host` line means for a host name. */
  ghost predicate BlockMatches(tokens: seq<seq<Byte>>, host: seq<Byte>) {
    && (exists t :: t in tokens && !Negated(t) && t != [] && Glob(Lower(t), Lower(host)))
    && (forall t :: t in tokens && Negated(t) && |t| > 1 ==> !Glob(Lower(t[1..]), Lower(host)))
  }

  /** For host names without `*` the line is the glob statement, whatever its token order. */
  lemma BlockIsGlob(tokens: seq<seq<Byte>>, reordered: seq<seq<Byte>>, host: seq<Byte>)
    requires STAR !in host
    requires multiset(tokens) == multiset(reordered)
    ensures BlockMatches(tokens, host) <==>
            (exists t :: t in tokens && !Negated(t) && Hits(t, host))
            && !(exists t :: t in tokens && Negated(t) && Hits(t, host))
    ensures BlockMatches(tokens, host) <==> BlockMatches(reordered, host)
  {
    assert forall t :: t in tokens <==> t in multiset(tokens);
    assert forall t :: t in reordered <==> t in multiset(reordered);
    forall t: seq<Byte> ensures Hits(t, host) <==> PatternOf(t) != [] && Glob(Lower(PatternOf(t)), Lower(host)) {
      MatchesIsGlob(PatternOf(t), host);
    }
  }
}
