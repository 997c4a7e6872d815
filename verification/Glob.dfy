/**
  Glob patterns for channels: `*`, `?`, `[...]` and `\` escapes over bytes.

  A pattern is read as a list of tokens without looking at the key, and `Matches`
  says declaratively which keys a token list accepts.  `GlobMatch` is the
  single-pass matcher that remembers only the last star.
 */
module Glob {
  import opened Common

  const STAR: byte := 42
  const QUESTION: byte := 63
  const OPEN: byte := 91
  const BACKSLASH: byte := 92
  const CLOSE: byte := 93
  const CARET: byte := 94
  const BANG: byte := 33
  const DASH: byte := 45
  const LETTER_X: byte := 120

  // ----- Reading a pattern -------------------------------------------------

  function HexVal(b: byte): (r: Option<byte>)
    ensures r.Some? ==> r.value < 16
  {
    if 48 <= b <= 57 then Some(b - 48)
    else if 97 <= b <= 102 then Some(b - 87)
    else if 65 <= b <= 70 then Some(b - 55)
    else None
  }

  function ParseHexByte(h: byte, l: byte): (r: Option<byte>) {
    var hi, lo := HexVal(h), HexVal(l);
    if hi.Some? && lo.Some? then Some(hi.value * 16 + lo.value) else None
  }

  /** The character at an offset, escapes resolved, and how many pattern bytes it takes. */
  function NextPatChar(pat: Bytes, offset: nat): (r: (byte, nat))
    requires offset < |pat|
    ensures 1 <= r.1 && offset + r.1 <= |pat|
  {
    if pat[offset] != BACKSLASH then (pat[offset], 1)
    else if offset + 3 < |pat| && pat[offset + 1] == LETTER_X
            && ParseHexByte(pat[offset + 2], pat[offset + 3]).Some? then
      (ParseHexByte(pat[offset + 2], pat[offset + 3]).value, 4)
    else if offset + 1 < |pat| then (pat[offset + 1], 2)
    else (BACKSLASH, 1)
  }

  datatype Token =
    | Star
    | Any
    | Literal(b: byte)
    | Class(negated: bool, ranges: seq<(byte, byte)>)

  /** Does a range follow the character that ends at `i`? */
  predicate RangeFollows(pat: Bytes, i: nat) {
    i + 1 < |pat| && pat[i] == DASH && pat[i + 1] != CLOSE
  }

  /** The ranges up to the closing bracket, and the offset after it; nothing if it never closes. */
  function ParseClass(pat: Bytes, i: nat): (r: Option<(seq<(byte, byte)>, nat)>)
    requires i <= |pat|
    ensures r.Some? ==> i < r.value.1 <= |pat|
    decreases |pat| - i
  {
    if i == |pat| then None
    else if pat[i] == CLOSE then Some(([], i + 1))
    else
      var (c1, adv1) := NextPatChar(pat, i);
      if RangeFollows(pat, i + adv1) then
        var (c2, adv2) := NextPatChar(pat, i + adv1 + 1);
        Prepend((c1, c2), ParseClass(pat, i + adv1 + 1 + adv2))
      else
        Prepend((c1, c1), ParseClass(pat, i + adv1))
  }

  function Prepend(range: (byte, byte), rest: Option<(seq<(byte, byte)>, nat)>): Option<(seq<(byte, byte)>, nat)> {
    match rest
    case None => None
    case Some((ranges, end)) => Some(([range] + ranges, end))
  }

  predicate NegatedAt(pat: Bytes, i: nat) {
    i < |pat| && (pat[i] == CARET || pat[i] == BANG)
  }

  /** One token and the offset after it. */
  function NextToken(pat: Bytes, p: nat): (r: (Token, nat))
    requires p < |pat|
    ensures p < r.1 <= |pat|
    ensures r.0.Star? <==> pat[p] == STAR
    ensures r.0.Star? ==> r.1 == p + 1
  {
    if pat[p] == STAR then (Star, p + 1)
    else if pat[p] == QUESTION then (Any, p + 1)
    else if pat[p] == OPEN then
      var negated := NegatedAt(pat, p + 1);
      match ParseClass(pat, if negated then p + 2 else p + 1)
      case Some((ranges, end)) => (Class(negated, ranges), end)
      case None => (Literal(OPEN), p + 1)
    else
      var (b, adv) := NextPatChar(pat, p);
      (Literal(b), p + adv)
  }

  function Tokens(pat: Bytes, p: nat): seq<Token>
    requires p <= |pat|
    decreases |pat| - p
  {
    if p == |pat| then []
    else
      var (token, next) := NextToken(pat, p);
      [token] + Tokens(pat, next)
  }

  // ----- What a pattern means ----------------------------------------------

  function Fold(b: byte, ignoreCase: bool): byte {
    if ignoreCase && 65 <= b <= 90 then b + 32 else b
  }

  predicate InRange(b: byte, range: (byte, byte), ignoreCase: bool) {
    var x, lo, hi := Fold(b, ignoreCase), Fold(range.0, ignoreCase), Fold(range.1, ignoreCase);
    Min(lo, hi) <= x <= Max(lo, hi)
  }

  predicate InRanges(b: byte, ranges: seq<(byte, byte)>, ignoreCase: bool) {
    exists i :: 0 <= i < |ranges| && InRange(b, ranges[i], ignoreCase)
  }

  /** Does a token other than a star accept this byte? */
  predicate Accepts(token: Token, b: byte, ignoreCase: bool)
    requires !token.Star?
  {
    match token
    case Any => true
    case Literal(c) => Fold(c, ignoreCase) == Fold(b, ignoreCase)
    case Class(negated, ranges) => InRanges(b, ranges, ignoreCase) != negated
  }

  /** The declarative match: a star stands for any span of bytes, every other token for one byte. */
  ghost predicate Matches(tokens: seq<Token>, key: Bytes, ignoreCase: bool)
    decreases |tokens|, 0
  {
    if tokens == [] then key == []
    else if tokens[0].Star? then MatchesFrom(tokens[1..], key, 0, ignoreCase)
    else key != [] && Accepts(tokens[0], key[0], ignoreCase) && Matches(tokens[1..], key[1..], ignoreCase)
  }

  /** Some suffix of the key that starts at `n` or later matches. */
  ghost predicate MatchesFrom(tokens: seq<Token>, key: Bytes, n: nat, ignoreCase: bool)
    decreases |tokens|, 1
  {
    exists m :: n <= m <= |key| && Matches(tokens, key[m..], ignoreCase)
  }

  // ----- Why the last star is enough ---------------------------------------

  predicate NoStars(tokens: seq<Token>) {
    forall i :: 0 <= i < |tokens| ==> !tokens[i].Star?
  }

  /** The segment accepts the bytes of the key from `n` on, one each. */
  predicate SegmentAt(segment: seq<Token>, key: Bytes, n: nat, ignoreCase: bool)
    requires NoStars(segment)
  {
    n + |segment| <= |key| && forall i :: 0 <= i < |segment| ==> Accepts(segment[i], key[n + i], ignoreCase)
  }

  /** A star-free segment in front consumes exactly its length. */
  lemma {:induction false} SegmentConsumes(segment: seq<Token>, rest: seq<Token>, key: Bytes, n: nat, ignoreCase: bool)
    requires NoStars(segment) && n <= |key|
    ensures Matches(segment + rest, key[n..], ignoreCase) <==>
      SegmentAt(segment, key, n, ignoreCase) && Matches(rest, key[n + |segment|..], ignoreCase)
    decreases |segment|
  {
    hide Accepts;
    if segment == [] {
      assert segment + rest == rest;
    } else {
      var tokens := segment + rest;
      assert tokens[1..] == segment[1..] + rest && tokens[0] == segment[0];
      if n < |key| {
        assert key[n..][1..] == key[n + 1..] && key[n..][0] == key[n];
        SegmentConsumes(segment[1..], rest, key, n + 1, ignoreCase);
        SegmentHead(segment, key, n, ignoreCase);
      }
    }
  }

  lemma {:induction false} SegmentHead(segment: seq<Token>, key: Bytes, n: nat, ignoreCase: bool)
    requires NoStars(segment) && segment != [] && n < |key|
    ensures SegmentAt(segment, key, n, ignoreCase) <==>
      Accepts(segment[0], key[n], ignoreCase) && SegmentAt(segment[1..], key, n + 1, ignoreCase)
  {
    hide Accepts;
    if Accepts(segment[0], key[n], ignoreCase) && SegmentAt(segment[1..], key, n + 1, ignoreCase) {
      forall i | 0 <= i < |segment|
        ensures Accepts(segment[i], key[n + i], ignoreCase)
      {
        if i > 0 {
          assert segment[1..][i - 1] == segment[i];
        }
      }
    } else if SegmentAt(segment, key, n, ignoreCase) {
      assert Accepts(segment[0], key[n + 0], ignoreCase);
      forall i | 0 <= i < |segment| - 1
        ensures Accepts(segment[1..][i], key[n + 1 + i], ignoreCase)
      {
        assert segment[1..][i] == segment[i + 1];
      }
    }
  }

  /** Splitting off the first candidate position. */
  lemma {:induction false} FromNext(tokens: seq<Token>, key: Bytes, n: nat, ignoreCase: bool)
    requires n <= |key|
    ensures MatchesFrom(tokens, key, n, ignoreCase) <==>
      Matches(tokens, key[n..], ignoreCase) || MatchesFrom(tokens, key, n + 1, ignoreCase)
  {
    hide Matches;
  }

  /** A star's span may be counted from the start of the key or of a suffix. */
  lemma {:induction false} StarFrom(rest: seq<Token>, key: Bytes, n: nat, ignoreCase: bool)
    requires n <= |key|
    ensures Matches([Star] + rest, key[n..], ignoreCase) <==> MatchesFrom(rest, key, n, ignoreCase)
  {
    assert ([Star] + rest)[1..] == rest;
    forall m | 0 <= m <= |key| - n
      ensures key[n..][m..] == key[n + m..]
    {
    }
    if MatchesFrom(rest, key, n, ignoreCase) {
      var m :| n <= m <= |key| && Matches(rest, key[m..], ignoreCase);
      assert key[n..][m - n..] == key[m..];
    }
  }

  /** Two stars in a row are one. */
  lemma {:induction false} DoubleStar(rest: seq<Token>, key: Bytes, n: nat, ignoreCase: bool)
    requires n <= |key|
    ensures MatchesFrom([Star] + rest, key, n, ignoreCase) <==> MatchesFrom(rest, key, n, ignoreCase)
  {
    hide Matches;
    forall m | n <= m <= |key| {
      StarFrom(rest, key, m, ignoreCase);
    }
  }

  /**
    After a segment has matched from `n` on, a star that follows makes every later
    start of the segment superfluous.
   */
  lemma {:induction false} LastStarSuffices(
    segment: seq<Token>, rest: seq<Token>, key: Bytes, n: nat, ignoreCase: bool)
    requires NoStars(segment) && n + |segment| <= |key|
    requires MatchesFrom(segment + ([Star] + rest), key, n, ignoreCase)
    ensures MatchesFrom(rest, key, n + |segment|, ignoreCase)
  {
    var m :| n <= m <= |key| && Matches(segment + ([Star] + rest), key[m..], ignoreCase);
    SegmentConsumes(segment, [Star] + rest, key, m, ignoreCase);
    StarFrom(rest, key, m + |segment|, ignoreCase);
  }

  /** A segment that reached the end of the key has no later start. */
  lemma {:induction false} NoLaterStart(segment: seq<Token>, rest: seq<Token>, key: Bytes, n: nat, ignoreCase: bool)
    requires NoStars(segment) && n + |segment| == |key|
    ensures !MatchesFrom(segment + rest, key, n + 1, ignoreCase)
  {
    forall m | n + 1 <= m <= |key|
      ensures !Matches(segment + rest, key[m..], ignoreCase)
    {
      SegmentConsumes(segment, rest, key, m, ignoreCase);
    }
  }

  // ----- The matcher -------------------------------------------------------

  ghost function PrependAll(
    done: seq<(byte, byte)>, rest: Option<(seq<(byte, byte)>, nat)>): Option<(seq<(byte, byte)>, nat)>
  {
    match rest
    case None => None
    case Some((ranges, end)) => Some((done + ranges, end))
  }

  lemma {:induction false} PrependEnds(done: seq<(byte, byte)>, rest: Option<(seq<(byte, byte)>, nat)>, end: nat)
    ensures PrependAll([], rest) == rest
    ensures PrependAll(done, Some(([], end))) == Some((done, end))
  {
    assert done + [] == done;
    if rest.Some? {
      assert [] + rest.value.0 == rest.value.0;
    }
  }

  lemma {:induction false} PrependMore(done: seq<(byte, byte)>, r: (byte, byte), rest: Option<(seq<(byte, byte)>, nat)>)
    ensures PrependAll(done, Prepend(r, rest)) == PrependAll(done + [r], rest)
  {
    if rest.Some? {
      assert done + ([r] + rest.value.0) == done + [r] + rest.value.0;
    }
  }

  lemma {:induction false} InRangesMore(b: byte, done: seq<(byte, byte)>, r: (byte, byte), ignoreCase: bool)
    ensures InRanges(b, done + [r], ignoreCase) <==> InRanges(b, done, ignoreCase) || InRange(b, r, ignoreCase)
  {
    hide InRange;
    if InRange(b, r, ignoreCase) {
      assert (done + [r])[|done|] == r;
    }
    if InRanges(b, done, ignoreCase) {
      var i :| 0 <= i < |done| && InRange(b, done[i], ignoreCase);
      assert (done + [r])[i] == done[i];
    }
  }

  /** Reads a bracket and tests one byte against it; `next` is 0 when the bracket never closes. */
  method MatchBracket(pat: Bytes, p: nat, target: byte, ignoreCase: bool) returns (matched: bool, next: nat)
    requires p < |pat| && pat[p] == OPEN
    ensures next == 0 ==> !matched && NextToken(pat, p) == (Literal(OPEN), p + 1)
    ensures next > 0 ==>
      var (token, end) := NextToken(pat, p);
      token.Class? && next == end && matched == Accepts(token, target, ignoreCase)
  {
    hide NextPatChar, InRange, InRanges;
    var i := p + 1;
    var negated := i < |pat| && (pat[i] == CARET || pat[i] == BANG);
    if negated {
      i := i + 1;
    }
    ghost var start := i;
    ghost var done: seq<(byte, byte)> := [];
    PrependEnds(done, ParseClass(pat, i), 0);
    assert !InRanges(target, [], ignoreCase) by { NothingInRange(target, ignoreCase); }
    matched := false;
    while i < |pat| && pat[i] != CLOSE
      invariant start <= i <= |pat|
      invariant ParseClass(pat, start) == PrependAll(done, ParseClass(pat, i))
      invariant matched == InRanges(target, done, ignoreCase)
      decreases |pat| - i
    {
      var (c1, adv1) := NextPatChar(pat, i);
      var c2, end := c1, i + adv1;
      if RangeFollows(pat, i + adv1) {
        var (c, adv2) := NextPatChar(pat, i + adv1 + 1);
        c2, end := c, i + adv1 + 1 + adv2;
      }
      PrependMore(done, (c1, c2), ParseClass(pat, end));
      InRangesMore(target, done, (c1, c2), ignoreCase);
      if InRange(target, (c1, c2), ignoreCase) {
        matched := true;
      }
      done := done + [(c1, c2)];
      i := end;
    }
    if i == |pat| {
      return false, 0;
    }
    PrependEnds(done, None, i + 1);
    matched, next := matched != negated, i + 1;
  }

  lemma {:induction false} NothingInRange(b: byte, ignoreCase: bool)
    ensures !InRanges(b, [], ignoreCase)
  {
  }

  /** One attempt to match the byte under the cursor; gives the next pattern offset on success. */
  method MatchOne(pat: Bytes, p: nat, b: byte, ignoreCase: bool) returns (next: Option<nat>)
    requires p < |pat| && pat[p] != STAR
    ensures
      var (token, end) := NextToken(pat, p);
      next == if Accepts(token, b, ignoreCase) then Some(end) else None
  {
    hide ParseClass, InRanges;
    if pat[p] == QUESTION {
      return Some(p + 1);
    }
    if pat[p] == OPEN {
      var matched, end := MatchBracket(pat, p, b, ignoreCase);
      if end > 0 {
        return if matched then Some(end) else None;
      }
      return if b == OPEN then Some(p + 1) else None;
    }
    var (c, adv) := NextPatChar(pat, p);
    next := if Fold(c, ignoreCase) == Fold(b, ignoreCase) then Some(p + adv) else None;
  }

  lemma {:induction false} TokensAt(pat: Bytes, p: nat)
    requires p < |pat|
    ensures Tokens(pat, p) == [NextToken(pat, p).0] + Tokens(pat, NextToken(pat, p).1)
  {
  }

  /** One byte of the key against one token that is not a star. */
  lemma {:induction false} StepToken(pat: Bytes, p: nat, key: Bytes, k: nat, ignoreCase: bool)
    requires p <= |pat| && k < |key| && (p < |pat| ==> pat[p] != STAR)
    ensures Matches(Tokens(pat, p), key[k..], ignoreCase) <==>
      p < |pat| && (var (token, next) := NextToken(pat, p);
                    Accepts(token, key[k], ignoreCase) && Matches(Tokens(pat, next), key[k + 1..], ignoreCase))
  {
    hide NextToken, Accepts;
    if p < |pat| {
      TokensAt(pat, p);
      assert key[k..][1..] == key[k + 1..];
      assert Tokens(pat, p)[1..] == Tokens(pat, NextToken(pat, p).1);
    }
  }

  /** A run of stars can be skipped when any start is allowed. */
  lemma {:induction false} StarRunFrom(pat: Bytes, q: nat, end: nat, key: Bytes, k: nat, ignoreCase: bool)
    requires q <= end <= |pat| && k <= |key|
    requires forall i :: q <= i < end ==> pat[i] == STAR
    ensures MatchesFrom(Tokens(pat, q), key, k, ignoreCase) <==> MatchesFrom(Tokens(pat, end), key, k, ignoreCase)
    decreases end - q
  {
    hide Matches, MatchesFrom;
    if q < end {
      TokensAt(pat, q);
      DoubleStar(Tokens(pat, q + 1), key, k, ignoreCase);
      StarRunFrom(pat, q + 1, end, key, k, ignoreCase);
    }
  }

  /** A run of stars under the cursor: what follows it may start anywhere from here on. */
  lemma {:induction false} StarRun(pat: Bytes, p: nat, end: nat, key: Bytes, k: nat, ignoreCase: bool)
    requires p < end <= |pat| && k <= |key|
    requires forall i :: p <= i < end ==> pat[i] == STAR
    ensures Matches(Tokens(pat, p), key[k..], ignoreCase) <==> MatchesFrom(Tokens(pat, end), key, k, ignoreCase)
  {
    hide Matches, MatchesFrom;
    TokensAt(pat, p);
    StarFrom(Tokens(pat, p + 1), key, k, ignoreCase);
    StarRunFrom(pat, p + 1, end, key, k, ignoreCase);
  }

  /** Once a new star is reached, the alternatives of the old one are covered by it. */
  lemma {:induction false} OldStarCovered(
    pat: Bytes, p: nat, end: nat, segment: seq<Token>, key: Bytes, n: nat, ignoreCase: bool)
    requires p < end <= |pat| && NoStars(segment) && n + |segment| <= |key|
    requires forall i :: p <= i < end ==> pat[i] == STAR
    requires MatchesFrom(segment + Tokens(pat, p), key, n + 1, ignoreCase)
    ensures MatchesFrom(Tokens(pat, end), key, n + |segment|, ignoreCase)
  {
    hide Matches, Tokens;
    TokensAt(pat, p);
    assert MatchesFrom(segment + Tokens(pat, p), key, n, ignoreCase);
    LastStarSuffices(segment, Tokens(pat, p + 1), key, n, ignoreCase);
    StarRunFrom(pat, p + 1, end, key, n + |segment|, ignoreCase);
  }

  /** At the end of the key only stars may be left. */
  lemma {:induction false} StepEnd(pat: Bytes, p: nat, ignoreCase: bool)
    requires p <= |pat|
    ensures Matches(Tokens(pat, p), [], ignoreCase) <==>
      p == |pat| || (pat[p] == STAR && Matches(Tokens(pat, p + 1), [], ignoreCase))
  {
    if p < |pat| {
      TokensAt(pat, p);
      if pat[p] == STAR {
        StarFrom(Tokens(pat, p + 1), [], 0, ignoreCase);
        assert MatchesFrom(Tokens(pat, p + 1), [], 0, ignoreCase) <==> Matches(Tokens(pat, p + 1), [][0..], ignoreCase);
      }
    }
  }

  /** Skips trailing stars. */
  method OnlyStarsLeft(pat: Bytes, p: nat, ignoreCase: bool) returns (r: bool)
    requires p <= |pat|
    ensures r <==> Matches(Tokens(pat, p), [], ignoreCase)
  {
    hide Matches, Tokens;
    var q := p;
    while q < |pat| && pat[q] == STAR
      invariant p <= q <= |pat|
      invariant Matches(Tokens(pat, p), [], ignoreCase) <==> Matches(Tokens(pat, q), [], ignoreCase)
    {
      StepEnd(pat, q, ignoreCase);
      q := q + 1;
    }
    StepEnd(pat, q, ignoreCase);
    r := q == |pat|;
  }

  /**
    Greedy matching with one remembered star.  It answers exactly the declarative
    question, for every pattern and key.
   */
  method GlobMatch(pat: Bytes, key: Bytes, ignoreCase: bool) returns (r: bool)
    ensures r <==> Matches(Tokens(pat, 0), key, ignoreCase)
  {
    hide Matches, MatchesFrom, Accepts, Tokens;
    var p, k := 0, 0;
    var starP: int, starT := -1, 0;
    ghost var segment: seq<Token> := [];
    assert key[0..] == key;
    while k < |key|
      invariant p <= |pat| && k <= |key| && NoStars(segment) && -1 <= starP < |pat|
      invariant starP < p
      invariant starP == -1 ==>
        (Matches(Tokens(pat, 0), key, ignoreCase) <==> Matches(Tokens(pat, p), key[k..], ignoreCase))
      invariant starP >= 0 ==>
        && starT + |segment| == k
        && Tokens(pat, starP + 1) == segment + Tokens(pat, p)
        && (Matches(Tokens(pat, 0), key, ignoreCase) <==>
              || Matches(Tokens(pat, p), key[k..], ignoreCase)
              || MatchesFrom(Tokens(pat, starP + 1), key, starT + 1, ignoreCase))
      decreases |pat| - starP, |key| - starT, |pat| - p
    {
      if p < |pat| && pat[p] == STAR {
        var end := p + 1;
        while end < |pat| && pat[end] == STAR
          invariant p < end <= |pat| && forall i :: p <= i < end ==> pat[i] == STAR
        {
          end := end + 1;
        }
        StarRun(pat, p, end, key, k, ignoreCase);
        FromNext(Tokens(pat, end), key, k, ignoreCase);
        if starP >= 0 && MatchesFrom(Tokens(pat, starP + 1), key, starT + 1, ignoreCase) {
          OldStarCovered(pat, p, end, segment, key, starT, ignoreCase);
        }
        starP, p, starT, segment := end - 1, end, k, [];
        assert [] + Tokens(pat, p) == Tokens(pat, p);
        continue;
      }
      var next: Option<nat> := None;
      if p < |pat| {
        next := MatchOne(pat, p, key[k], ignoreCase);
        TokensAt(pat, p);
      }
      StepToken(pat, p, key, k, ignoreCase);
      if next.Some? {
        var token := NextToken(pat, p).0;
        assert segment + ([token] + Tokens(pat, next.value)) == segment + [token] + Tokens(pat, next.value);
        segment := segment + [token];
        p, k := next.value, k + 1;
      } else if starP >= 0 {
        FromNext(Tokens(pat, starP + 1), key, starT + 1, ignoreCase);
        p, starT := starP + 1, starT + 1;
        k, segment := starT, [];
        assert [] + Tokens(pat, p) == Tokens(pat, p);
      } else {
        return false;
      }
    }
    r := OnlyStarsLeft(pat, p, ignoreCase);
    assert key[k..] == [];
    if starP >= 0 {
      NoLaterStart(segment, Tokens(pat, p), key, starT, ignoreCase);
    }
  }
}
