/**
  What patterns say: every list of tokens can be written as a pattern that reads
  back as that list, and the plain ways of writing mean what they look like.
 */
module GlobLaws {
  import opened Common
  import opened Glob

  // ----- Bytes in hexadecimal ----------------------------------------------

  function Digit(n: nat, upper: bool): byte
    requires n < 16
  {
    if n < 10 then 48 + n else if upper then 55 + n else 87 + n
  }

  /** Two digits, the high one first, in either case of letters. */
  lemma {:induction false} HexPair(hi: nat, lo: nat, upperHi: bool, upperLo: bool)
    requires hi < 16 && lo < 16
    ensures ParseHexByte(Digit(hi, upperHi), Digit(lo, upperLo)) == Some(16 * hi + lo)
  {
  }

  /** Nothing else is a pair of digits. */
  lemma {:induction false} OnlyHexPairs(h: byte, l: byte)
    ensures ParseHexByte(h, l).Some? <==>
              && (48 <= h <= 57 || 65 <= h <= 70 || 97 <= h <= 102)
              && (48 <= l <= 57 || 65 <= l <= 70 || 97 <= l <= 102)
  {
  }

  // ----- Writing tokens down -----------------------------------------------

  function Escaped(b: byte): (r: Bytes)
    ensures |r| == 4
  {
    [BACKSLASH, LETTER_X, Digit(b / 16, false), Digit(b % 16, false)]
  }

  function WriteRanges(ranges: seq<(byte, byte)>): Bytes {
    if ranges == [] then []
    else Escaped(ranges[0].0) + ([DASH] + (Escaped(ranges[0].1) + WriteRanges(ranges[1..])))
  }

  function Write(token: Token): Bytes {
    match token
    case Star => [STAR]
    case Any => [QUESTION]
    case Literal(b) => Escaped(b)
    case Class(negated, ranges) => [OPEN] + ((if negated then [CARET] else []) + (WriteRanges(ranges) + [CLOSE]))
  }

  function WriteAll(tokens: seq<Token>): Bytes {
    if tokens == [] then [] else Write(tokens[0]) + WriteAll(tokens[1..])
  }

  lemma {:induction false} EscapedReads(pat: Bytes, at: nat, b: byte)
    requires at + 4 <= |pat| && pat[at..at + 4] == Escaped(b)
    ensures NextPatChar(pat, at) == (b, 4)
  {
    HexPair(b / 16, b % 16, false, false);
    var w := Escaped(b);
    assert pat[at] == w[0] && pat[at + 1] == w[1] && pat[at + 2] == w[2] && pat[at + 3] == w[3];
    hide ParseHexByte;
  }

  /** The pattern has this text at this place. */
  predicate HasAt(pat: Bytes, at: nat, text: Bytes) {
    at + |text| <= |pat| && pat[at..at + |text|] == text
  }

  lemma {:induction false} HasFirst(pat: Bytes, at: nat, text: Bytes)
    requires HasAt(pat, at, text) && text != []
    ensures at < |pat| && pat[at] == text[0]
  {
    assert pat[at..at + |text|][0] == pat[at];
  }

  lemma {:induction false} HasParts(pat: Bytes, at: nat, a: Bytes, b: Bytes)
    requires HasAt(pat, at, a + b)
    ensures HasAt(pat, at, a) && HasAt(pat, at + |a|, b)
  {
    assert pat[at..at + |a|] == (a + b)[..|a|];
    assert pat[at + |a|..at + |a| + |b|] == (a + b)[|a|..];
  }

  /** One range of a class, both ends escaped. */
  lemma {:induction false} RangeReads(pat: Bytes, at: nat, lo: byte, hi: byte)
    requires HasAt(pat, at, Escaped(lo)) && HasAt(pat, at + 4, [DASH]) && HasAt(pat, at + 5, Escaped(hi))
    ensures at + 9 <= |pat| && ParseClass(pat, at) == Prepend((lo, hi), ParseClass(pat, at + 9))
  {
    EscapedReads(pat, at, lo);
    EscapedReads(pat, at + 5, hi);
    HasFirst(pat, at, Escaped(lo));
    HasFirst(pat, at + 4, [DASH]);
    HasFirst(pat, at + 5, Escaped(hi));
    assert Escaped(lo)[0] == BACKSLASH == Escaped(hi)[0];
    hide NextPatChar, HasAt, Escaped;
  }

  lemma {:induction false} RangesRead(pat: Bytes, at: nat, ranges: seq<(byte, byte)>)
    requires HasAt(pat, at, WriteRanges(ranges) + [CLOSE])
    ensures ParseClass(pat, at) == Some((ranges, at + |WriteRanges(ranges)| + 1))
    decreases |ranges|
  {
    RangesWritten(ranges);
    hide ParseClass, HasAt, WriteRanges, Escaped;
    if ranges == [] {
      NoRanges(pat, at);
    } else {
      var (lo, hi) := ranges[0];
      var text, rest := WriteRanges(ranges), WriteRanges(ranges[1..]);
      HasParts(pat, at, text, [CLOSE]);
      HasParts(pat, at, Escaped(lo), [DASH] + (Escaped(hi) + rest));
      HasParts(pat, at + 4, [DASH], Escaped(hi) + rest);
      HasParts(pat, at + 5, Escaped(hi), rest);
      RangeReads(pat, at, lo, hi);
      HasJoined(pat, at + 9, rest, [CLOSE]);
      RangesRead(pat, at + 9, ranges[1..]);
      assert [ranges[0]] + ranges[1..] == ranges;
    }
  }

  lemma {:induction false} RangesWritten(ranges: seq<(byte, byte)>)
    ensures WriteRanges([]) == []
    ensures ranges != [] ==>
              WriteRanges(ranges)
              == Escaped(ranges[0].0) + ([DASH] + (Escaped(ranges[0].1) + WriteRanges(ranges[1..])))
  {
  }

  lemma {:induction false} NoRanges(pat: Bytes, at: nat)
    requires HasAt(pat, at, [] + [CLOSE])
    ensures at <= |pat| && ParseClass(pat, at) == Some(([], at + 1))
  {
    HasFirst(pat, at, [] + [CLOSE]);
    hide HasAt;
  }

  lemma {:induction false} HasJoined(pat: Bytes, at: nat, a: Bytes, b: Bytes)
    requires HasAt(pat, at, a) && HasAt(pat, at + |a|, b)
    ensures HasAt(pat, at, a + b)
  {
    assert pat[at..at + |a| + |b|] == pat[at..at + |a|] + pat[at + |a|..at + |a| + |b|];
  }

  lemma {:induction false} TokenReads(pat: Bytes, at: nat, token: Token)
    requires HasAt(pat, at, Write(token))
    ensures at < |pat| && NextToken(pat, at) == (token, at + |Write(token)|)
  {
    hide HasAt, ParseClass, WriteRanges, Escaped;
    match token {
      case Star => HasFirst(pat, at, [STAR]);
      case Any => HasFirst(pat, at, [QUESTION]);
      case Literal(b) => LiteralReads(pat, at, b);
      case Class(negated, ranges) => ClassReads(pat, at, negated, ranges);
    }
  }

  lemma {:induction false} LiteralReads(pat: Bytes, at: nat, b: byte)
    requires HasAt(pat, at, Escaped(b))
    ensures at < |pat| && NextToken(pat, at) == (Literal(b), at + 4)
  {
    EscapedReads(pat, at, b);
    HasFirst(pat, at, Escaped(b));
    assert Escaped(b)[0] == BACKSLASH;
    hide NextPatChar, HasAt, Escaped, ParseClass;
  }

  lemma {:induction false} ClassReads(pat: Bytes, at: nat, negated: bool, ranges: seq<(byte, byte)>)
    requires HasAt(pat, at, Write(Class(negated, ranges)))
    ensures at < |pat| && NextToken(pat, at) == (Class(negated, ranges), at + |Write(Class(negated, ranges))|)
  {
    hide ParseClass, WriteRanges, HasAt, NegatedAt, NextToken;
    var mark: Bytes := if negated then [CARET] else [];
    var tail := WriteRanges(ranges) + [CLOSE];
    HasFirst(pat, at, [OPEN] + (mark + tail));
    HasParts(pat, at, [OPEN], mark + tail);
    HasParts(pat, at + 1, mark, tail);
    RangesRead(pat, at + 1 + |mark|, ranges);
    NegationMark(pat, at + 1, negated, ranges);
    BracketReads(pat, at);
  }

  lemma {:induction false} BracketReads(pat: Bytes, at: nat)
    requires at < |pat| && pat[at] == OPEN
    ensures
      var negated := NegatedAt(pat, at + 1);
      var parsed := ParseClass(pat, if negated then at + 2 else at + 1);
      NextToken(pat, at) ==
      if parsed.Some? then (Class(negated, parsed.value.0), parsed.value.1) else (Literal(OPEN), at + 1)
  {
    hide ParseClass;
  }

  lemma {:induction false} NegationMark(pat: Bytes, at: nat, negated: bool, ranges: seq<(byte, byte)>)
    requires HasAt(pat, at, (if negated then [CARET] else []) + (WriteRanges(ranges) + [CLOSE]))
    ensures NegatedAt(pat, at) == negated
  {
    HasFirst(pat, at, (if negated then [CARET] else []) + (WriteRanges(ranges) + [CLOSE]));
    hide HasAt;
  }

  /** Reading undoes writing, for every list of tokens. */
  lemma {:induction false} PatternRoundTrip(tokens: seq<Token>)
    ensures Tokens(WriteAll(tokens), 0) == tokens
  {
    var pat := WriteAll(tokens);
    assert pat[0..] == pat;
    TokensRead(pat, 0, tokens);
  }

  lemma {:induction false} TokensRead(pat: Bytes, at: nat, tokens: seq<Token>)
    requires at <= |pat| && pat[at..] == WriteAll(tokens)
    ensures Tokens(pat, at) == tokens
    decreases |tokens|
  {
    AllWritten(tokens);
    hide Tokens, NextToken, Write, WriteAll, HasAt;
    if tokens == [] {
      NoTokens(pat);
    } else {
      var first, rest := Write(tokens[0]), WriteAll(tokens[1..]);
      SuffixParts(pat, at, first, rest);
      TokenReads(pat, at, tokens[0]);
      TokensAt(pat, at);
      TokensRead(pat, at + |first|, tokens[1..]);
      assert [tokens[0]] + tokens[1..] == tokens;
    }
  }

  lemma {:induction false} AllWritten(tokens: seq<Token>)
    ensures WriteAll([]) == []
    ensures tokens != [] ==> WriteAll(tokens) == Write(tokens[0]) + WriteAll(tokens[1..])
  {
  }

  lemma {:induction false} NoTokens(pat: Bytes)
    ensures Tokens(pat, |pat|) == []
  {
  }

  lemma {:induction false} SuffixParts(pat: Bytes, at: nat, a: Bytes, b: Bytes)
    requires at <= |pat| && pat[at..] == a + b
    ensures HasAt(pat, at, a) && pat[at + |a|..] == b
  {
    assert pat[at..at + |a|] == (a + b)[..|a|];
    assert pat[at + |a|..] == (a + b)[|a|..];
  }

  // ----- Plain writing -----------------------------------------------------

  /** A byte that is none of the four specials stands for itself, and so does any byte after a backslash. */
  lemma {:induction false} PlainBytes(pat: Bytes, p: nat)
    requires p < |pat|
    ensures pat[p] !in {STAR, QUESTION, OPEN, BACKSLASH} ==> NextToken(pat, p) == (Literal(pat[p]), p + 1)
    ensures pat[p] == QUESTION ==> NextToken(pat, p) == (Any, p + 1)
    ensures pat[p] == BACKSLASH && p + 1 < |pat| && pat[p + 1] != LETTER_X ==>
              NextToken(pat, p) == (Literal(pat[p + 1]), p + 2)
    ensures pat[p] == BACKSLASH && p + 1 == |pat| ==> NextToken(pat, p) == (Literal(BACKSLASH), p + 1)
  {
  }

  /** A byte inside brackets that is neither a backslash nor the closing one. */
  lemma {:induction false} PlainInClass(pat: Bytes, i: nat)
    requires i < |pat| && pat[i] != CLOSE && pat[i] != BACKSLASH
    ensures i + 2 < |pat| && pat[i + 1] == DASH && pat[i + 2] != CLOSE && pat[i + 2] != BACKSLASH ==>
              ParseClass(pat, i) == Prepend((pat[i], pat[i + 2]), ParseClass(pat, i + 3))
    ensures i + 2 >= |pat| || pat[i + 1] != DASH || pat[i + 2] == CLOSE ==>
              ParseClass(pat, i) == Prepend((pat[i], pat[i]), ParseClass(pat, i + 1))
  {
  }

  lemma {:induction false} ClassEnds(pat: Bytes, i: nat)
    requires i <= |pat|
    ensures i == |pat| ==> ParseClass(pat, i) == None
    ensures i < |pat| && pat[i] == CLOSE ==> ParseClass(pat, i) == Some(([], i + 1))
  {
  }

  /** `[a-c]` is a range, and after `!` its opposite. */
  lemma {:induction false} PlainRange(a: byte, c: byte)
    requires a !in {CLOSE, BACKSLASH, CARET, BANG} && c !in {CLOSE, BACKSLASH}
    ensures NextToken([OPEN, a, DASH, c, CLOSE], 0) == (Class(false, [(a, c)]), 5)
    ensures NextToken([OPEN, BANG, a, DASH, c, CLOSE], 0) == (Class(true, [(a, c)]), 6)
  {
    hide ParseClass;
    assert [(a, c)] + [] == [(a, c)];
    PlainInClass([OPEN, a, DASH, c, CLOSE], 1);
    ClassEnds([OPEN, a, DASH, c, CLOSE], 4);
    PlainInClass([OPEN, BANG, a, DASH, c, CLOSE], 2);
    ClassEnds([OPEN, BANG, a, DASH, c, CLOSE], 5);
  }

  /** `[ac]` holds two bytes, `[a-]` a byte and a dash, and a bracket that never closes is a byte. */
  lemma {:induction false} PlainClasses(a: byte, c: byte)
    requires a !in {CLOSE, BACKSLASH, CARET, BANG, DASH} && c !in {CLOSE, BACKSLASH, DASH}
    ensures NextToken([OPEN, a, c, CLOSE], 0) == (Class(false, [(a, a), (c, c)]), 4)
    ensures NextToken([OPEN, a, DASH, CLOSE], 0) == (Class(false, [(a, a), (DASH, DASH)]), 4)
    ensures NextToken([OPEN, a, DASH, c], 0) == (Literal(OPEN), 1)
  {
    hide ParseClass;
    assert [(c, c)] + [] == [(c, c)] && [(a, a)] + [(c, c)] == [(a, a), (c, c)];
    assert [(DASH, DASH)] + [] == [(DASH, DASH)] && [(a, a)] + [(DASH, DASH)] == [(a, a), (DASH, DASH)];
    PlainInClass([OPEN, a, c, CLOSE], 1);
    PlainInClass([OPEN, a, c, CLOSE], 2);
    ClassEnds([OPEN, a, c, CLOSE], 3);
    PlainInClass([OPEN, a, DASH, CLOSE], 1);
    PlainInClass([OPEN, a, DASH, CLOSE], 2);
    ClassEnds([OPEN, a, DASH, CLOSE], 3);
    PlainInClass([OPEN, a, DASH, c], 1);
    ClassEnds([OPEN, a, DASH, c], 4);
  }

  // ----- Letters and ranges ------------------------------------------------

  predicate Upper(b: byte) {
    65 <= b <= 90
  }

  /** Bytes compare equal when they are, or when case is ignored and they are one letter in two cases. */
  lemma {:induction false} SameLetter(b: byte, c: byte, ignoreCase: bool)
    ensures Accepts(Literal(c), b, ignoreCase) <==>
              b == c || (ignoreCase && ((Upper(b) && c == b + 32) || (Upper(c) && b == c + 32)))
  {
  }

  /** A range holds the bytes between its ends, in whichever order they are written; a class any of its ranges. */
  lemma {:induction false} ClassMeans(b: byte, negated: bool, ranges: seq<(byte, byte)>)
    ensures Accepts(Class(negated, ranges), b, false) != negated <==>
              exists i :: 0 <= i < |ranges| && (ranges[i].0 <= b <= ranges[i].1 || ranges[i].1 <= b <= ranges[i].0)
  {
    if exists i :: 0 <= i < |ranges| && (ranges[i].0 <= b <= ranges[i].1 || ranges[i].1 <= b <= ranges[i].0) {
      var i :| 0 <= i < |ranges| && (ranges[i].0 <= b <= ranges[i].1 || ranges[i].1 <= b <= ranges[i].0);
      assert InRange(b, ranges[i], false);
    }
  }

  /** Ignoring case, a class holds a byte if it holds either case of it, for ranges of lower-case letters. */
  lemma {:induction false} CaseIgnored(b: byte, lo: byte, hi: byte)
    requires 97 <= lo <= hi <= 122
    ensures InRange(b, (lo, hi), true) <==> lo <= b <= hi || lo - 32 <= b <= hi - 32
    ensures InRange(b, (lo - 32, hi - 32), true) <==> InRange(b, (lo, hi), true)
  {
  }
}
