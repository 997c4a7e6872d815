/** What the list commands mean on a plain sequence. */
module ListSpec {
  import opened Common
  import opened ListPages

  // ----- Indices -----------------------------------------------------------

  /** A negative index counts from the end. */
  function Resolve(i: int, len: nat): int {
    if i < 0 then i + len else i
  }

  function NormalizeIndex(len: nat, index: int): (r: Option<nat>)
    ensures r.Some? <==> 0 <= Resolve(index, len) < len
    ensures r.Some? ==> r.value == Resolve(index, len)
  {
    if len == 0 then None
    else
      var absolute := if index >= 0 then index else len + index;
      if absolute >= 0 && absolute < len then Some(absolute) else None
  }

  /** The clamped closed range selects exactly the indices between the two resolved ends. */
  function NormalizeRange(len: nat, start: int, stop: int): (r: Option<(nat, nat)>)
    ensures r.Some? ==> r.value.0 <= r.value.1 < len
    ensures forall i {:trigger InRange(r, i)} :: 0 <= i < len ==>
              (InRange(r, i) <==> Resolve(start, len) <= i <= Resolve(stop, len))
  {
    if len == 0 then None
    else
      var first := if start < 0 then Max(len + start, 0) else start;
      var last := if stop < 0 then len + stop else Min(stop, len - 1);
      if first > last then None else Some((first, last))
  }

  predicate InRange(r: Option<(nat, nat)>, i: int) {
    r.Some? && r.value.0 <= i <= r.value.1
  }

  function Between<T>(s: seq<T>, r: Option<(nat, nat)>): seq<T>
    requires r.Some? ==> r.value.0 <= r.value.1 < |s|
  {
    if r.None? then [] else s[r.value.0..r.value.1 + 1]
  }

  // ----- Removing occurrences ----------------------------------------------

  function RemAll(s: seq<Item>, v: Item): seq<Item> {
    if s == [] then [] else (if s[0] == v then [] else [s[0]]) + RemAll(s[1..], v)
  }

  /** Without its first `n` occurrences of a value. */
  function RemFirst(s: seq<Item>, n: nat, v: Item): (r: seq<Item>)
    ensures 0 <= |s| - |r| <= n
  {
    if s == [] then []
    else if n > 0 && s[0] == v then RemFirst(s[1..], n - 1, v)
    else [s[0]] + RemFirst(s[1..], n, v)
  }

  /** Without its last `n` occurrences of a value. */
  function RemLast(s: seq<Item>, n: nat, v: Item): (r: seq<Item>)
    ensures 0 <= |s| - |r| <= n
  {
    if s == [] then []
    else
      var init, last := s[..|s| - 1], s[|s| - 1];
      if n > 0 && last == v then RemLast(init, n - 1, v) else RemLast(init, n, v) + [last]
  }

  lemma {:induction false} RemAllConcat(a: seq<Item>, b: seq<Item>, v: Item)
    ensures RemAll(a + b, v) == RemAll(a, v) + RemAll(b, v)
  {
    if a == [] {
      assert a + b == b;
    } else {
      RemAllConcat(a[1..], b, v);
      assert (a + b)[1..] == a[1..] + b;
      Assoc(if a[0] == v then [] else [a[0]], RemAll(a[1..], v), RemAll(b, v));
    }
  }

  /** What the first part did not use up of the allowance is left for the second. */
  lemma {:induction false} RemFirstConcat(a: seq<Item>, b: seq<Item>, n: nat, v: Item)
    ensures RemFirst(a + b, n, v) == RemFirst(a, n, v) + RemFirst(b, n - (|a| - |RemFirst(a, n, v)|), v)
    decreases |a|
  {
    if a == [] {
      assert a + b == b;
    } else {
      assert (a + b)[1..] == a[1..] + b;
      var left := if n > 0 && a[0] == v then n - 1 else n;
      RemFirstConcat(a[1..], b, left, v);
      Assoc([a[0]], RemFirst(a[1..], left, v), RemFirst(b, left - (|a| - 1 - |RemFirst(a[1..], left, v)|), v));
    }
  }

  lemma {:induction false} RemLastConcat(a: seq<Item>, b: seq<Item>, n: nat, v: Item)
    ensures RemLast(a + b, n, v) == RemLast(a, n - (|b| - |RemLast(b, n, v)|), v) + RemLast(b, n, v)
    decreases |b|
  {
    if b == [] {
      assert a + b == a;
    } else {
      var init := b[..|b| - 1];
      assert (a + b)[..|a + b| - 1] == a + init;
      RemLastConcat(a, init, if n > 0 && b[|b| - 1] == v then n - 1 else n, v);
    }
  }

  /** Removing from the tail is removing from the head of the mirror image. */
  lemma {:induction false} RemLastMirrors(s: seq<Item>, n: nat, v: Item)
    ensures RemLast(s, n, v) == Reverse(RemFirst(Reverse(s), n, v))
    decreases |s|
  {
    if s != [] {
      var init, last := s[..|s| - 1], s[|s| - 1];
      assert s == init + [last];
      ReverseConcat(init, [last]);
      ReverseOne(last);
      var mirror := Reverse(s);
      assert mirror[1..] == Reverse(init);
      if n > 0 && last == v {
        RemLastMirrors(init, n - 1, v);
      } else {
        RemLastMirrors(init, n, v);
        ReverseConcat([last], RemFirst(Reverse(init), n, v));
      }
    }
  }

  /** A removal takes as many as there are, up to its allowance, and a large allowance takes all. */
  lemma {:induction false} RemFirstCounts(s: seq<Item>, n: nat, v: Item)
    ensures |s| - |RemFirst(s, n, v)| == Min(n, multiset(s)[v])
    ensures n >= |s| ==> RemFirst(s, n, v) == RemAll(s, v)
    decreases |s|
  {
    if s != [] {
      assert s == [s[0]] + s[1..];
      RemFirstCounts(s[1..], if n > 0 && s[0] == v then n - 1 else n, v);
    }
  }

  lemma {:induction false} RemLastAll(s: seq<Item>, n: nat, v: Item)
    requires n >= |s|
    ensures RemLast(s, n, v) == RemAll(s, v)
    decreases |s|
  {
    if s != [] {
      var init, last := s[..|s| - 1], s[|s| - 1];
      assert s == init + [last];
      RemAllConcat(init, [last], v);
      RemLastAll(init, if last == v then n - 1 else n, v);
    }
  }

  /** LREM: a positive count removes from the head, a negative one from the tail, zero everywhere. */
  function Removed(s: seq<Item>, count: int, v: Item): seq<Item> {
    if count == 0 then RemAll(s, v)
    else if count > 0 then RemFirst(s, count, v)
    else RemLast(s, -count, v)
  }

  /** What a deletion mask leaves of a page. */
  function Kept(page: Page, mask: seq<bool>): seq<Item>
    requires |page| <= |mask|
  {
    if page == [] then []
    else (if mask[0] then [] else [page[0]]) + Kept(page[1..], mask[1..])
  }

  lemma {:induction false} KeptConcat(a: Page, b: Page, mask: seq<bool>)
    requires |a| + |b| <= |mask|
    ensures Kept(a + b, mask) == Kept(a, mask) + Kept(b, mask[|a|..])
    decreases |a|
  {
    if a == [] {
      assert a + b == b;
      assert mask[0..] == mask;
    } else {
      assert (a + b)[1..] == a[1..] + b;
      KeptConcat(a[1..], b, mask[1..]);
      assert mask[1..][|a[1..]|..] == mask[|a|..];
      Assoc(if mask[0] then [] else [a[0]], Kept(a[1..], mask[1..]), Kept(b, mask[|a|..]));
    }
  }

  lemma {:induction false} KeptAll(page: Page, mask: seq<bool>)
    requires |page| <= |mask| && forall i :: 0 <= i < |page| ==> !mask[i]
    ensures Kept(page, mask) == page
    decreases |page|
  {
    if page != [] {
      KeptAll(page[1..], mask[1..]);
    }
  }

  // ----- Finding -----------------------------------------------------------

  /** The first index of a value, or the length. */
  function IndexOf(s: seq<Item>, v: Item): (r: nat)
    ensures r <= |s|
    ensures r < |s| ==> s[r] == v
    ensures forall i :: 0 <= i < r ==> s[i] != v
  {
    if s == [] || s[0] == v then 0 else 1 + IndexOf(s[1..], v)
  }

  /** The indices below `hi` that hold a value, in order. */
  function Hits(s: seq<Item>, v: Item, hi: nat): seq<nat>
    requires hi <= |s|
  {
    if hi == 0 then []
    else Hits(s, v, hi - 1) + (if s[hi - 1] == v then [hi - 1] else [])
  }

  /** They are all the indices that hold the value, in increasing order. */
  lemma {:induction false} HitsAreMatches(s: seq<Item>, v: Item, hi: nat)
    requires hi <= |s|
    ensures forall k :: k in Hits(s, v, hi) <==> 0 <= k < hi && s[k] == v
    ensures forall i, j :: 0 <= i < j < |Hits(s, v, hi)| ==> Hits(s, v, hi)[i] < Hits(s, v, hi)[j]
    decreases hi
  {
    if hi > 0 {
      HitsAreMatches(s, v, hi - 1);
      var before := Hits(s, v, hi - 1);
      assert forall i :: 0 <= i < |before| ==> before[i] in before;
    }
  }

  lemma {:induction false} HitsPrefix(s: seq<Item>, v: Item, lo: nat, hi: nat)
    requires lo <= hi <= |s|
    ensures Hits(s, v, lo) <= Hits(s, v, hi)
    decreases hi - lo
  {
    if lo < hi {
      HitsPrefix(s, v, lo, hi - 1);
    }
  }

  /** Skips some, and takes as many as wanted (all when unlimited). */
  function Pick(hits: seq<nat>, skip: nat, limit: Option<nat>): seq<nat> {
    var rest := if skip <= |hits| then hits[skip..] else [];
    if limit.Some? && limit.value <= |rest| then rest[..limit.value] else rest
  }

  /** One more position looked at. */
  lemma {:induction false} PickStep(s: seq<Item>, v: Item, at: nat, skip: nat)
    requires at < |s|
    ensures var before, after := Hits(s, v, at), Hits(s, v, at + 1);
            var picked, grown := Pick(before, skip, None), Pick(after, skip, None);
            && |after| == |before| + (if s[at] == v then 1 else 0)
            && grown == if s[at] == v && skip <= |before| then picked + [at] else picked
  {
  }

  /** Once enough are picked the rest of the window does not matter. */
  lemma {:induction false} PickEnough(s: seq<Item>, v: Item, at: nat, window: nat, skip: nat, limit: nat)
    requires at <= window <= |s| && |Pick(Hits(s, v, at), skip, None)| == limit > 0
    ensures Pick(Hits(s, v, window), skip, Some(limit)) == Pick(Hits(s, v, at), skip, None)
  {
    HitsPrefix(s, v, at, window);
  }

  lemma {:induction false} PickShort(hits: seq<nat>, skip: nat, limit: Option<nat>)
    requires limit.Some? ==> |Pick(hits, skip, None)| < limit.value
    ensures Pick(hits, skip, limit) == Pick(hits, skip, None)
  {
  }

  lemma {:induction false} PickNothing(s: seq<Item>, v: Item, skip: nat)
    ensures |Hits(s, v, 0)| == 0 && Pick(Hits(s, v, 0), skip, None) == []
  {
  }

  /** Indices counted from the other end. */
  function Flipped(hits: seq<nat>, len: nat): (r: seq<int>)
    ensures |r| == |hits|
  {
    if hits == [] then [] else Flipped(hits[..|hits| - 1], len) + [len - 1 - hits[|hits| - 1]]
  }

  lemma {:induction false} FlippedAt(hits: seq<nat>, len: nat, i: nat)
    requires i < |hits|
    ensures Flipped(hits, len)[i] == len - 1 - hits[i]
  {
    if i < |hits| - 1 {
      FlippedAt(hits[..|hits| - 1], len, i);
    }
  }

  function Window(len: nat, maxlen: nat): (r: nat)
    ensures r <= len
  {
    if maxlen == 0 then len else Min(maxlen, len)
  }

  function Wanted(count: Option<nat>): Option<nat> {
    if count == Some(0) then None else if count.Some? then count else Some(1)
  }

  /** LPOS. */
  function Positions(s: seq<Item>, v: Item, rank: int, count: Option<nat>, maxlen: nat): seq<int> {
    if rank == 0 then []
    else if rank > 0 then Pick(Hits(s, v, Window(|s|, maxlen)), rank - 1, Wanted(count))
    else Flipped(Pick(Hits(Reverse(s), v, Window(|s|, maxlen)), -rank - 1, Wanted(count)), |s|)
  }

  /** Every position answered holds the value: the one after the first `|rank| - 1 + i` matches from that end. */
  lemma {:induction false} PositionsAreMatches(
      s: seq<Item>, v: Item, rank: int, count: Option<nat>, maxlen: nat, i: nat)
    requires i < |Positions(s, v, rank, count, maxlen)|
    ensures var at := Positions(s, v, rank, count, maxlen)[i];
            0 <= at < |s| && s[at] == v
    ensures rank > 0 ==> Positions(s, v, rank, count, maxlen)[i] == Hits(s, v, Window(|s|, maxlen))[rank - 1 + i]
    ensures rank < 0 ==>
              Positions(s, v, rank, count, maxlen)[i]
              == |s| - 1 - Hits(Reverse(s), v, Window(|s|, maxlen))[-rank - 1 + i]
  {
    hide Hits, Pick, Flipped, Reverse;
    var window := Window(|s|, maxlen);
    if rank > 0 {
      PickAt(s, v, window, rank - 1, Wanted(count), i);
    } else {
      PickAt(Reverse(s), v, window, -rank - 1, Wanted(count), i);
      FlippedAt(Pick(Hits(Reverse(s), v, window), -rank - 1, Wanted(count)), |s|, i);
    }
  }

  lemma {:induction false} PickAt(s: seq<Item>, v: Item, window: nat, skip: nat, limit: Option<nat>, i: nat)
    requires window <= |s| && i < |Pick(Hits(s, v, window), skip, limit)|
    ensures var hits := Hits(s, v, window);
            skip + i < |hits| && Pick(hits, skip, limit)[i] == hits[skip + i] && hits[skip + i] < window
            && s[hits[skip + i]] == v
  {
    HitsAreMatches(s, v, window);
    hide Hits;
    assert Hits(s, v, window)[skip + i] in Hits(s, v, window);
  }

  // ----- Moving ------------------------------------------------------------

  /** LMOVE between two lists. */
  function MoveOne(src: seq<Item>, dst: seq<Item>, fromLeft: bool, toLeft: bool): (seq<Item>, seq<Item>) {
    if src == [] then (src, dst)
    else
      var last := |src| - 1;
      var v := if fromLeft then src[0] else src[last];
      (if fromLeft then src[1..] else src[..last], if toLeft then [v] + dst else dst + [v])
  }

  /** LMOVE repeated. */
  function MoveTimes(src: seq<Item>, dst: seq<Item>, n: nat, fromLeft: bool, toLeft: bool): (seq<Item>, seq<Item>)
    decreases n
  {
    if n == 0 then (src, dst)
    else
      var next := MoveOne(src, dst, fromLeft, toLeft);
      MoveTimes(next.0, next.1, n - 1, fromLeft, toLeft)
  }

  /** LMOVE from a list to itself. */
  function Rotated(s: seq<Item>, fromLeft: bool, toLeft: bool): seq<Item> {
    if s == [] || fromLeft == toLeft then s
    else if fromLeft then s[1..] + [s[0]]
    else [s[|s| - 1]] + s[..|s| - 1]
  }

  function RotatedTimes(s: seq<Item>, n: nat, fromLeft: bool, toLeft: bool): seq<Item> {
    if n == 0 then s else Rotated(RotatedTimes(s, n - 1, fromLeft, toLeft), fromLeft, toLeft)
  }

  /** From an empty list nothing more moves. */
  lemma {:induction false} MoveNothing(dst: seq<Item>, n: nat, fromLeft: bool, toLeft: bool)
    ensures MoveTimes([], dst, n, fromLeft, toLeft) == ([], dst)
    decreases n
  {
    if n > 0 {
      MoveNothing(dst, n - 1, fromLeft, toLeft);
    }
  }

  /** Only as many moves as there are items do anything. */
  lemma {:induction false} MoveClamped(src: seq<Item>, dst: seq<Item>, n: nat, fromLeft: bool, toLeft: bool)
    ensures MoveTimes(src, dst, n, fromLeft, toLeft) == MoveTimes(src, dst, Min(n, |src|), fromLeft, toLeft)
    decreases n
  {
    if src == [] {
      MoveNothing(dst, n, fromLeft, toLeft);
    } else if n > 0 {
      var next := MoveOne(src, dst, fromLeft, toLeft);
      MoveClamped(next.0, next.1, n - 1, fromLeft, toLeft);
    }
  }

  /** A block of items changes lists, turned round when both ends are the same. */
  function BlockMoved(src: seq<Item>, dst: seq<Item>, n: nat, fromLeft: bool, toLeft: bool): (seq<Item>, seq<Item>)
    requires n <= |src|
  {
    var keep := |src| - n;
    if fromLeft then (src[n..], if toLeft then Reverse(src[..n]) + dst else dst + src[..n])
    else (src[..keep], if toLeft then src[keep..] + dst else dst + Reverse(src[keep..]))
  }

  /** Repeated moves in closed form. */
  lemma {:induction false} MoveTimesIs(src: seq<Item>, dst: seq<Item>, n: nat, fromLeft: bool, toLeft: bool)
    requires n <= |src|
    ensures MoveTimes(src, dst, n, fromLeft, toLeft) == BlockMoved(src, dst, n, fromLeft, toLeft)
    decreases n
  {
    hide BlockMoved;
    if n > 0 {
      var next := MoveOne(src, dst, fromLeft, toLeft);
      MoveTimesIs(next.0, next.1, n - 1, fromLeft, toLeft);
      BlockStep(src, dst, n, fromLeft, toLeft);
    } else {
      BlockNone(src, dst, fromLeft, toLeft);
    }
  }

  lemma {:induction false} BlockNone(src: seq<Item>, dst: seq<Item>, fromLeft: bool, toLeft: bool)
    ensures BlockMoved(src, dst, 0, fromLeft, toLeft) == (src, dst)
  {
    assert src[..|src|] == src && src[|src|..] == [] && src[..0] == [] && dst + [] == dst && [] + dst == dst;
  }

  lemma {:induction false} BlockStep(src: seq<Item>, dst: seq<Item>, n: nat, fromLeft: bool, toLeft: bool)
    requires 1 <= n <= |src|
    ensures var next := MoveOne(src, dst, fromLeft, toLeft);
            |next.0| == |src| - 1
            && BlockMoved(next.0, next.1, n - 1, fromLeft, toLeft) == BlockMoved(src, dst, n, fromLeft, toLeft)
  {
    hide Reverse;
    if fromLeft {
      MovedFromLeft(src, dst, n, toLeft);
    } else {
      MovedFromRight(src, dst, n, toLeft);
    }
  }

  lemma {:induction false} MovedFromLeft(src: seq<Item>, dst: seq<Item>, n: nat, toLeft: bool)
    requires 1 <= n <= |src|
    ensures src[1..][n - 1..] == src[n..]
    ensures toLeft ==> Reverse(src[1..][..n - 1]) + ([src[0]] + dst) == Reverse(src[..n]) + dst
    ensures !toLeft ==> dst + [src[0]] + src[1..][..n - 1] == dst + src[..n]
  {
    var rest := src[1..][..n - 1];
    assert src[..n] == [src[0]] + rest;
    if toLeft {
      ReverseConcat([src[0]], rest);
      ReverseOne(src[0]);
      Assoc(Reverse(rest), [src[0]], dst);
    } else {
      Assoc(dst, [src[0]], rest);
    }
  }

  lemma {:induction false} MovedFromRight(src: seq<Item>, dst: seq<Item>, n: nat, toLeft: bool)
    requires 1 <= n <= |src|
    ensures var last, keep := |src| - 1, |src| - n;
            && src[..last][..keep] == src[..keep]
            && (toLeft ==> src[..last][keep..] + ([src[last]] + dst) == src[keep..] + dst)
            && (!toLeft ==> dst + [src[last]] + Reverse(src[..last][keep..]) == dst + Reverse(src[keep..]))
  {
    var last, keep := |src| - 1, |src| - n;
    var rest := src[..last][keep..];
    assert src[keep..] == rest + [src[last]];
    if toLeft {
      Assoc(rest, [src[last]], dst);
    } else {
      ReverseConcat(rest, [src[last]]);
      ReverseOne(src[last]);
      Assoc(dst, [src[last]], Reverse(rest));
    }
  }

  /** Repeated rotation in closed form; a full turn changes nothing. */
  lemma {:induction false} RotatedTimesIs(s: seq<Item>, n: nat)
    requires n <= |s|
    ensures RotatedTimes(s, n, true, false) == s[n..] + s[..n]
    ensures RotatedTimes(s, n, false, true) == s[|s| - n..] + s[..|s| - n]
    decreases n
  {
    hide Rotated;
    if n > 0 {
      RotatedTimesIs(s, n - 1);
      OneMoreLeft(s, n);
      OneMoreRight(s, n);
    } else {
      assert s[0..] + s[..0] == s && s[|s|..] + s[..|s|] == s;
    }
  }

  lemma {:induction false} OneMoreLeft(s: seq<Item>, n: nat)
    requires 1 <= n <= |s|
    ensures Rotated(s[n - 1..] + s[..n - 1], true, false) == s[n..] + s[..n]
  {
    var before := s[n - 1..] + s[..n - 1];
    assert before[1..] + [before[0]] == s[n..] + s[..n];
  }

  lemma {:induction false} OneMoreRight(s: seq<Item>, n: nat)
    requires 1 <= n <= |s|
    ensures Rotated(s[|s| - n + 1..] + s[..|s| - n + 1], false, true) == s[|s| - n..] + s[..|s| - n]
  {
    var before := s[|s| - n + 1..] + s[..|s| - n + 1];
    assert [before[|s| - 1]] + before[..|s| - 1] == s[|s| - n..] + s[..|s| - n];
  }

  /** Rotations add up. */
  lemma {:induction false} RotatedTwice(s: seq<Item>, a: nat, b: nat, fromLeft: bool, toLeft: bool)
    ensures RotatedTimes(s, a + b, fromLeft, toLeft)
            == RotatedTimes(RotatedTimes(s, a, fromLeft, toLeft), b, fromLeft, toLeft)
    decreases b
  {
    if b > 0 {
      hide Rotated;
      RotatedTwice(s, a, b - 1, fromLeft, toLeft);
      assert a + b - 1 == a + (b - 1);
    }
  }

  /** A full turn changes nothing, so only the remainder of a rotation counts. */
  lemma {:induction false} FullTurn(s: seq<Item>, fromLeft: bool, toLeft: bool)
    ensures RotatedTimes(s, |s|, fromLeft, toLeft) == s
  {
    if fromLeft == toLeft {
      NotRotated(s, |s|, fromLeft);
    } else {
      RotatedTimesIs(s, |s|);
      assert s[|s|..] + s[..|s|] == s && s[0..] + s[..0] == s;
    }
  }

  lemma {:induction false} NotRotated(s: seq<Item>, n: nat, left: bool)
    ensures RotatedTimes(s, n, left, left) == s
  {
    if n > 0 {
      NotRotated(s, n - 1, left);
    }
  }

  lemma {:induction false} OnlyRemainderCounts(s: seq<Item>, n: nat, fromLeft: bool, toLeft: bool)
    requires s != []
    ensures RotatedTimes(s, n, fromLeft, toLeft) == RotatedTimes(s, n % |s|, fromLeft, toLeft)
    decreases n
  {
    hide RotatedTimes;
    if n >= |s| {
      FullTurn(s, fromLeft, toLeft);
      RotatedTwice(s, |s|, n - |s|, fromLeft, toLeft);
      OnlyRemainderCounts(s, n - |s|, fromLeft, toLeft);
      OneTurnLess(n, |s|);
    } else {
      OneTurnLess(n, |s|);
    }
  }

  lemma {:induction false} OneTurnLess(n: nat, len: nat)
    requires len > 0
    ensures n < len ==> n % len == n
    ensures n >= len ==> (n - len) % len == n % len
  {
    if n >= len {
      var q, r := (n - len) / len, (n - len) % len;
      assert n == (q + 1) * len + r by { assert (q + 1) * len == q * len + len; }
      SameRemainder(n, q + 1, r, len);
    }
  }

  lemma {:induction false} SameRemainder(n: nat, q: int, r: int, len: nat)
    requires len > 0 && n == q * len + r && 0 <= r < len
    ensures n % len == r
  {
    var p, t := n / len, n % len;
    assert (p - q) * len == r - t by { assert (p - q) * len == p * len - q * len; }
    TimesLength(p - q, len);
  }

  lemma {:induction false} TimesLength(k: int, len: int)
    requires len > 0
    ensures k >= 1 ==> k * len >= len
    ensures k <= -1 ==> k * len <= -len
  {
    if k >= 1 {
      assert k * len == len + (k - 1) * len;
    } else if k <= -1 {
      assert k * len == -len + (k + 1) * len;
    }
  }

  /** A sequence unchanged when its first `k` items are moved to the back. */
  predicate TurnsIntoItself(s: seq<Item>, k: nat)
    requires k <= |s|
  {
    s[k..] + s[..k] == s
  }

  /**
    Stopping after one full turn is the same as rotating all the way exactly when the ends are
    equal, the count is within the length, or what is left over turns the list into itself.
   */
  lemma {:induction false} OneTurnSuffices(s: seq<Item>, n: nat, fromLeft: bool, toLeft: bool)
    ensures RotatedTimes(s, Min(n, |s|), fromLeft, toLeft) == RotatedTimes(s, n, fromLeft, toLeft) <==>
              fromLeft == toLeft || n <= |s| || TurnsIntoItself(s, if s == [] then 0 else n % |s|)
  {
    if fromLeft == toLeft {
      NotRotated(s, n, fromLeft);
      NotRotated(s, Min(n, |s|), fromLeft);
    } else if s == [] {
      NothingToRotate(n, fromLeft, toLeft);
    } else if n > |s| {
      var k := n % |s|;
      FullTurn(s, fromLeft, toLeft);
      OnlyRemainderCounts(s, n, fromLeft, toLeft);
      RotatedTimesIs(s, k);
      TurnsEitherWay(s, k);
    }
  }

  lemma {:induction false} NothingToRotate(n: nat, fromLeft: bool, toLeft: bool)
    ensures RotatedTimes([], n, fromLeft, toLeft) == []
  {
    if n > 0 {
      NothingToRotate(n - 1, fromLeft, toLeft);
    }
  }

  /** Turning one way undoes turning the other way. */
  lemma {:induction false} TurnsEitherWay(s: seq<Item>, k: nat)
    requires k <= |s|
    ensures TurnsIntoItself(s, k) <==> s[|s| - k..] + s[..|s| - k] == s
  {
    var m := |s| - k;
    if s[k..] + s[..k] == s {
      assert s[m..] == s[..k] && s[..m] == s[k..] by { assert (s[k..] + s[..k])[m..] == s[..k]; }
    }
    if s[m..] + s[..m] == s {
      assert s[k..] == s[..m] && s[..k] == s[m..] by { assert (s[m..] + s[..m])[k..] == s[..m]; }
    }
  }

  /** The failing input: three different items moved to themselves four times. */
  lemma {:induction false} FourthMoveLost(a: Item, b: Item, c: Item)
    requires a != b
    ensures RotatedTimes([a, b, c], Min(4, 3), true, false) != RotatedTimes([a, b, c], 4, true, false)
  {
    var s := [a, b, c];
    OneTurnSuffices(s, 4, true, false);
    assert (s[1..] + s[..1])[0] == b;
  }
}
