/** What LRANGE, LREM and LPOS answer, read off the list itself. */
module ListLaws {
  import opened Common
  import opened ListPages
  import opened ListSpec

  /** LRANGE and LTRIM select what lies between two ends, each counted from the back when negative. */
  lemma {:induction false} RangeSelects(s: seq<Item>, start: int, stop: int)
    ensures
      var lo := Max(if start < 0 then start + |s| else start, 0);
      var hi := Min(if stop < 0 then stop + |s| else stop, |s| - 1);
      Between(s, NormalizeRange(|s|, start, stop)) == if lo <= hi then s[lo..hi + 1] else []
  {
  }

  // ----- LREM --------------------------------------------------------------

  /** Removing all occurrences leaves exactly the others. */
  lemma {:induction false} AllRemoved(s: seq<Item>, v: Item)
    ensures multiset(RemAll(s, v)) == multiset(s)[v := 0]
  {
    if s != [] {
      AllRemoved(s[1..], v);
      assert s == [s[0]] + s[1..];
    }
  }

  /** The first `n` occurrences lie before some place, and everything after it stays. */
  lemma {:induction false} FirstCut(s: seq<Item>, n: nat, v: Item) returns (cut: nat)
    ensures cut <= |s| && RemFirst(s, n, v) == RemAll(s[..cut], v) + s[cut..]
    ensures multiset(s[..cut])[v] == Min(n, multiset(s)[v])
    decreases |s|
  {
    NoneRemoved(s, v);
    hide RemFirst, RemAll, RemLast;
    if s == [] || n == 0 {
      cut := 0;
      assert s[0..] == s && s[..0] == [];
    } else {
      var x, t := s[0], s[1..];
      var rest := FirstCut(t, if x == v then n - 1 else n, v);
      cut := rest + 1;
      assert s == [x] + t && s[..cut] == [x] + t[..rest] && s[cut..] == t[rest..];
      OneRemoved(s, n, v);
      RemAllConcat([x], t[..rest], v);
      OneKept(x, v);
      Assoc(RemAll([x], v), RemAll(t[..rest], v), t[rest..]);
    }
  }

  lemma {:induction false} OneRemoved(s: seq<Item>, n: nat, v: Item)
    requires s != [] && n > 0
    ensures RemFirst(s, n, v) ==
            (if s[0] == v then [] else [s[0]]) + RemFirst(s[1..], if s[0] == v then n - 1 else n, v)
  {
  }

  lemma {:induction false} NoneRemoved(s: seq<Item>, v: Item)
    ensures RemFirst(s, 0, v) == s && RemLast(s, 0, v) == s && RemAll([], v) == []
    ensures s == [] ==> forall n: nat :: RemFirst(s, n, v) == [] && RemLast(s, n, v) == []
  {
    NoneFirst(s, v);
    NoneLast(s, v);
  }

  lemma {:induction false} NoneFirst(s: seq<Item>, v: Item)
    ensures RemFirst(s, 0, v) == s
  {
    if s != [] {
      NoneFirst(s[1..], v);
      assert s == [s[0]] + s[1..];
    }
  }

  lemma {:induction false} NoneLast(s: seq<Item>, v: Item)
    ensures RemLast(s, 0, v) == s
  {
    if s != [] {
      NoneLast(s[..|s| - 1], v);
      assert s == s[..|s| - 1] + [s[|s| - 1]];
    }
  }

  lemma {:induction false} LastCut(s: seq<Item>, n: nat, v: Item) returns (cut: nat)
    ensures cut <= |s| && RemLast(s, n, v) == s[..cut] + RemAll(s[cut..], v)
    ensures multiset(s[cut..])[v] == Min(n, multiset(s)[v])
    decreases |s|
  {
    NoneRemoved(s, v);
    hide RemFirst, RemAll, RemLast;
    if s == [] || n == 0 {
      cut := |s|;
      assert s[..cut] == s && s[cut..] == [];
    } else {
      var init, last := s[..|s| - 1], s[|s| - 1];
      cut := LastCut(init, if last == v then n - 1 else n, v);
      assert s == init + [last] && s[..cut] == init[..cut] && s[cut..] == init[cut..] + [last];
      OneRemovedLast(s, n, v);
      RemAllConcat(init[cut..], [last], v);
      OneKept(last, v);
      Assoc(s[..cut], RemAll(init[cut..], v), RemAll([last], v));
    }
  }

  lemma {:induction false} OneRemovedLast(s: seq<Item>, n: nat, v: Item)
    requires s != [] && n > 0
    ensures
      var init, last := s[..|s| - 1], s[|s| - 1];
      RemLast(s, n, v) == RemLast(init, if last == v then n - 1 else n, v) + (if last == v then [] else [last])
  {
  }

  lemma {:induction false} OneKept(x: Item, v: Item)
    ensures RemAll([x], v) == if x == v then [] else [x]
  {
    assert [x][1..] == [];
  }

  /**
    LREM: with count 0 every occurrence goes; with a positive count, the first so many, and nothing
    behind them changes; with a negative one the last so many, and nothing before them changes.
   */
  lemma {:induction false} RemovedWhere(s: seq<Item>, count: int, v: Item) returns (cut: nat)
    ensures cut <= |s|
    ensures count == 0 ==> Removed(s, count, v) == RemAll(s, v)
    ensures count > 0 ==>
              && Removed(s, count, v) == RemAll(s[..cut], v) + s[cut..]
              && multiset(s[..cut])[v] == Min(count, multiset(s)[v])
    ensures count < 0 ==>
              && Removed(s, count, v) == s[..cut] + RemAll(s[cut..], v)
              && multiset(s[cut..])[v] == Min(-count, multiset(s)[v])
  {
    cut := 0;
    if count > 0 {
      cut := FirstCut(s, count, v);
    } else if count < 0 {
      cut := LastCut(s, -count, v);
    }
  }

  // ----- LPOS --------------------------------------------------------------

  lemma {:induction false} HitsCount(s: seq<Item>, v: Item, hi: nat)
    requires hi <= |s|
    ensures |Hits(s, v, hi)| == multiset(s[..hi])[v]
    decreases hi
  {
    HitsMore(s, v, hi);
    hide Hits;
    if hi == 0 {
      assert s[..0] == [];
    } else {
      HitsCount(s, v, hi - 1);
      CountMore(s, v, hi);
    }
  }

  lemma {:induction false} HitsMore(s: seq<Item>, v: Item, hi: nat)
    requires hi <= |s|
    ensures hi == 0 ==> Hits(s, v, hi) == []
    ensures hi > 0 ==> |Hits(s, v, hi)| == |Hits(s, v, hi - 1)| + if s[hi - 1] == v then 1 else 0
  {
  }

  lemma {:induction false} CountMore(s: seq<Item>, v: Item, hi: nat)
    requires 0 < hi <= |s|
    ensures multiset(s[..hi])[v] == multiset(s[..hi - 1])[v] + if s[hi - 1] == v then 1 else 0
  {
    assert s[..hi] == s[..hi - 1] + [s[hi - 1]];
  }

  lemma {:induction false} PickCount(hits: seq<nat>, skip: nat, limit: Option<nat>)
    ensures
      var left := Max(|hits| - skip, 0);
      |Pick(hits, skip, limit)| == if limit.Some? then Min(limit.value, left) else left
  {
  }

  lemma {:induction false} MirrorCount(s: seq<Item>, w: nat)
    requires w <= |s|
    ensures |Reverse(s)| == |s| && multiset(Reverse(s)[..w]) == multiset(s[|s| - w..])
  {
    var keep, tail := s[..|s| - w], s[|s| - w..];
    assert s == keep + tail;
    ReverseConcat(keep, tail);
    SameItems(keep);
    SameItems(tail);
    hide Reverse;
    assert Reverse(s)[..w] == Reverse(tail);
  }

  lemma {:induction false} SameItems(s: seq<Item>)
    ensures |Reverse(s)| == |s| && multiset(Reverse(s)) == multiset(s)
  {
    if s != [] {
      SameItems(s[1..]);
      assert s == [s[0]] + s[1..];
    }
  }

  /**
    LPOS answers as many matches as were asked for: one without COUNT, all with COUNT 0, else up to the
    count; of those within MAXLEN items from the end that RANK names, leaving out the first ones it skips.
   */
  lemma {:induction false} PositionsCount(s: seq<Item>, v: Item, rank: int, count: Option<nat>, maxlen: nat)
    ensures rank == 0 ==> Positions(s, v, rank, count, maxlen) == []
    ensures rank != 0 ==>
              var w := if maxlen == 0 then |s| else Min(maxlen, |s|);
              var seen := multiset(if rank > 0 then s[..w] else s[|s| - w..])[v];
              var left := Max(seen - ((if rank > 0 then rank else -rank) - 1), 0);
              |Positions(s, v, rank, count, maxlen)|
              == if count.None? then Min(1, left) else if count.value == 0 then left else Min(count.value, left)
  {
    hide Hits, Reverse, Flipped, Pick;
    var w := Window(|s|, maxlen);
    if rank > 0 {
      HitsCount(s, v, w);
      PickCount(Hits(s, v, w), rank - 1, Wanted(count));
    } else if rank < 0 {
      MirrorCount(s, w);
      HitsCount(Reverse(s), v, w);
      PickCount(Hits(Reverse(s), v, w), -rank - 1, Wanted(count));
    }
  }
}
