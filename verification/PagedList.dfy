/**
  The list object: every operation is proved to act on the concatenation of the
  pages as the plain sequence operation does, and to keep the pages sound.
 */
module PagedList {
  import opened Common
  import opened ListPages
  import opened ListSpec
  import opened ListSlices

  /** Splits a full page in two halves and puts an item into the one its place falls in. */
  method SplitPage(page: Page, local: nat, v: Item) returns (left: Page, right: Page)
    requires |page| == CAPACITY && local <= |page|
    ensures 1 <= |left| <= CAPACITY && 1 <= |right| <= CAPACITY
    ensures left + right == page[..local] + [v] + page[local..]
  {
    var half := |page| / 2;
    left, right := page[..half], page[half..];
    if local < half {
      left := left[..local] + [v] + left[local..];
    } else {
      right := right[..local - half] + [v] + right[local - half..];
    }
  }

  /** Sound pages in place of one page leave the list sound. */
  lemma {:induction false} SpliceSound(pages: seq<Page>, pi: nat, parts: seq<Page>)
    requires Sound(pages) && pi < |pages| && Sound(parts)
    ensures Sound(pages[..pi] + parts + pages[pi + 1..])
  {
  }

  class ListObject {
    var pages: seq<Page>
    var len: nat

    ghost predicate Valid()
      reads this
    {
      Sound(pages) && len == |Flatten(pages)|
    }

    ghost function Elements(): seq<Item>
      reads this
    {
      Flatten(pages)
    }

    constructor ()
      ensures Valid() && Elements() == []
    {
      pages, len := [], 0;
    }

    // ----- The two ends ----------------------------------------------------

    method PushFrontInner(v: Item)
      requires Valid()
      modifies this
      ensures Valid() && Elements() == [v] + old(Elements())
    {
      hide Flatten;
      if |pages| > 0 && |pages[0]| < CAPACITY {
        EditPage(pages, 0, 0, 0, [v], [v] + pages[0]);
        Ends(pages);
        pages := pages[0 := [v] + pages[0]];
      } else {
        FlattenOne([v]);
        FlattenConcat([[v]], pages);
        pages := [[v]] + pages;
      }
      len := len + 1;
    }

    method PushBackInner(v: Item)
      requires Valid()
      modifies this
      ensures Valid() && Elements() == old(Elements()) + [v]
    {
      hide Flatten;
      var last := |pages| - 1;
      if last >= 0 && |pages[last]| < CAPACITY {
        var n := |pages[last]|;
        EditPage(pages, last, n, n, [v], pages[last] + [v]);
        Ends(pages);
        pages := pages[last := pages[last] + [v]];
      } else {
        FlattenOne([v]);
        FlattenConcat(pages, [[v]]);
        pages := pages + [[v]];
      }
      len := len + 1;
    }

    /** Takes one item out of a page, and the page out of the directory when that empties it. */
    method TakeOut(pi: nat, local: nat) returns (v: Item)
      requires Valid() && pi < |pages| && local < |pages[pi]|
      modifies this
      ensures var at := old(Global(pages, pi, local));
              && at < |old(Elements())|
              && v == old(Elements())[at]
              && Elements() == old(Elements())[..at] + old(Elements())[at + 1..]
      ensures Valid()
    {
      hide Flatten;
      ItemAt(pages, pi, local);
      v := pages[pi][local];
      var page := pages[pi][..local] + pages[pi][local + 1..];
      if page == [] {
        EditAway(pages, pi);
        pages := pages[..pi] + pages[pi + 1..];
      } else {
        assert page == pages[pi][..local] + [] + pages[pi][local + 1..];
        EditPage(pages, pi, local, local + 1, [], page);
        pages := pages[pi := page];
      }
      len := len - 1;
    }

    method PopFrontInner() returns (r: Option<Item>)
      requires Valid()
      modifies this
      ensures Valid()
      ensures if old(Elements()) == [] then r == None && Elements() == []
              else r == Some(old(Elements())[0]) && Elements() == old(Elements())[1..]
    {
      EmptyList(pages);
      Ends(pages);
      hide Flatten;
      if |pages| == 0 {
        return None;
      }
      var v := TakeOut(0, 0);
      r := Some(v);
    }

    method PopBackInner() returns (r: Option<Item>)
      requires Valid()
      modifies this
      ensures Valid()
      ensures var before := old(Elements());
              if before == [] then r == None && Elements() == []
              else r == Some(before[|before| - 1]) && Elements() == before[..|before| - 1]
    {
      EmptyList(pages);
      Ends(pages);
      hide Flatten;
      if |pages| == 0 {
        return None;
      }
      var last := |pages| - 1;
      var v := TakeOut(last, |pages[last]| - 1);
      r := Some(v);
    }

    // ----- Places ----------------------------------------------------------

    /** Finds an index from whichever end is nearer. */
    method Locate(idx: nat) returns (r: Option<(nat, nat)>)
      requires Valid()
      ensures r.Some? <==> idx < len
      ensures r.Some? ==>
                var (pi, local) := r.value;
                pi < |pages| && local < |pages[pi]| && Global(pages, pi, local) == idx
    {
      hide Flatten;
      if idx >= len {
        return None;
      }
      Ends(pages);
      assert pages[..|pages|] == pages;
      if idx * 2 <= len {
        var acc := 0;
        for pi := 0 to |pages|
          invariant acc == Global(pages, pi, 0) && acc <= idx
        {
          Around(pages, pi);
          if idx < acc + |pages[pi]| {
            return Some((pi, idx - acc));
          }
          acc := acc + |pages[pi]|;
        }
        assert false;
      } else {
        var acc := len;
        for pi := |pages| downto 0
          invariant acc == Global(pages, pi, 0) && idx < acc
        {
          Around(pages, pi);
          acc := acc - |pages[pi]|;
          if idx >= acc {
            return Some((pi, idx - acc));
          }
        }
        assert false;
      }
      r := None;
    }

    method RemoveAt(idx: nat) returns (r: Option<Item>)
      requires Valid()
      modifies this
      ensures Valid()
      ensures if idx < |old(Elements())|
              then r == Some(old(Elements())[idx])
                   && Elements() == old(Elements())[..idx] + old(Elements())[idx + 1..]
              else r == None && Elements() == old(Elements())
    {
      hide Flatten;
      var place := Locate(idx);
      if place.None? {
        return None;
      }
      var v := TakeOut(place.value.0, place.value.1);
      r := Some(v);
    }

    /** Inserts into a page, splitting it in two halves when it is full. */
    method InsertIntoPage(pi: nat, local: nat, v: Item)
      requires Valid() && pi < |pages| && local <= |pages[pi]|
      modifies this
      ensures var at := old(Global(pages, pi, local));
              && at <= |old(Elements())|
              && Elements() == old(Elements())[..at] + [v] + old(Elements())[at..]
      ensures Valid()
    {
      hide Flatten;
      var page := pages[pi];
      if |page| < CAPACITY {
        var grown := page[..local] + [v] + page[local..];
        EditPage(pages, pi, local, local, [v], grown);
        SpliceSound(pages, pi, [grown]);
        assert pages[pi := grown] == pages[..pi] + [grown] + pages[pi + 1..];
        pages := pages[pi := grown];
      } else {
        var left, right := SplitPage(page, local, v);
        FlattenTwo(left, right);
        Edit(pages, pi, local, local, [v], [left, right]);
        SpliceSound(pages, pi, [left, right]);
        pages := pages[..pi] + [left, right] + pages[pi + 1..];
      }
      len := len + 1;
    }

    /**
      Drops empty pages and merges neighbours that together fill at most half a page;
      no two neighbours are left that still could be.
     */
    method Reclaim()
      requires Bounded(pages) && len == |Flatten(pages)|
      modifies this`pages
      ensures Valid() && Elements() == old(Elements())
      ensures forall i :: 0 <= i < |pages| - 1 ==> |pages[i]| + |pages[i + 1]| > HALF
    {
      hide Flatten;
      var taken, merged: seq<Page> := pages, [];
      FlattenNone();
      for i := 0 to |taken|
        invariant Sound(merged) && Flatten(merged) == Flatten(taken[..i])
        invariant forall k :: 0 <= k < |merged| - 1 ==> |merged[k]| + |merged[k + 1]| > HALF
      {
        var page := taken[i];
        var last := |merged| - 1;
        Around(taken, i);
        FlattenConcat(merged, [page]);
        FlattenOne(page);
        if page == [] {
        } else if last >= 0 && |merged[last]| + |page| <= HALF {
          var n := |merged[last]|;
          EditPage(merged, last, n, n, page, merged[last] + page);
          Ends(merged);
          merged := merged[last := merged[last] + page];
        } else {
          merged := merged + [page];
        }
      }
      assert taken[..|taken|] == taken;
      pages := merged;
      EmptyList(pages);
    }

    // ----- Reading ---------------------------------------------------------

    /** A cursor over the items from `start` up to `end`. */
    method SlicesOf(start: nat, end: nat) returns (it: Slices)
      requires Valid() && end <= len
      ensures fresh(it) && it.Valid() && it.pages == pages
      ensures it.Rest() == if start < end then Elements()[start..end] else []
    {
      hide Flatten;
      if start >= end {
        it := new Slices(pages, (0, 0), (0, 0), 0);
        return;
      }
      var front := Locate(start);
      var back := Locate(end - 1);
      it := new Slices(pages, front.value, back.value, end - start);
    }

    method LRange(start: int, stop: int) returns (r: seq<Item>)
      requires Valid()
      ensures r == Between(Elements(), NormalizeRange(|Elements()|, start, stop))
    {
      hide Flatten;
      var range := NormalizeRange(len, start, stop);
      if range.None? {
        return [];
      }
      var it := SlicesOf(range.value.0, range.value.1 + 1);
      r := it.ReadAll();
    }

    method LIndex(index: int) returns (r: Option<Item>)
      requires Valid()
      ensures var i := Resolve(index, |Elements()|);
              r == if 0 <= i < |Elements()| then Some(Elements()[i]) else None
    {
      hide Flatten;
      var idx := NormalizeIndex(len, index);
      if idx.None? {
        return None;
      }
      var place := Locate(idx.value);
      ItemAt(pages, place.value.0, place.value.1);
      r := Some(pages[place.value.0][place.value.1]);
    }

    method LSet(index: int, v: Item) returns (ok: bool)
      requires Valid()
      modifies this
      ensures Valid()
      ensures var before := old(Elements()); var i := Resolve(index, |before|);
              && (ok <==> 0 <= i < |before|)
              && Elements() == if 0 <= i < |before| then before[i := v] else before
    {
      hide Flatten;
      var idx := NormalizeIndex(len, index);
      if idx.None? {
        return false;
      }
      var place := Locate(idx.value);
      var (pi, local) := place.value;
      ItemAt(pages, pi, local);
      var page := pages[pi][local := v];
      assert page == pages[pi][..local] + [v] + pages[pi][local + 1..];
      EditPage(pages, pi, local, local + 1, [v], page);
      pages := pages[pi := page];
      ok := true;
    }

    // ----- Cutting ---------------------------------------------------------

    /** Drops the first items: whole pages, then part of one. */
    method CutFront(n: nat)
      requires Valid() && n < len
      modifies this`pages
      ensures Sound(pages) && Elements() == old(Elements())[n..]
    {
      hide Flatten;
      ghost var all := Elements();
      var head := n;
      while head > 0
        invariant Sound(pages) && 0 <= head <= n && head < |Flatten(pages)| && Flatten(pages) == all[n - head..]
        decreases head
      {
        EmptyFlatten(pages);
        var page := pages[0];
        Ends(pages);
        if |page| > head {
          assert page[head..] == page[..0] + [] + page[head..];
          EditPage(pages, 0, 0, head, [], page[head..]);
          pages := pages[0 := page[head..]];
          head := 0;
        } else {
          EditAway(pages, 0);
          assert pages[..0] + pages[1..] == pages[1..];
          head := head - |page|;
          pages := pages[1..];
        }
      }
    }

    /** Drops the last items: whole pages, then part of one. */
    method CutBack(n: nat)
      requires Sound(pages) && n < |Flatten(pages)|
      modifies this`pages
      ensures Sound(pages) && Elements() == old(Elements())[..|old(Elements())| - n]
    {
      hide Flatten;
      ghost var all := Elements();
      var tail := n;
      while tail > 0
        invariant Sound(pages) && 0 <= tail <= n && tail < |Flatten(pages)| && Flatten(pages) == all[..|all| - n + tail]
        decreases tail
      {
        EmptyFlatten(pages);
        var last := |pages| - 1;
        var page := pages[last];
        var keep := |page| - tail;
        Ends(pages);
        if |page| > tail {
          assert page[..keep] == page[..keep] + [] + page[|page|..];
          EditPage(pages, last, keep, |page|, [], page[..keep]);
          pages := pages[last := page[..keep]];
          tail := 0;
        } else {
          EditAway(pages, last);
          assert pages[..last] + pages[last + 1..] == pages[..last];
          tail := tail - |page|;
          pages := pages[..last];
        }
      }
    }

    method LTrim(start: int, stop: int)
      requires Valid()
      modifies this
      ensures Valid()
      ensures Elements() == Between(old(Elements()), NormalizeRange(|old(Elements())|, start, stop))
    {
      hide Flatten;
      FlattenNone();
      var range := NormalizeRange(len, start, stop);
      if len == 0 {
        return;
      }
      if range.None? {
        pages, len := [], 0;
        return;
      }
      var keepStart := range.value.0;
      var keepLen := range.value.1 + 1 - keepStart;
      ghost var all := Elements();
      CutFront(keepStart);
      CutBack(len - keepStart - keepLen);
      assert all[keepStart..][..keepLen] == all[keepStart..keepStart + keepLen];
      len := keepLen;
    }

    // ----- Removing occurrences --------------------------------------------

    /** Removes at most `quota` occurrences from a page, from its head. */
    static method RemoveFromPageHead(page: Page, quota: nat, v: Item) returns (kept: Page, removed: nat)
      ensures kept == RemFirst(page, quota, v) && removed == |page| - |kept|
    {
      kept, removed := [], 0;
      for i := 0 to |page|
        invariant kept == RemFirst(page[..i], quota, v) && removed == i - |kept| && removed <= quota
      {
        assert page[..i + 1] == page[..i] + [page[i]];
        RemFirstConcat(page[..i], [page[i]], quota, v);
        if removed < quota && page[i] == v {
          removed := removed + 1;
        } else {
          kept := kept + [page[i]];
        }
      }
      assert page[..|page|] == page;
    }

    /** Removes at most `quota` occurrences from a page, from its tail, through a 64-bit mask. */
    static method RemoveFromPageTail(page: Page, quota: nat, v: Item) returns (kept: Page, removed: nat)
      requires |page| <= CAPACITY
      ensures kept == RemLast(page, quota, v) && removed == |page| - |kept|
    {
      var mask := seq(CAPACITY, _ => false);
      var left := quota;
      removed := 0;
      var local := |page|;
      while local > 0 && left > 0
        invariant 0 <= local <= |page| && |mask| == CAPACITY && left + removed == quota
        invariant forall k :: 0 <= k < local ==> !mask[k]
        invariant Kept(page[local..], mask[local..]) == RemLast(page[local..], quota, v)
        invariant removed == |page| - local - |RemLast(page[local..], quota, v)|
      {
        local := local - 1;
        if page[local] == v {
          mask := mask[local := true];
          left := left - 1;
          removed := removed + 1;
        }
        MaskStep(page, local, mask, quota, v);
      }
      MaskDone(page, local, mask, quota, v);
      kept := page;
      if removed > 0 {
        kept := Retain(page, mask);
      } else {
        RemLastNothing(page, quota, v);
      }
    }

    /** Keeps the items whose mask bit is clear, shifting the mask as it goes. */
    static method Retain(page: Page, mask: seq<bool>) returns (kept: Page)
      requires |page| <= |mask| == CAPACITY
      ensures kept == Kept(page, mask)
    {
      kept := [];
      var bits := mask;
      for i := 0 to |page|
        invariant kept == Kept(page[..i], mask)
        invariant |bits| == CAPACITY && bits[..CAPACITY - i] == mask[i..]
      {
        assert page[..i + 1] == page[..i] + [page[i]];
        KeptConcat(page[..i], [page[i]], mask);
        assert bits[0] == bits[..CAPACITY - i][0] == mask[i];
        if !bits[0] {
          kept := kept + [page[i]];
        }
        bits := bits[1..] + [false];
      }
      assert page[..|page|] == page;
    }

    /** Removes every occurrence, page by page. */
    method RetainNotEq(v: Item) returns (removed: nat)
      requires Valid()
      modifies this`pages
      ensures Bounded(pages) && Elements() == RemAll(old(Elements()), v)
      ensures removed == |old(Elements())| - |Elements()|
    {
      hide Flatten, RemAll;
      ghost var start := pages;
      removed := 0;
      FlattenNone();
      RemAllNone(v);
      for i := 0 to |pages|
        invariant |pages| == |start| && Bounded(pages) && pages[i..] == start[i..]
        invariant Flatten(pages[..i]) == RemAll(Flatten(start[..i]), v)
        invariant removed == |Flatten(start[..i])| - |Flatten(pages[..i])|
      {
        var page := pages[i];
        assert page == start[i..][0] == start[i];
        var kept := RemAll(page, v);
        RemAllSize(page, v);
        Around(start, i);
        RemAllConcat(Flatten(start[..i]), page, v);
        removed := removed + (|page| - |kept|);
        pages := pages[i := kept];
        Around(pages, i);
      }
      assert pages[..|pages|] == pages && start[..|start|] == start;
    }

    /** Removes at most `count` occurrences, from the head. */
    method RemoveHead(count: nat, v: Item) returns (removed: nat)
      requires Valid()
      modifies this`pages
      ensures Bounded(pages) && Elements() == RemFirst(old(Elements()), count, v)
      ensures removed == |old(Elements())| - |Elements()|
    {
      hide Flatten, RemFirst;
      ghost var start := pages;
      var quota := count;
      removed := 0;
      FlattenNone();
      RemNone(count, v);
      var i := 0;
      while i < |pages| && quota > 0
        invariant i <= |pages| == |start| && Bounded(pages) && pages[i..] == start[i..]
        invariant Flatten(pages[..i]) == RemFirst(Flatten(start[..i]), count, v)
        invariant removed == |Flatten(start[..i])| - |Flatten(pages[..i])|
        invariant quota + removed == count
      {
        var page := pages[i];
        assert page == start[i..][0] == start[i];
        var kept, r := RemoveFromPageHead(page, quota, v);
        Around(start, i);
        RemFirstConcat(Flatten(start[..i]), page, count, v);
        quota := quota - r;
        removed := removed + r;
        pages := pages[i := kept];
        Around(pages, i);
        i := i + 1;
      }
      FlattenConcat(start[..i], start[i..]);
      FlattenConcat(pages[..i], pages[i..]);
      assert pages[..i] + pages[i..] == pages && start[..i] + start[i..] == start;
      RemFirstConcat(Flatten(start[..i]), Flatten(start[i..]), count, v);
      RemFirstZero(Flatten(start[i..]), v);
      RemNone(quota, v);
    }

    /** Removes at most `count` occurrences, from the tail. */
    method RemoveTail(count: nat, v: Item) returns (removed: nat)
      requires Valid()
      modifies this`pages
      ensures Bounded(pages) && Elements() == RemLast(old(Elements()), count, v)
      ensures removed == |old(Elements())| - |Elements()|
    {
      hide Flatten, RemLast;
      ghost var start := pages;
      var quota := count;
      removed := 0;
      FlattenNone();
      RemNone(count, v);
      var i := |pages|;
      assert pages[i..] == [];
      while i > 0 && quota > 0
        invariant 0 <= i <= |pages| == |start| && Bounded(pages) && pages[..i] == start[..i]
        invariant Flatten(pages[i..]) == RemLast(Flatten(start[i..]), count, v)
        invariant removed == |Flatten(start[i..])| - |Flatten(pages[i..])|
        invariant quota + removed == count
      {
        i := i - 1;
        var page := pages[i];
        assert page == start[..i + 1][i] == start[i];
        var kept, r := RemoveFromPageTail(page, quota, v);
        FlattenFrom(start, i);
        RemLastConcat(page, Flatten(start[i + 1..]), count, v);
        quota := quota - r;
        removed := removed + r;
        assert pages[..i] == pages[..i + 1][..i] && start[..i] == start[..i + 1][..i];
        pages := pages[i := kept];
        FlattenFrom(pages, i);
      }
      FlattenConcat(start[..i], start[i..]);
      FlattenConcat(pages[..i], pages[i..]);
      assert pages[..i] + pages[i..] == pages && start[..i] + start[i..] == start;
      RemLastConcat(Flatten(start[..i]), Flatten(start[i..]), count, v);
      RemLastNothing(Flatten(start[..i]), 0, v);
      RemNone(quota, v);
    }

    method LRem(count: int, v: Item) returns (removed: nat)
      requires Valid()
      modifies this
      ensures Valid() && Elements() == Removed(old(Elements()), count, v)
      ensures removed == |old(Elements())| - |Elements()|
    {
      hide Flatten, RemAll, RemFirst, RemLast;
      if len == 0 {
        RemNone(if count < 0 then -count else count, v);
        RemAllNone(v);
        return 0;
      }
      if count == 0 {
        removed := RetainNotEq(v);
      } else if count > 0 {
        removed := RemoveHead(count, v);
      } else if -count >= len {
        RemLastAll(Elements(), -count, v);
        removed := RetainNotEq(v);
      } else {
        removed := RemoveTail(-count, v);
      }
      len := len - removed;
      Reclaim();
    }

    // ----- Inserting and finding -------------------------------------------

    /** Finds the first place that holds a value. */
    method Find(v: Item) returns (r: Option<(nat, nat)>)
      requires Valid()
      ensures r.Some? <==> IndexOf(Elements(), v) < |Elements()|
      ensures r.Some? ==>
                var (pi, local) := r.value;
                pi < |pages| && local < |pages[pi]| && Global(pages, pi, local) == IndexOf(Elements(), v)
    {
      hide Flatten, IndexOf;
      FlattenNone();
      for pi := 0 to |pages|
        invariant v !in Flatten(pages[..pi])
      {
        Around(pages, pi);
        for local := 0 to |pages[pi]|
          invariant v !in pages[pi][..local]
        {
          if pages[pi][local] == v {
            FirstHere(Flatten(pages[..pi]), pages[pi], local, Flatten(pages[pi + 1..]), v);
            return Some((pi, local));
          }
        }
        assert pages[pi][..|pages[pi]|] == pages[pi];
      }
      assert pages[..|pages|] == pages;
      assert IndexOf(Elements(), v) == |Elements()|;
      r := None;
    }

    /** LINSERT: the new length, or -1 when the pivot is not there. */
    method LInsert(pivot: Item, v: Item, after: bool) returns (r: int)
      requires Valid()
      modifies this
      ensures Valid()
      ensures var before := old(Elements()); var i := IndexOf(before, pivot);
              var at := if after then i + 1 else i;
              if i < |before| then r == |before| + 1 && Elements() == before[..at] + [v] + before[at..]
              else r == -1 && Elements() == before
    {
      hide Flatten, IndexOf;
      var place := Find(pivot);
      if place.None? {
        return -1;
      }
      var (pi, local) := place.value;
      InsertIntoPage(pi, if after then local + 1 else local, v);
      r := len;
    }

    /** LPOS. */
    method LPos(v: Item, rank: int, count: Option<nat>, maxlen: nat) returns (r: seq<int>)
      requires Valid()
      ensures r == Positions(Elements(), v, rank, count, maxlen)
    {
      hide Flatten, Hits, Pick, Flipped, Reverse;
      if rank == 0 || len == 0 {
        PositionsNone(v, rank, count, maxlen);
        return [];
      }
      var window := Window(len, maxlen);
      var it := SlicesOf(0, len);
      ghost var all := Elements();
      assert all[0..|all|] == all;
      if rank > 0 {
        r := ScanFront(it, all, window, v, rank - 1, Wanted(count));
      } else {
        r := ScanBack(it, all, len, window, v, -rank - 1, Wanted(count));
      }
    }
  }

  /** Scans a window from the front for matches, skipping some and stopping when there are enough. */
  method ScanFront(it: Slices, ghost all: seq<Item>, window: nat, v: Item, skip: nat, limit: Option<nat>)
    returns (r: seq<nat>)
    requires it.Valid() && it.Rest() == all && window <= |all|
    requires limit.Some? ==> limit.value > 0
    modifies it
    ensures r == Pick(Hits(all, v, window), skip, limit)
  {
    hide Hits, Pick, Flatten, Sound, Inside, At;
    r := [];
    var toSkip := skip;
    PickNothing(all, v, skip);
    for idx := 0 to window
      invariant it.Valid() && it.Rest() == all[idx..]
      invariant r == Pick(Hits(all, v, idx), skip, None) && toSkip == Max(skip - |Hits(all, v, idx)|, 0)
      invariant limit.Some? ==> |r| < limit.value
    {
      var item := it.Next();
      PickStep(all, v, idx, skip);
      if item.value == v {
        if toSkip > 0 {
          toSkip := toSkip - 1;
        } else {
          r := r + [idx];
          if limit.Some? && |r| >= limit.value {
            PickEnough(all, v, idx + 1, window, skip, limit.value);
            return;
          }
        }
      }
    }
    PickShort(Hits(all, v, window), skip, limit);
  }

  /** The same from the back; positions still count from the front. */
  method ScanBack(it: Slices, ghost all: seq<Item>, len: nat, window: nat, v: Item, skip: nat, limit: Option<nat>)
    returns (r: seq<int>)
    requires it.Valid() && it.Rest() == all && window <= |all| == len
    requires limit.Some? ==> limit.value > 0
    modifies it
    ensures r == Flipped(Pick(Hits(Reverse(all), v, window), skip, limit), len)
  {
    hide Reverse, Hits, Pick, Flipped, Flatten, Sound, Inside, At;
    r := [];
    var toSkip := skip;
    ghost var mirror := Reverse(all);
    ghost var picked: seq<nat> := [];
    PickNothing(mirror, v, skip);
    FlippedMore([], 0, len);
    for offset := 0 to window
      invariant it.Valid() && it.Rest() == all[..len - offset]
      invariant picked == Pick(Hits(mirror, v, offset), skip, None) && r == Flipped(picked, len)
      invariant toSkip == Max(skip - |Hits(mirror, v, offset)|, 0)
      invariant limit.Some? ==> |r| < limit.value
    {
      LastOf(all, offset);
      var item := it.NextBack();
      PickStep(mirror, v, offset, skip);
      if item.value == v {
        if toSkip > 0 {
          toSkip := toSkip - 1;
        } else {
          FlippedMore(picked, offset, len);
          r := r + [len - 1 - offset];
          picked := picked + [offset];
          if limit.Some? && |r| >= limit.value {
            PickEnough(mirror, v, offset + 1, window, skip, limit.value);
            return;
          }
        }
      }
    }
    PickShort(Hits(mirror, v, window), skip, limit);
  }

  /** What is left after some items are taken off the back. */
  lemma {:induction false} LastOf(s: seq<Item>, taken: nat)
    requires taken < |s|
    ensures var left := s[..|s| - taken];
            left[|left| - 1] == Reverse(s)[taken] && left[..|left| - 1] == s[..|s| - taken - 1]
  {
  }

  lemma {:induction false} PositionsNone(v: Item, rank: int, count: Option<nat>, maxlen: nat)
    ensures Positions([], v, rank, count, maxlen) == []
  {
  }

  lemma {:induction false} FlippedMore(hits: seq<nat>, at: nat, len: nat)
    ensures Flipped([], len) == []
    ensures Flipped(hits + [at], len) == Flipped(hits, len) + [len - 1 - at]
  {
    assert (hits + [at])[..|hits|] == hits;
  }

  /** One more position examined from the tail. */
  lemma {:induction false} MaskStep(page: Page, local: nat, mask: seq<bool>, quota: nat, v: Item)
    requires local < |page| <= |mask|
    requires Kept(page[local + 1..], mask[local + 1..]) == RemLast(page[local + 1..], quota, v)
    requires var taken := |page| - local - 1 - |RemLast(page[local + 1..], quota, v)|;
             taken < quota && mask[local] == (page[local] == v)
    ensures Kept(page[local..], mask[local..]) == RemLast(page[local..], quota, v)
    ensures |RemLast(page[local..], quota, v)| ==
            |RemLast(page[local + 1..], quota, v)| + (if page[local] == v then 0 else 1)
  {
    var rest := page[local + 1..];
    assert page[local..] == [page[local]] + rest;
    RemLastConcat([page[local]], rest, quota, v);
    assert page[local..][1..] == rest;
    assert mask[local..][1..] == mask[local + 1..];
  }

  /** Once the allowance is used up the rest of the page stays. */
  lemma {:induction false} MaskDone(page: Page, local: nat, mask: seq<bool>, quota: nat, v: Item)
    requires local <= |page| <= |mask|
    requires forall k :: 0 <= k < local ==> !mask[k]
    requires Kept(page[local..], mask[local..]) == RemLast(page[local..], quota, v)
    requires local == 0 || |page| - local - |RemLast(page[local..], quota, v)| == quota
    ensures Kept(page, mask) == RemLast(page, quota, v)
    ensures |RemLast(page, quota, v)| == local + |RemLast(page[local..], quota, v)|
  {
    var front, back := page[..local], page[local..];
    assert page == front + back;
    KeptConcat(front, back, mask);
    KeptAll(front, mask);
    RemLastConcat(front, back, quota, v);
    RemLastNothing(front, 0, v);
  }

  lemma {:induction false} RemLastNothing(s: seq<Item>, n: nat, v: Item)
    ensures |RemLast(s, n, v)| == |s| ==> RemLast(s, n, v) == s
    decreases |s|
  {
    if s != [] {
      RemLastNothing(s[..|s| - 1], n, v);
    }
  }

  lemma {:induction false} RemNone(n: nat, v: Item)
    ensures RemFirst([], n, v) == [] && RemLast([], n, v) == []
  {
  }

  lemma {:induction false} RemAllNone(v: Item)
    ensures RemAll([], v) == []
  {
  }

  lemma {:induction false} RemAllSize(s: seq<Item>, v: Item)
    ensures |RemAll(s, v)| <= |s|
  {
    if s != [] {
      RemAllSize(s[1..], v);
    }
  }

  lemma {:induction false} RemFirstZero(s: seq<Item>, v: Item)
    ensures RemFirst(s, 0, v) == s
  {
    if s != [] {
      RemFirstZero(s[1..], v);
    }
  }

  lemma {:induction false} FlattenFrom(pages: seq<Page>, i: nat)
    requires i < |pages|
    ensures Flatten(pages[i..]) == pages[i] + Flatten(pages[i + 1..])
  {
    assert pages[i..][1..] == pages[i + 1..];
  }

  lemma {:induction false} FirstHere(before: seq<Item>, page: Page, local: nat, after: seq<Item>, v: Item)
    requires local < |page| && page[local] == v && v !in before && v !in page[..local]
    ensures IndexOf(before + page + after, v) == |before| + local
  {
    var all, at := before + page + after, |before| + local;
    hide IndexOf;
    assert all[at] == v;
    forall i | 0 <= i < at
      ensures all[i] != v
    {
      if i < |before| {
        assert all[i] == before[i];
      } else {
        assert all[i] == page[..local][i - |before|];
      }
    }
  }
}
