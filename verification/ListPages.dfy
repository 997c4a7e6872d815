/**
  Pages: a list is kept as a directory of small pages, and means their
  concatenation.
 */
module ListPages {
  import opened Common

  /** Stored values; only their equality matters. */
  type Item(==, !new)

  type Page = seq<Item>

  const CAPACITY := 64
  const HALF := CAPACITY / 2

  ghost function Flatten(pages: seq<Page>): seq<Item> {
    if pages == [] then [] else pages[0] + Flatten(pages[1..])
  }

  /** No page is over its capacity. */
  ghost predicate Bounded(pages: seq<Page>) {
    forall i :: 0 <= i < |pages| ==> |pages[i]| <= CAPACITY
  }

  /** No page is empty or over its capacity. */
  ghost predicate Sound(pages: seq<Page>) {
    forall i :: 0 <= i < |pages| ==> 1 <= |pages[i]| <= CAPACITY
  }

  /** The index in the whole list of a place in a page. */
  ghost function Global(pages: seq<Page>, pi: nat, local: nat): nat
    requires pi <= |pages|
  {
    |Flatten(pages[..pi])| + local
  }

  lemma {:induction false} FlattenConcat(a: seq<Page>, b: seq<Page>)
    ensures Flatten(a + b) == Flatten(a) + Flatten(b)
  {
    if a == [] {
      assert a + b == b;
    } else {
      FlattenConcat(a[1..], b);
      assert (a + b)[1..] == a[1..] + b;
      Assoc(a[0], Flatten(a[1..]), Flatten(b));
    }
  }

  lemma {:induction false} FlattenOne(page: Page)
    ensures Flatten([page]) == page
  {
    assert [page][1..] == [];
  }

  lemma {:induction false} FlattenNone()
    ensures Flatten([]) == []
  {
  }

  lemma {:induction false} FlattenTwo(left: Page, right: Page)
    ensures Flatten([left, right]) == left + right
  {
    assert [left, right] == [left] + [right];
    FlattenConcat([left], [right]);
    FlattenOne(left);
    FlattenOne(right);
  }

  /** The list seen around one page. */
  lemma {:induction false} Around(pages: seq<Page>, pi: nat)
    requires pi < |pages|
    ensures Flatten(pages) == Flatten(pages[..pi]) + pages[pi] + Flatten(pages[pi + 1..])
    ensures Flatten(pages[..pi + 1]) == Flatten(pages[..pi]) + pages[pi]
  {
    assert pages[..pi + 1] == pages[..pi] + [pages[pi]];
    FlattenConcat(pages[..pi], [pages[pi]]);
    FlattenOne(pages[pi]);
    assert pages == pages[..pi + 1] + pages[pi + 1..];
    FlattenConcat(pages[..pi + 1], pages[pi + 1..]);
  }

  /** Replacing one page by any pages. */
  lemma {:induction false} Splice(pages: seq<Page>, pi: nat, parts: seq<Page>)
    requires pi < |pages|
    ensures Flatten(pages[..pi] + parts + pages[pi + 1..])
            == Flatten(pages[..pi]) + Flatten(parts) + Flatten(pages[pi + 1..])
  {
    FlattenConcat(pages[..pi] + parts, pages[pi + 1..]);
    FlattenConcat(pages[..pi], parts);
  }

  /** Every index of the list has a place, and a place determines its item. */
  lemma {:induction false} ItemAt(pages: seq<Page>, pi: nat, local: nat)
    requires pi < |pages| && local < |pages[pi]|
    ensures Global(pages, pi, local) < |Flatten(pages)|
    ensures Flatten(pages)[Global(pages, pi, local)] == pages[pi][local]
  {
    Around(pages, pi);
  }

  /** A list without pages is empty, and a sound one without items has no pages. */
  lemma {:induction false} EmptyList(pages: seq<Page>)
    requires Sound(pages)
    ensures |pages| == 0 <==> |Flatten(pages)| == 0
  {
  }

  lemma {:induction false} EmptyFlatten(pages: seq<Page>)
    ensures |Flatten(pages)| > 0 ==> |pages| > 0
  {
  }

  /** Replacing a run of items inside one page is replacing it in the list. */
  lemma {:induction false} Edit(pages: seq<Page>, pi: nat, lo: nat, hi: nat, mid: Page, parts: seq<Page>)
    requires pi < |pages| && lo <= hi <= |pages[pi]|
    requires Flatten(parts) == pages[pi][..lo] + mid + pages[pi][hi..]
    ensures var all, at := Flatten(pages), Global(pages, pi, 0);
            && at + hi <= |all|
            && Flatten(pages[..pi] + parts + pages[pi + 1..]) == all[..at + lo] + mid + all[at + hi..]
  {
    Around(pages, pi);
    Splice(pages, pi, parts);
    hide Flatten;
    Replaced(Flatten(pages[..pi]), pages[pi], Flatten(pages[pi + 1..]), lo, hi, mid);
  }

  lemma {:induction false} Replaced(before: Page, page: Page, after: Page, lo: nat, hi: nat, mid: Page)
    requires lo <= hi <= |page|
    ensures
      var all, at := before + page + after, |before|;
      && at + hi <= |all|
      && before + (page[..lo] + mid + page[hi..]) + after == all[..at + lo] + mid + all[at + hi..]
  {
    CutInside(before, page, after, lo, hi);
    Regroup(before, page[..lo], mid, page[hi..], after);
  }

  lemma {:induction false} CutInside(before: Page, page: Page, after: Page, lo: nat, hi: nat)
    requires lo <= hi <= |page|
    ensures (before + page + after)[..|before| + lo] == before + page[..lo]
    ensures (before + page + after)[|before| + hi..] == page[hi..] + after
  {
  }

  lemma {:induction false} Regroup(a: Page, b: Page, c: Page, d: Page, e: Page)
    ensures a + (b + c + d) + e == (a + b) + c + (d + e)
  {
  }

  /** The same with the page updated in place. */
  lemma {:induction false} EditPage(pages: seq<Page>, pi: nat, lo: nat, hi: nat, mid: Page, page: Page)
    requires pi < |pages| && lo <= hi <= |pages[pi]|
    requires page == pages[pi][..lo] + mid + pages[pi][hi..]
    ensures var all, at := Flatten(pages), Global(pages, pi, 0);
            && at + hi <= |all|
            && Flatten(pages[pi := page]) == all[..at + lo] + mid + all[at + hi..]
  {
    FlattenOne(page);
    Edit(pages, pi, lo, hi, mid, [page]);
    assert pages[pi := page] == pages[..pi] + [page] + pages[pi + 1..];
  }

  /** The same with the page emptied and dropped. */
  lemma {:induction false} EditAway(pages: seq<Page>, pi: nat)
    requires pi < |pages|
    ensures var all, at := Flatten(pages), Global(pages, pi, 0);
            && at + |pages[pi]| <= |all|
            && Flatten(pages[..pi] + pages[pi + 1..]) == all[..at] + all[at + |pages[pi]|..]
  {
    Around(pages, pi);
    FlattenConcat(pages[..pi], pages[pi + 1..]);
  }

  /** Places at the two ends of the list. */
  lemma {:induction false} Ends(pages: seq<Page>)
    ensures Global(pages, 0, 0) == 0
    ensures |pages| > 0 ==>
              Global(pages, |pages| - 1, 0) + |pages[|pages| - 1]| == |Flatten(pages)|
  {
    if |pages| > 0 {
      Around(pages, |pages| - 1);
      assert pages[|pages|..] == [];
    }
  }
}
