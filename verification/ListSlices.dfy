/** A double-ended cursor over a range of the list. */
module ListSlices {
  import opened Common
  import opened ListPages

  type Place = (nat, nat)

  /** A place inside a page. */
  ghost predicate Inside(pages: seq<Page>, p: Place) {
    p.0 < |pages| && p.1 < |pages[p.0]|
  }

  ghost function At(pages: seq<Page>, p: Place): nat
    requires Inside(pages, p)
  {
    Global(pages, p.0, p.1)
  }

  class Slices {
    var pages: seq<Page>
    var front: Place
    var back: Place
    var remaining: nat

    ghost predicate Valid()
      reads this
    {
      && Sound(pages)
      && (remaining > 0 ==>
            Inside(pages, front) && Inside(pages, back) && At(pages, back) == At(pages, front) + remaining - 1)
    }

    /** The items still to come. */
    ghost function Rest(): (r: seq<Item>)
      reads this
      requires Valid()
      ensures |r| == remaining
    {
      if remaining == 0 then []
      else
        ItemAt(pages, front.0, front.1);
        ItemAt(pages, back.0, back.1);
        Flatten(pages)[At(pages, front)..At(pages, front) + remaining]
    }

    constructor (pages: seq<Page>, front: Place, back: Place, remaining: nat)
      requires Sound(pages)
      requires remaining > 0 ==>
                 Inside(pages, front) && Inside(pages, back) && At(pages, back) == At(pages, front) + remaining - 1
      ensures Valid() && this.pages == pages && this.front == front && this.remaining == remaining
    {
      this.pages, this.front, this.back, this.remaining := pages, front, back, remaining;
    }

    /** Steps the front cursor, into the next page when this one is used up. */
    method AdvanceFront()
      requires Sound(pages) && Inside(pages, front) && At(pages, front) + 1 < |Flatten(pages)|
      modifies this`front
      ensures Inside(pages, front) && At(pages, front) == old(At(pages, front)) + 1
    {
      hide Flatten;
      Around(pages, front.0);
      if front.0 + 1 == |pages| {
        Ends(pages);
      }
      front := (front.0, front.1 + 1);
      if front.1 >= |pages[front.0]| {
        front := (front.0 + 1, 0);
      }
    }

    method AdvanceBack()
      requires Sound(pages) && Inside(pages, back) && At(pages, back) > 0
      modifies this`back
      ensures Inside(pages, back) && At(pages, back) == old(At(pages, back)) - 1
    {
      hide Flatten;
      Ends(pages);
      if back.1 == 0 {
        var pi := back.0 - 1;
        Around(pages, pi);
        back := (pi, |pages[pi]| - 1);
      } else {
        back := (back.0, back.1 - 1);
      }
    }

    method Next() returns (r: Option<Item>)
      requires Valid()
      modifies this
      ensures Valid() && pages == old(pages)
      ensures if old(Rest()) == [] then r == None && Rest() == []
              else r == Some(old(Rest())[0]) && Rest() == old(Rest())[1..]
    {
      hide Flatten;
      if remaining == 0 {
        return None;
      }
      ItemAt(pages, front.0, front.1);
      ItemAt(pages, back.0, back.1);
      r := Some(pages[front.0][front.1]);
      remaining := remaining - 1;
      if remaining > 0 {
        AdvanceFront();
      }
    }

    method NextBack() returns (r: Option<Item>)
      requires Valid()
      modifies this
      ensures Valid() && pages == old(pages)
      ensures var before := old(Rest());
              if before == [] then r == None && Rest() == []
              else r == Some(before[|before| - 1]) && Rest() == before[..|before| - 1]
    {
      hide Flatten;
      if remaining == 0 {
        return None;
      }
      ItemAt(pages, front.0, front.1);
      ItemAt(pages, back.0, back.1);
      r := Some(pages[back.0][back.1]);
      ghost var all, lo := Flatten(pages), At(pages, front);
      assert all[lo..lo + remaining][..remaining - 1] == all[lo..lo + remaining - 1];
      remaining := remaining - 1;
      if remaining > 0 {
        AdvanceBack();
      }
    }

    /** Everything that is left, from the front. */
    method ReadAll() returns (r: seq<Item>)
      requires Valid()
      modifies this
      ensures Valid() && pages == old(pages) && r == old(Rest()) && Rest() == []
    {
      hide Flatten, Valid, Rest;
      r := [];
      ghost var all := Rest();
      ReadOn(r, all);
      var next := Next();
      while next.Some?
        invariant Valid() && pages == old(pages)
        invariant if next.Some? then r + [next.value] + Rest() == all else r == all && Rest() == []
        decreases if next.Some? then 1 + |Rest()| else 0
      {
        ReadOn(r + [next.value], Rest());
        r := r + [next.value];
        next := Next();
      }
    }

    /**
      Any interleaving of the two ends: what came from the front, what is left and
      what came from the back, turned round, make up the range, each item once.
     */
    method Consume(fromFront: seq<bool>) returns (fronts: seq<Item>, backs: seq<Item>)
      requires Valid()
      modifies this
      ensures Valid() && fronts + Rest() + Reverse(backs) == old(Rest())
      ensures |fronts| + |backs| == Min(|fromFront|, |old(Rest())|)
    {
      hide Flatten, Reverse, Valid, Rest;
      ReverseNone<Item>();
      fronts, backs := [], [];
      for i := 0 to |fromFront|
        invariant Valid() && fronts + Rest() + Reverse(backs) == old(Rest())
        invariant |fronts| + |backs| == Min(i, |old(Rest())|)
      {
        if remaining > 0 {
          TookEnd(fronts, Rest(), backs);
        }
        if fromFront[i] {
          var r := Next();
          fronts := if r.Some? then fronts + [r.value] else fronts;
        } else {
          var r := NextBack();
          backs := if r.Some? then backs + [r.value] else backs;
        }
      }
    }
  }
}
