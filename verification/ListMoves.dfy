/** Draining a region of a list from both ends, and moving items between lists. */
module ListMoves {
  import opened Common
  import opened ListPages
  import opened ListSpec
  import opened PagedList

  /** Without its item `at`, a sequence keeps what surrounds a stretch that began there. */
  lemma {:induction false} WithoutFirst<T>(s: seq<T>, at: nat, n: nat)
    requires 0 < n && at + n <= |s|
    ensures
      var t := s[..at] + s[at + 1..];
      && t[..at] == s[..at] && t[at..at + n - 1] == s[at..at + n][1..] && t[at + n - 1..] == s[at + n..]
      && s[at..at + n][0] == s[at] && (at == 0 ==> t == s[1..])
  {
  }

  /** The same for the last item of the stretch. */
  lemma {:induction false} WithoutLast<T>(s: seq<T>, at: nat, n: nat)
    requires 0 < n && at + n <= |s|
    ensures
      var last := at + n - 1;
      var t := s[..last] + s[last + 1..];
      && t[..at] == s[..at] && t[at..last] == s[at..at + n][..n - 1] && t[last..] == s[at + n..]
      && s[at..at + n][n - 1] == s[last] && (at + n == |s| ==> t == s[..last])
  {
  }

  /** Pops the items of a region, fixed when the drain is made, from either end of it. */
  class Drain {
    const list: ListObject
    const start: nat
    var remaining: nat

    ghost predicate Valid()
      reads this, list
    {
      list.Valid() && start + remaining <= list.len
    }

    ghost function Before(): seq<Item>
      reads this, list
      requires Valid()
    {
      list.Elements()[..start]
    }

    /** The items still to be popped. */
    ghost function Region(): (r: seq<Item>)
      reads this, list
      requires Valid()
      ensures |r| == remaining
    {
      list.Elements()[start..start + remaining]
    }

    ghost function After(): seq<Item>
      reads this, list
      requires Valid()
    {
      list.Elements()[start + remaining..]
    }

    lemma Parts()
      requires Valid()
      ensures list.Elements() == Before() + Region() + After()
    {
    }

    constructor (list: ListObject, start: nat, remaining: nat)
      requires list.Valid() && start + remaining <= list.len
      ensures Valid() && this.list == list && this.start == start && this.remaining == remaining
    {
      this.list, this.start, this.remaining := list, start, remaining;
    }

    method Next() returns (r: Option<Item>)
      requires Valid()
      modifies this, list
      ensures Valid() && Before() == old(Before()) && After() == old(After())
      ensures if old(Region()) == [] then r == None && Region() == []
              else r == Some(old(Region())[0]) && Region() == old(Region())[1..]
    {
      hide Flatten, Sound;
      if remaining == 0 {
        return None;
      }
      WithoutFirst(list.Elements(), start, remaining);
      if start == 0 {
        r := list.PopFrontInner();
      } else {
        r := list.RemoveAt(start);
      }
      remaining := remaining - 1;
    }

    method NextBack() returns (r: Option<Item>)
      requires Valid()
      modifies this, list
      ensures Valid() && Before() == old(Before()) && After() == old(After())
      ensures var region := old(Region());
              if region == [] then r == None && Region() == []
              else r == Some(region[|region| - 1]) && Region() == region[..|region| - 1]
    {
      hide Flatten, Sound;
      if remaining == 0 {
        return None;
      }
      var idx := start + remaining - 1;
      WithoutLast(list.Elements(), start, remaining);
      if idx + 1 == list.len {
        r := list.PopBackInner();
      } else {
        r := list.RemoveAt(idx);
      }
      remaining := remaining - 1;
    }

    /**
      Any interleaving of the two ends pops the region and nothing else: the list
      is what surrounds the region with whatever of it is left in between.
     */
    method Consume(fromFront: seq<bool>) returns (fronts: seq<Item>, backs: seq<Item>)
      requires Valid()
      modifies this, list
      ensures Valid() && fronts + Region() + Reverse(backs) == old(Region())
      ensures list.Elements() == old(Before()) + Region() + old(After())
      ensures |fronts| + |backs| == Min(|fromFront|, |old(Region())|)
    {
      hide Flatten, Reverse;
      ReverseNone<Item>();
      fronts, backs := [], [];
      for i := 0 to |fromFront|
        invariant Valid() && fronts + Region() + Reverse(backs) == old(Region())
        invariant Before() == old(Before()) && After() == old(After())
        invariant |fronts| + |backs| == Min(i, |old(Region())|)
      {
        if remaining > 0 {
          TookEnd(fronts, Region(), backs);
        }
        if fromFront[i] {
          var r := Next();
          fronts := if r.Some? then fronts + [r.value] else fronts;
        } else {
          var r := NextBack();
          backs := if r.Some? then backs + [r.value] else backs;
        }
      }
      Parts();
    }
  }

  /** A drain at one end of the list takes the list's own items off that end. */
  method TakeEnd(drain: Drain, fromLeft: bool) returns (v: Item)
    requires drain.Valid() && drain.remaining > 0
    requires if fromLeft then drain.start == 0 else drain.start + drain.remaining == drain.list.len
    modifies drain, drain.list
    ensures drain.Valid() && drain.remaining == old(drain.remaining) - 1
    ensures !fromLeft ==> drain.start + drain.remaining == drain.list.len
    ensures var all := old(drain.list.Elements());
            && |all| > 0 && v == (if fromLeft then all[0] else all[|all| - 1])
            && drain.list.Elements() == if fromLeft then all[1..] else all[..|all| - 1]
  {
    hide Flatten;
    drain.Parts();
    var r: Option<Item>;
    if fromLeft {
      r := drain.Next();
    } else {
      r := drain.NextBack();
    }
    drain.Parts();
    v := r.value;
  }

  method DrainLeft(list: ListObject, count: nat) returns (d: Drain)
    requires list.Valid()
    ensures fresh(d) && d.Valid() && d.list == list && d.start == 0 && d.remaining == Min(count, list.len)
  {
    d := new Drain(list, 0, Min(count, list.len));
  }

  method DrainRight(list: ListObject, count: nat) returns (d: Drain)
    requires list.Valid()
    ensures fresh(d) && d.Valid() && d.list == list
    ensures d.remaining == Min(count, list.len) && d.start + d.remaining == list.len
  {
    var remaining := Min(count, list.len);
    d := new Drain(list, list.len - remaining, remaining);
  }

  /** LPUSH: the last value pushed ends up first. */
  method LPush(list: ListObject, values: seq<Item>) returns (len: nat)
    requires list.Valid()
    modifies list
    ensures list.Valid() && list.Elements() == Reverse(values) + old(list.Elements()) && len == |list.Elements()|
  {
    hide Flatten, Reverse;
    ReverseNone<Item>();
    for i := 0 to |values|
      invariant list.Valid() && list.Elements() == Reverse(values[..i]) + old(list.Elements())
    {
      assert values[..i + 1] == values[..i] + [values[i]];
      ReverseConcat(values[..i], [values[i]]);
      ReverseOne(values[i]);
      list.PushFrontInner(values[i]);
    }
    assert values[..|values|] == values;
    len := list.len;
  }

  /** RPUSH. */
  method RPush(list: ListObject, values: seq<Item>) returns (len: nat)
    requires list.Valid()
    modifies list
    ensures list.Valid() && list.Elements() == old(list.Elements()) + values && len == |list.Elements()|
  {
    hide Flatten;
    for i := 0 to |values|
      invariant list.Valid() && list.Elements() == old(list.Elements()) + values[..i]
    {
      list.PushBackInner(values[i]);
    }
    assert values[..|values|] == values;
    len := list.len;
  }

  /** LPOP with a count. */
  method LPop(list: ListObject, count: nat) returns (r: seq<Item>)
    requires list.Valid()
    modifies list
    ensures list.Valid()
    ensures var n := Min(count, |old(list.Elements())|);
            r == old(list.Elements())[..n] && list.Elements() == old(list.Elements())[n..]
  {
    hide Flatten;
    r := [];
    if count == 0 || list.len == 0 {
      return;
    }
    var drain := DrainLeft(list, count);
    ghost var before := list.Elements();
    while drain.remaining > 0
      invariant fresh(drain) && drain.list == list && drain.start == 0 && drain.Valid()
      invariant |r| + drain.remaining == Min(count, |before|)
      invariant r == before[..|r|] && list.Elements() == before[|r|..]
      decreases drain.remaining
    {
      var v := TakeEnd(drain, true);
      r := r + [v];
    }
  }

  /** RPOP with a count, in the order popped. */
  method RPop(list: ListObject, count: nat) returns (r: seq<Item>)
    requires list.Valid()
    modifies list
    ensures list.Valid()
    ensures var before := old(list.Elements()); var keep := |before| - Min(count, |before|);
            r == Reverse(before[keep..]) && list.Elements() == before[..keep]
  {
    hide Flatten, Reverse;
    r := [];
    ReverseNone<Item>();
    if count == 0 || list.len == 0 {
      assert list.Elements()[list.len..] == [];
      return;
    }
    var drain := DrainRight(list, count);
    ghost var before := list.Elements();
    assert before[|before|..] == [] && before[..|before|] == before;
    while drain.remaining > 0
      invariant fresh(drain) && drain.list == list && drain.Valid() && drain.start + drain.remaining == list.len
      invariant list.len <= |before| && list.Elements() == before[..list.len] && r == Reverse(before[list.len..])
      decreases drain.remaining
    {
      ReverseLonger(before, list.len);
      var v := TakeEnd(drain, false);
      r := r + [v];
    }
  }

  lemma {:induction false} ReverseLonger(s: seq<Item>, at: nat)
    requires 0 < at <= |s|
    ensures Reverse(s[at - 1..]) == Reverse(s[at..]) + [s[at - 1]]
    ensures s[..at][..at - 1] == s[..at - 1]
  {
    assert s[at - 1..][1..] == s[at..];
  }

  // ----- Moving ------------------------------------------------------------

  /** LMOVE between two lists. */
  method LMove(source: ListObject, destination: ListObject, fromLeft: bool, toLeft: bool) returns (r: Option<Item>)
    requires source != destination && source.Valid() && destination.Valid()
    modifies source, destination
    ensures source.Valid() && destination.Valid()
    ensures (source.Elements(), destination.Elements())
            == MoveOne(old(source.Elements()), old(destination.Elements()), fromLeft, toLeft)
    ensures r.Some? <==> old(source.Elements()) != []
    ensures r.Some? ==> multiset(source.Elements()) + multiset{r.value} == multiset(old(source.Elements()))
  {
    hide Flatten;
    ghost var before := source.Elements();
    if fromLeft {
      r := source.PopFrontInner();
      assert before != [] ==> before == [before[0]] + before[1..];
    } else {
      r := source.PopBackInner();
      assert before != [] ==> before == before[..|before| - 1] + [before[|before| - 1]];
    }
    if r.None? {
      return;
    }
    if toLeft {
      destination.PushFrontInner(r.value);
    } else {
      destination.PushBackInner(r.value);
    }
  }

  /** LMOVE from a list to itself; shows the item moved. */
  method Rotate(list: ListObject, fromLeft: bool, toLeft: bool) returns (r: Option<Item>)
    requires list.Valid()
    modifies list
    ensures list.Valid() && list.Elements() == Rotated(old(list.Elements()), fromLeft, toLeft)
    ensures r == if list.Elements() == [] then None
                 else if toLeft then Some(list.Elements()[0])
                 else Some(list.Elements()[|list.Elements()| - 1])
  {
    hide Flatten;
    if list.len == 0 {
      return None;
    }
    if fromLeft && !toLeft {
      var v := list.PopFrontInner();
      list.PushBackInner(v.value);
    } else if !fromLeft && toLeft {
      var v := list.PopBackInner();
      list.PushFrontInner(v.value);
    }
    EmptyList(list.pages);
    Ends(list.pages);
    var last := |list.pages| - 1;
    if toLeft {
      ItemAt(list.pages, 0, 0);
      r := Some(list.pages[0][0]);
    } else {
      ItemAt(list.pages, last, |list.pages[last]| - 1);
      r := Some(list.pages[last][|list.pages[last]| - 1]);
    }
  }

  /** Pops everything a drain has left, from one end, into another list. */
  method Pour(drain: Drain, destination: ListObject, fromLeft: bool, toLeft: bool)
    requires drain.Valid() && destination.Valid() && destination != drain.list
    requires if fromLeft then drain.start == 0 else drain.start + drain.remaining == drain.list.len
    modifies drain, drain.list, destination
    ensures drain.Valid() && destination.Valid()
    ensures (drain.list.Elements(), destination.Elements())
            == MoveTimes(old(drain.list.Elements()), old(destination.Elements()), old(drain.remaining),
                         fromLeft, toLeft)
  {
    hide Flatten;
    ghost var src, dst, n := drain.list.Elements(), destination.Elements(), drain.remaining;
    while drain.remaining > 0
      invariant drain.Valid() && destination.Valid() && drain.remaining <= n
      invariant if fromLeft then drain.start == 0 else drain.start + drain.remaining == drain.list.len
      invariant MoveTimes(src, dst, n, fromLeft, toLeft)
             == MoveTimes(drain.list.Elements(), destination.Elements(), drain.remaining, fromLeft, toLeft)
      decreases drain.remaining
    {
      var v := TakeEnd(drain, fromLeft);
      if toLeft {
        destination.PushFrontInner(v);
      } else {
        destination.PushBackInner(v);
      }
    }
  }

  /**
    Moves a number of items at once.  Between two lists this is LMOVE repeated that
    many times.  A list moved to itself is rotated at most once round, which is LMOVE
    repeated exactly under the condition of `OneTurnSuffices`.
   */
  method TransferTo(source: ListObject, destination: ListObject, count: nat, fromLeft: bool, toLeft: bool)
    returns (moved: nat)
    requires source.Valid() && destination.Valid()
    modifies source, destination
    ensures source.Valid() && destination.Valid() && moved == Min(count, |old(source.Elements())|)
    ensures source != destination ==>
              (source.Elements(), destination.Elements())
              == MoveTimes(old(source.Elements()), old(destination.Elements()), count, fromLeft, toLeft)
    ensures source == destination ==>
              source.Elements() == RotatedTimes(old(source.Elements()), moved, fromLeft, toLeft)
    ensures source == destination ==>
              var s := old(source.Elements());
              source.Elements() == RotatedTimes(s, count, fromLeft, toLeft) <==>
                fromLeft == toLeft || count <= |s| || TurnsIntoItself(s, if s == [] then 0 else count % |s|)
  {
    hide Flatten;
    MoveClamped(source.Elements(), destination.Elements(), count, fromLeft, toLeft);
    OneTurnSuffices(source.Elements(), count, fromLeft, toLeft);
    hide RotatedTimes, MoveTimes, TurnsIntoItself;
    moved := Min(count, source.len);
    if moved == 0 {
      return;
    }
    if source == destination {
      Spin(source, moved, fromLeft, toLeft);
    } else if fromLeft {
      var drain := DrainLeft(source, moved);
      Pour(drain, destination, fromLeft, toLeft);
    } else {
      var drain := DrainRight(source, moved);
      Pour(drain, destination, fromLeft, toLeft);
    }
  }

  method Spin(list: ListObject, n: nat, fromLeft: bool, toLeft: bool)
    requires list.Valid()
    modifies list
    ensures list.Valid() && list.Elements() == RotatedTimes(old(list.Elements()), n, fromLeft, toLeft)
  {
    hide Flatten;
    if fromLeft == toLeft {
      NotRotated(list.Elements(), n, fromLeft);
      return;
    }
    for i := 0 to n
      invariant list.Valid() && list.Elements() == RotatedTimes(old(list.Elements()), i, fromLeft, toLeft)
    {
      if fromLeft {
        var v := list.PopFrontInner();
        if v.Some? {
          list.PushBackInner(v.value);
        }
      } else {
        var v := list.PopBackInner();
        if v.Some? {
          list.PushFrontInner(v.value);
        }
      }
    }
  }
}
