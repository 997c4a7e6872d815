/**
  Which end of which collection each blocking command works on, item by item, and
  what it leaves behind.
 */
module StoreLaws {
  import opened Common
  import opened Provider

  /** Two stores differ at these keys only. */
  ghost predicate SameElsewhere(store: Store, after: Store, keys: set<Key>) {
    forall k :: k !in keys ==> (k in after <==> k in store) && (k in store ==> after[k] == store[k])
  }

  /** LPUSH puts the element first and RPUSH last; only a sorted set refuses it, and no other key is touched. */
  lemma {:induction false} PushEnds(store: Store, key: Key, value: Elem, dir: Direction)
    ensures Pushed(store, key, value, dir).None? <==> key in store && store[key].SortedSet?
    ensures Pushed(store, key, value, dir).Some? ==>
      var after := Pushed(store, key, value, dir).value;
      && key in after && after[key].List? && after[key].items != [] && SameElsewhere(store, after, {key})
      && after[key].items[if dir.Left? then 0 else |after[key].items| - 1] == value
      && (if dir.Left? then after[key].items[1..] else after[key].items[..|after[key].items| - 1])
         == (if key in store then store[key].items else [])
  {
  }

  /** What was pushed at an end is what a pop at that end gives back, and the store is as before. */
  lemma {:induction false} PushThenPop(store: Store, key: Key, value: Elem, dir: Direction)
    requires NoEmptyCollections(store) && Pushed(store, key, value, dir).Some?
    ensures
      var after := Pushed(store, key, value, dir).value;
      NoEmptyCollections(after) && TryPop(after, key, PopOne(dir), true) == Hit(Single(key, value), store)
  {
    var items := if key in store then store[key].items else [];
    assert key in store ==> items != [];
    hide TakeEnd, Settle, PutEnd, NoEmptyCollections;
    PushReaps(store, key, value, dir);
    PutThenTake(items, dir, value);
    SettledBack(store, key, items, List(PutEnd(items, dir, value)));
  }

  lemma {:induction false} PutThenTake<T>(s: seq<T>, dir: Direction, x: T)
    ensures |PutEnd(s, dir, x)| > 0 && TakeEnd(PutEnd(s, dir, x), dir, 1) == ([x], s)
  {
    TakeOne(PutEnd(s, dir, x), dir);
    hide TakeEnd;
    assert ([x] + s)[1..] == s && (s + [x])[..|s|] == s;
  }

  lemma {:induction false} SettledBack(store: Store, key: Key, items: seq<Elem>, c: Collection)
    requires if key in store then store[key] == List(items) && items != [] else items == []
    ensures Settle(store[key := c], key, List(items)) == store
  {
  }

  /** How many items a pop command takes at most. */
  function Allowance(command: Command, len: nat): nat {
    if command.PopMany? || command.PopManyScored? then Min(command.count, len) else Min(1, len)
  }

  /** Does the command pop at the front: the head of a list, the lowest scores of a sorted set? */
  predicate AtFront(command: Command) {
    ((command.PopOne? || command.PopMany?) && command.dir.Left?)
    || ((command.PopScored? || command.PopManyScored?) && !command.max)
  }

  /** The `i`-th item from the front or from the back. */
  function Nth<T>(s: seq<T>, front: bool, i: nat): T
    requires i < |s|
  {
    if front then s[i] else s[|s| - 1 - i]
  }

  function Cut<T>(s: seq<T>, front: bool, n: nat): seq<T>
    requires n <= |s|
  {
    if front then s[n..] else s[..|s| - n]
  }

  /** The `n` items nearest an end, nearest first. */
  function Nearest<T>(s: seq<T>, front: bool, n: nat): (r: seq<T>)
    requires n <= |s|
    ensures |r| == n && forall i :: 0 <= i < n ==> r[i] == Nth(s, front, i)
  {
    seq(n, i requires 0 <= i < n => Nth(s, front, i))
  }

  lemma {:induction false} TakenAt<T>(s: seq<T>, dir: Direction, n: nat)
    requires n <= |s|
    ensures
      var (taken, rest) := TakeEnd(s, dir, n);
      taken == Nearest(s, dir.Left?, n) && rest == Cut(s, dir.Left?, n)
  {
  }

  /**
    BLPOP, BRPOP and BLMPOP: the items nearest the end named, nearest first, as many as there are
    and are asked for; nothing is given when none are asked for, when the key is missing, or
    (to a waiter already queued) when it holds a sorted set.
   */
  lemma {:induction false} ListPopEnds(store: Store, key: Key, command: Command, failOnMismatch: bool)
    requires NoEmptyCollections(store) && (command.PopOne? || command.PopMany?)
    ensures
      var a := TryPop(store, key, command, failOnMismatch);
      if key !in store then a == Miss
      else if store[key].SortedSet? then a == if failOnMismatch then Hit(TypeMismatch, store) else Miss
      else
        var items := store[key].items;
        var n := Allowance(command, |items|);
        && (a.Miss? <==> n == 0)
        && (a.Hit? ==>
              && a.result == (if command.PopOne? then Single(key, Nth(items, AtFront(command), 0))
                              else Multi(key, Nearest(items, AtFront(command), n)))
              && SameElsewhere(store, a.after, {key})
              && (if n == |items| then key !in a.after
                  else key in a.after && a.after[key] == List(Cut(items, AtFront(command), n))))
  {
    hide SameElsewhere, Settle, TakeEnd, Nth, Nearest, Cut;
    if key in store && store[key].List? {
      ListPopHit(store, key, command, failOnMismatch);
      hide TryPop, NoEmptyCollections;
    }
  }

  lemma {:induction false} ListPopHit(store: Store, key: Key, command: Command, failOnMismatch: bool)
    requires NoEmptyCollections(store) && (command.PopOne? || command.PopMany?) && key in store && store[key].List?
    ensures
      var a, items := TryPop(store, key, command, failOnMismatch), store[key].items;
      var n := Allowance(command, |items|);
      && (a.Miss? <==> n == 0)
      && (a.Hit? ==>
            && a.result == (if command.PopOne? then Single(key, Nth(items, AtFront(command), 0))
                            else Multi(key, Nearest(items, AtFront(command), n)))
            && SameElsewhere(store, a.after, {key})
            && (if n == |items| then key !in a.after
                else key in a.after && a.after[key] == List(Cut(items, AtFront(command), n))))
  {
    var items := store[key].items;
    assert items != [];
    ListPopIs(store, key, command, failOnMismatch);
    hide NoEmptyCollections, SameElsewhere, Settle, TakeEnd, Nth, TryPop;
    var n := Allowance(command, |items|);
    assert command.dir.Left? == AtFront(command);
    TakenAt(items, command.dir, n);
    SettledAt(store, key, List(TakeEnd(items, command.dir, n).1));
  }

  lemma {:induction false} ListPopIs(store: Store, key: Key, command: Command, failOnMismatch: bool)
    requires NoEmptyCollections(store) && (command.PopOne? || command.PopMany?) && key in store && store[key].List?
    ensures
      var items := store[key].items;
      var (taken, rest) := TakeEnd(items, command.dir, Allowance(command, |items|));
      TryPop(store, key, command, failOnMismatch) ==
      if taken == [] then Miss
      else Hit(if command.PopOne? then Single(key, taken[0]) else Multi(key, taken), Settle(store, key, List(rest)))
  {
    var items := store[key].items;
    assert items != [];
    TakenAt(items, command.dir, Allowance(command, |items|));
    hide NoEmptyCollections, Settle, TakeEnd, Nth;
    match command {
      case PopOne(dir) =>
      case PopMany(dir, count) =>
    }
  }

  /** BZPOPMIN, BZPOPMAX and BZMPOP on members kept by increasing score. */
  lemma {:induction false} ScoredPopEnds(store: Store, key: Key, command: Command, failOnMismatch: bool)
    requires NoEmptyCollections(store) && (command.PopScored? || command.PopManyScored?)
    ensures
      var a := TryPop(store, key, command, failOnMismatch);
      if key !in store then a == Miss
      else if store[key].List? then a == if failOnMismatch then Hit(TypeMismatch, store) else Miss
      else
        var members := store[key].members;
        var n := Allowance(command, |members|);
        var front := AtFront(command);
        && (a.Miss? <==> n == 0)
        && (a.Hit? ==>
              && (command.PopScored? ==>
                    a.result == SingleScored(key, Nth(members, front, 0).0, Nth(members, front, 0).1))
              && (command.PopManyScored? ==>
                    && a.result.MultiScored? && a.result.key == key && |a.result.scores| == |a.result.items| == n
                    && forall i :: 0 <= i < n ==> (a.result.scores[i], a.result.items[i]) == Nth(members, front, i))
              && SameElsewhere(store, a.after, {key})
              && (if n == |members| then key !in a.after
                  else key in a.after && a.after[key] == SortedSet(Cut(members, front, n))))
  {
    if key in store && store[key].SortedSet? {
      var members := store[key].members;
      assert members != [];
      hide NoEmptyCollections, SameElsewhere, Settle, TakeEnd, Nth;
      var n := Allowance(command, |members|);
      var dir := if command.max then Right else Left;
      TakenAt(members, dir, n);
      SettledAt(store, key, SortedSet(TakeEnd(members, dir, n).1));
    }
  }

  /** Settling a collection touches its own key only. */
  lemma {:induction false} SettledAt(store: Store, key: Key, c: Collection)
    ensures
      var after := Settle(store, key, c);
      && SameElsewhere(store, after, {key})
      && (if c == List([]) || c == SortedSet([]) then key !in after else key in after && after[key] == c)
  {
  }

  /**
    BLMOVE: the element at the end named of one list becomes the first or the last of the other; a
    list left empty is dropped.  A sorted set at the target is an error, one at the source only to
    a newcomer.
   */
  lemma {:induction false} MoveEnds(
    store: Store, src: Key, dst: Key, from: Direction, to: Direction, failOnMismatch: bool)
    requires NoEmptyCollections(store)
    ensures
      var a := TryMove(store, src, dst, from, to, failOnMismatch);
      if src !in store then a == Miss
      else if store[src].SortedSet? then a == if failOnMismatch then Hit(TypeMismatch, store) else Miss
      else if dst in store && store[dst].SortedSet? then a == Hit(TypeMismatch, store)
      else
        var items := store[src].items;
        var v, rest := Nth(items, from.Left?, 0), Cut(items, from.Left?, 1);
        var target := if src == dst then rest else if dst in store then store[dst].items else [];
        && a.Hit? && a.result == Single(src, v)
        && dst in a.after && a.after[dst] == List(if to.Left? then [v] + target else target + [v])
        && (src != dst ==> if rest == [] then src !in a.after else src in a.after && a.after[src] == List(rest))
        && SameElsewhere(store, a.after, {src, dst})
  {
    if src in store && store[src].List? && (dst in store ==> store[dst].List?) {
      var items := store[src].items;
      assert items != [];
      hide NoEmptyCollections, SameElsewhere, Settle, TryMove;
      var v, rest := Nth(items, from.Left?, 0), Cut(items, from.Left?, 1);
      var target := if src == dst then rest else if dst in store then store[dst].items else [];
      TakeOne(items, from);
      MoveIs(store, src, dst, from, to, failOnMismatch);
      MovedStore(store, src, dst, rest, List(if to.Left? then [v] + target else target + [v]));
    }
  }

  lemma {:induction false} MovedStore(store: Store, src: Key, dst: Key, rest: seq<Elem>, c: Collection)
    requires src in store
    ensures
      var ready := if src != dst && dst !in store then store[dst := List([])] else store;
      var after := Settle(ready, src, List(rest))[dst := c];
      && dst in after && after[dst] == c && SameElsewhere(store, after, {src, dst})
      && (src != dst ==> if rest == [] then src !in after else src in after && after[src] == List(rest))
  {
  }
}
