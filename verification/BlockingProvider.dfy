/**
  The collection store behind the blocking commands: lists and sorted sets by
  key, popped and moved under one lock per call.
 */
module Provider {
  import opened Common
  import MapSums

  type Key(==, !new)
  type Elem(==, !new)

  datatype Direction = Left | Right

  datatype Collection =
    | List(items: seq<Elem>)
    | SortedSet(members: seq<(real, Elem)>)

  type Store = map<Key, Collection>

  /** A blocking command with its arguments already parsed. */
  datatype Command =
    | PopOne(dir: Direction)                                // BLPOP, BRPOP
    | PopMany(dir: Direction, count: nat)                   // BLMPOP
    | PopScored(max: bool)                                  // BZPOPMIN, BZPOPMAX
    | PopManyScored(max: bool, count: nat)                  // BZMPOP
    | Move(dst: Key, from: Direction, to: Direction)        // BLMOVE, BRPOPLPUSH
    | Unsupported

  datatype ItemResult =
    | Empty
    | ForceUnblocked
    | TypeMismatch
    | KeyUpdate(key: Key)
    | Single(key: Key, item: Elem)
    | Multi(key: Key, items: seq<Elem>)
    | SingleScored(key: Key, score: real, item: Elem)
    | MultiScored(key: Key, scores: seq<real>, items: seq<Elem>)
  {
    predicate Found() {
      !Empty? && !ForceUnblocked? && !TypeMismatch?
    }

    /** What a provider call on a key can answer: items of that key, or a type error. */
    predicate ServedFrom(k: Key) {
      TypeMismatch? || ((Single? || Multi? || SingleScored? || MultiScored?) && this.key == k)
    }
  }

  /** What one provider call does: it either yields a result or leaves the store alone. */
  datatype Attempt = Hit(result: ItemResult, after: Store) | Miss

  /** No key holds an empty collection: emptied collections are reaped. */
  predicate NoEmptyCollections(store: Store) {
    forall k :: k in store ==> store[k] != List([]) && store[k] != SortedSet([])
  }

  /** The `n` items at an end of a list, nearest the end first, and the rest. */
  function TakeEnd<T>(s: seq<T>, dir: Direction, n: nat): (r: (seq<T>, seq<T>))
    requires n <= |s|
  {
    match dir
    case Left => (s[..n], s[n..])
    case Right => (Reverse(s[|s| - n..]), s[..|s| - n])
  }

  lemma {:induction false} TakeOne<T>(s: seq<T>, dir: Direction)
    requires s != []
    ensures TakeEnd(s, dir, 1) ==
      if dir.Left? then ([s[0]], s[1..]) else ([s[|s| - 1]], s[..|s| - 1])
  {
    if dir.Left? {
      assert s[..1] == [s[0]];
    } else {
      var last := s[|s| - 1];
      assert s[|s| - 1..] == [last];
      assert Reverse([last]) == [last];
    }
  }

  function PutEnd<T>(s: seq<T>, dir: Direction, x: T): seq<T> {
    match dir
    case Left => [x] + s
    case Right => s + [x]
  }

  /** Stores a collection under a key, or drops the key when nothing is left. */
  function Settle(store: Store, key: Key, c: Collection): Store {
    if c == List([]) || c == SortedSet([]) then store - {key} else store[key := c]
  }

  /** A target created before the move changes nothing once it is written. */
  lemma {:induction false} SettlePrepared(store: Store, src: Key, c: Collection, dst: Key, v: Collection)
    requires src != dst && dst !in store
    ensures Settle(store[dst := List([])], src, c)[dst := v] == Settle(store, src, c)[dst := v]
  {
  }

  function Scores(ms: seq<(real, Elem)>): (r: seq<real>) {
    seq(|ms|, i requires 0 <= i < |ms| => ms[i].0)
  }

  function Members(ms: seq<(real, Elem)>): (r: seq<Elem>) {
    seq(|ms|, i requires 0 <= i < |ms| => ms[i].1)
  }

  function Mismatch(failOnMismatch: bool, store: Store): Attempt {
    if failOnMismatch then Hit(TypeMismatch, store) else Miss
  }

  /** BLPOP, BRPOP, BLMPOP, BZPOPMIN, BZPOPMAX and BZMPOP on one key. */
  function TryPop(store: Store, key: Key, command: Command, failOnMismatch: bool): Attempt
    requires NoEmptyCollections(store)
  {
    if command.Move? || command.Unsupported? || key !in store then Miss
    else
      match (command, store[key])
      case (PopOne(dir), List(items)) =>
        var (taken, rest) := TakeEnd(items, dir, 1);
        Hit(Single(key, taken[0]), Settle(store, key, List(rest)))
      case (PopMany(dir, count), List(items)) =>
        var (taken, rest) := TakeEnd(items, dir, Min(count, |items|));
        if taken == [] then Miss else Hit(Multi(key, taken), Settle(store, key, List(rest)))
      case (PopScored(max), SortedSet(members)) =>
        var (taken, rest) := TakeEnd(members, if max then Right else Left, 1);
        Hit(SingleScored(key, taken[0].0, taken[0].1), Settle(store, key, SortedSet(rest)))
      case (PopManyScored(max, count), SortedSet(members)) =>
        var (taken, rest) := TakeEnd(members, if max then Right else Left, Min(count, |members|));
        if taken == [] then Miss
        else Hit(MultiScored(key, Scores(taken), Members(taken)), Settle(store, key, SortedSet(rest)))
      case _ => Mismatch(failOnMismatch, store)
  }

  /** BLMOVE and BRPOPLPUSH: pop one end of `src`, push on one end of `dst`. */
  function TryMove(store: Store, src: Key, dst: Key, from: Direction, to: Direction, failOnMismatch: bool): Attempt
    requires NoEmptyCollections(store)
  {
    if src !in store then Miss
    else if store[src].SortedSet? then Mismatch(failOnMismatch, store)
    else if dst in store && store[dst].SortedSet? then Hit(TypeMismatch, store)
    else
      var (taken, rest) := TakeEnd(store[src].items, from, 1);
      var middle := Settle(store, src, List(rest));
      var target := if dst in middle then middle[dst].items else [];
      Hit(Single(src, taken[0]), middle[dst := List(PutEnd(target, to, taken[0]))])
  }

  /** What a settled source leaves at the target of a move. */
  lemma {:induction false} SettledTarget(store: Store, src: Key, rest: seq<Elem>, dst: Key)
    ensures
      var settled := Settle(store, src, List(rest));
      if src == dst then
        if dst in settled then settled[dst] == List(rest) else rest == []
      else
        (dst in settled <==> dst in store) && (dst in store ==> settled[dst] == store[dst])
  {
  }

  /** A move between lists in terms of the store with the target made ready. */
  lemma {:induction false} MoveIs(
    store: Store, src: Key, dst: Key, from: Direction, to: Direction, failOnMismatch: bool)
    requires NoEmptyCollections(store)
    requires src in store && store[src].List? && (dst in store ==> store[dst].List?)
    ensures
      var ready := if src != dst && dst !in store then store[dst := List([])] else store;
      var (taken, rest) := TakeEnd(store[src].items, from, 1);
      var target := if src == dst then rest else ready[dst].items;
      && TryMove(store, src, dst, from, to, failOnMismatch) ==
         Hit(Single(src, taken[0]), Settle(ready, src, List(rest))[dst := List(PutEnd(target, to, taken[0]))])
  {
    var (taken, rest) := TakeEnd(store[src].items, from, 1);
    assert |taken| == 1;
    hide TakeEnd, PutEnd;
    SettledTarget(store, src, rest, dst);
    if src != dst && dst !in store {
      SettlePrepared(store, src, List(rest), dst, List(PutEnd([], to, taken[0])));
    }
    hide Settle;
  }

  /** The provider call an observer's command makes on a key. */
  function TryServe(store: Store, key: Key, command: Command, failOnMismatch: bool): Attempt
    requires NoEmptyCollections(store)
  {
    match command
    case Move(dst, from, to) => TryMove(store, key, dst, from, to, failOnMismatch)
    case _ => TryPop(store, key, command, failOnMismatch)
  }

  lemma {:induction false} ServeAnswers(store: Store, key: Key, command: Command, failOnMismatch: bool)
    requires NoEmptyCollections(store)
    ensures
      var a := TryServe(store, key, command, failOnMismatch);
      a.Hit? ==> a.result.ServedFrom(key)
  {
  }

  /** LPUSH and RPUSH of one element; a sorted set under the key refuses it. */
  function Pushed(store: Store, key: Key, value: Elem, dir: Direction): Option<Store> {
    if key in store && store[key].SortedSet? then None
    else
      var items := if key in store then store[key].items else [];
      Some(store[key := List(PutEnd(items, dir, value))])
  }

  /** Every provider call reaps what it empties. */
  lemma {:induction false} ServeReaps(store: Store, key: Key, command: Command, failOnMismatch: bool)
    requires NoEmptyCollections(store)
    ensures
      var a := TryServe(store, key, command, failOnMismatch);
      a.Hit? ==> NoEmptyCollections(a.after)
  {
    if command.Move? {
      var a := TryMove(store, key, command.dst, command.from, command.to, failOnMismatch);
      if a.Hit? && a.result != TypeMismatch {
        var (_, rest) := TakeEnd(store[key].items, command.from, 1);
        assert NoEmptyCollections(Settle(store, key, List(rest)));
      }
    }
  }

  lemma {:induction false} PushReaps(store: Store, key: Key, value: Elem, dir: Direction)
    requires NoEmptyCollections(store)
    ensures Pushed(store, key, value, dir).Some? ==> NoEmptyCollections(Pushed(store, key, value, dir).value)
  {
    assert forall items: seq<Elem> :: PutEnd(items, dir, value) != [];
  }

  // ----- Conservation ------------------------------------------------------

  ghost function ItemsOf(key: Key, c: Collection): multiset<Elem> {
    match c
    case List(items) => multiset(items)
    case SortedSet(_) => multiset{}
  }

  /** All list elements held by the store. */
  ghost function ListElements(store: Store): multiset<Elem> {
    MapSums.Sum(store, ItemsOf)
  }

  /** The list elements a result carries away from the store. */
  ghost function Carried(command: Command, result: ItemResult): multiset<Elem> {
    if command.PopOne? && result.Single? then multiset{result.item}
    else if command.PopMany? && result.Multi? then multiset(result.items)
    else multiset{}
  }

  lemma {:induction false} ReverseMultiset<T>(s: seq<T>)
    ensures multiset(Reverse(s)) == multiset(s)
  {
    if s != [] {
      ReverseMultiset(s[1..]);
      assert s == [s[0]] + s[1..];
    }
  }

  lemma {:induction false} TakeEndMultiset<T>(s: seq<T>, dir: Direction, n: nat)
    requires n <= |s|
    ensures multiset(TakeEnd(s, dir, n).0) + multiset(TakeEnd(s, dir, n).1) == multiset(s)
  {
    if dir.Left? {
      assert s == s[..n] + s[n..];
    } else {
      ReverseMultiset(s[|s| - n..]);
      assert s == s[..|s| - n] + s[|s| - n..];
    }
  }

  lemma {:induction false} SettleElements(store: Store, key: Key, c: Collection)
    ensures ListElements(Settle(store, key, c)) == ItemsOf(key, c) + MapSums.Sum(store - {key}, ItemsOf)
    ensures key in store ==>
      ListElements(store) == ItemsOf(key, store[key]) + MapSums.Sum(store - {key}, ItemsOf)
    ensures key !in store ==> ListElements(store) == MapSums.Sum(store - {key}, ItemsOf)
  {
    MapSums.SumUpdate(store, ItemsOf, key, c);
  }

  /** Taking `n` items off a list removes exactly those from the store. */
  lemma {:induction false} TakeElements(store: Store, key: Key, dir: Direction, n: nat)
    requires key in store && store[key].List? && n <= |store[key].items|
    ensures
      var (taken, rest) := TakeEnd(store[key].items, dir, n);
      ListElements(store) == ListElements(Settle(store, key, List(rest))) + multiset(taken)
  {
    var (_, rest) := TakeEnd(store[key].items, dir, n);
    TakeEndMultiset(store[key].items, dir, n);
    SettleElements(store, key, List(rest));
  }

  /** Putting one element at an end of a list adds exactly that element. */
  lemma {:induction false} PutElements(store: Store, key: Key, to: Direction, x: Elem)
    requires key in store ==> store[key].List?
    ensures
      var target := if key in store then store[key].items else [];
      ListElements(store[key := List(PutEnd(target, to, x))]) == ListElements(store) + multiset{x}
  {
    var target := if key in store then store[key].items else [];
    PutEndMultiset(target, to, x);
    MapSums.SumUpdate(store, ItemsOf, key, List(PutEnd(target, to, x)));
    hide PutEnd, MapSums.Sum;
  }

  lemma {:induction false} PutEndMultiset<T>(s: seq<T>, to: Direction, x: T)
    ensures multiset(PutEnd(s, to, x)) == multiset(s) + multiset{x}
  {
  }

  /** A pop takes out of the store exactly the list elements its result carries. */
  lemma {:induction false} PopConserves(store: Store, key: Key, command: Command, failOnMismatch: bool)
    requires NoEmptyCollections(store)
    ensures
      var a := TryPop(store, key, command, failOnMismatch);
      a.Hit? ==> ListElements(store) == ListElements(a.after) + Carried(command, a.result)
  {
    if key in store && store[key].List? {
      hide ListElements;
      if command.PopOne? {
        PopOneConserves(store, key, command.dir, failOnMismatch);
      } else if command.PopMany? {
        PopManyConserves(store, key, command.dir, command.count, failOnMismatch);
      }
    } else if key in store && store[key].SortedSet? {
      hide ListElements;
      if command.PopScored? || command.PopManyScored? {
        PopScoredConserves(store, key, command, failOnMismatch);
      }
    }
  }

  lemma {:induction false} PopOneConserves(store: Store, key: Key, dir: Direction, failOnMismatch: bool)
    requires NoEmptyCollections(store) && key in store && store[key].List?
    ensures
      var a := TryPop(store, key, PopOne(dir), failOnMismatch);
      a.Hit? && ListElements(store) == ListElements(a.after) + Carried(PopOne(dir), a.result)
  {
    hide ListElements;
    TakeElements(store, key, dir, 1);
    var (taken, _) := TakeEnd(store[key].items, dir, 1);
    assert taken == [taken[0]];
  }

  lemma {:induction false} PopManyConserves(store: Store, key: Key, dir: Direction, count: nat, failOnMismatch: bool)
    requires NoEmptyCollections(store) && key in store && store[key].List?
    ensures
      var a := TryPop(store, key, PopMany(dir, count), failOnMismatch);
      a.Hit? ==> ListElements(store) == ListElements(a.after) + Carried(PopMany(dir, count), a.result)
  {
    hide ListElements;
    TakeElements(store, key, dir, Min(count, |store[key].items|));
  }

  /** Sorted sets hold no list elements. */
  lemma {:induction false} SortedCarryNothing(store: Store, key: Key, rest: seq<(real, Elem)>)
    requires key in store && store[key].SortedSet?
    ensures ListElements(Settle(store, key, SortedSet(rest))) == ListElements(store)
  {
    hide Settle;
    SettleElements(store, key, SortedSet(rest));
  }

  lemma {:induction false} PopScoredConserves(store: Store, key: Key, command: Command, failOnMismatch: bool)
    requires NoEmptyCollections(store) && key in store && store[key].SortedSet?
    requires command.PopScored? || command.PopManyScored?
    ensures
      var a := TryPop(store, key, command, failOnMismatch);
      a.Hit? ==> ListElements(store) == ListElements(a.after) + Carried(command, a.result)
  {
    hide ListElements, Settle;
    var members := store[key].members;
    var n := if command.PopScored? then 1 else Min(command.count, |members|);
    SortedCarryNothing(store, key, TakeEnd(members, if command.max then Right else Left, n).1);
  }

  /** A move neither creates nor destroys list elements. */
  lemma {:induction false} MoveConserves(
      store: Store, src: Key, dst: Key, from: Direction, to: Direction, failOnMismatch: bool)
    requires NoEmptyCollections(store)
    ensures
      var a := TryMove(store, src, dst, from, to, failOnMismatch);
      a.Hit? ==> ListElements(store) == ListElements(a.after)
  {
    var a := TryMove(store, src, dst, from, to, failOnMismatch);
    if a.Hit? && a.result != TypeMismatch {
      var (taken, rest) := TakeEnd(store[src].items, from, 1);
      TakeElements(store, src, from, 1);
      assert taken == [taken[0]];
      PutElements(Settle(store, src, List(rest)), dst, to, taken[0]);
    }
  }

  lemma {:induction false} ServeConserves(store: Store, key: Key, command: Command, failOnMismatch: bool)
    requires NoEmptyCollections(store)
    ensures
      var a := TryServe(store, key, command, failOnMismatch);
      a.Hit? ==>
        ListElements(store) == ListElements(a.after) + Carried(command, a.result)
  {
    if command.Move? {
      MoveConserves(store, key, command.dst, command.from, command.to, failOnMismatch);
    } else {
      PopConserves(store, key, command, failOnMismatch);
    }
  }

  lemma {:induction false} PushConserves(store: Store, key: Key, value: Elem, dir: Direction)
    requires NoEmptyCollections(store)
    ensures
      var p := Pushed(store, key, value, dir);
      p.Some? ==>
        ListElements(p.value) == ListElements(store) + multiset{value}
  {
    if Pushed(store, key, value, dir).Some? {
      PutElements(store, key, dir, value);
    }
  }

  // ----- The store itself --------------------------------------------------

  /** The in-memory store; each method is one atomic provider call. */
  class MemoryCollectionStore {
    var collections: Store

    ghost predicate Valid()
      reads this
    {
      NoEmptyCollections(collections)
    }

    constructor ()
      ensures Valid() && collections == map[]
    {
      collections := map[];
    }

    method PushListSide(key: Key, value: Elem, dir: Direction) returns (len: Option<nat>)
      requires Valid()
      modifies this
      ensures Valid()
      ensures
        match Pushed(old(collections), key, value, dir)
        case Some(after) => collections == after && len == Some(|after[key].items|)
        case None => collections == old(collections) && len == None
    {
      PushReaps(collections, key, value, dir);
      var entry := if key in collections then collections[key] else List([]);
      match entry {
        case SortedSet(_) =>
          len := None;
        case List(items) =>
          var grown := if dir.Left? then [value] + items else items + [value];
          collections := collections[key := List(grown)];
          len := Some(|grown|);
      }
    }

    /** The effect of ZADD, whatever members it leaves behind. */
    method PutSorted(key: Key, members: seq<(real, Elem)>)
      requires Valid() && members != []
      modifies this
      ensures Valid() && collections == old(collections)[key := SortedSet(members)]
    {
      collections := collections[key := SortedSet(members)];
    }

    /** Pops up to `count` elements one at a time. */
    static method PopSide<T>(items: seq<T>, dir: Direction, count: nat) returns (taken: seq<T>, rest: seq<T>)
      ensures (taken, rest) == TakeEnd(items, dir, Min(count, |items|))
    {
      taken, rest := [], items;
      var take := Min(count, |items|);
      for i := 0 to take
        invariant |taken| == i
        invariant dir.Left? ==> taken == items[..i] && rest == items[i..]
        invariant dir.Right? ==> rest == items[..|items| - i]
        invariant dir.Right? ==> forall j :: 0 <= j < i ==> taken[j] == items[|items| - 1 - j]
      {
        match dir {
          case Left =>
            taken, rest := taken + [rest[0]], rest[1..];
          case Right =>
            taken, rest := taken + [rest[|rest| - 1]], rest[..|rest| - 1];
        }
      }
      assert dir.Right? ==> taken == Reverse(items[|items| - take..]);
    }

    /** Writes a collection back, dropping the key when it was emptied. */
    method WriteBack(key: Key, c: Collection)
      modifies this
      ensures collections == Settle(old(collections), key, c)
    {
      if (c.List? && c.items == []) || (c.SortedSet? && c.members == []) {
        collections := collections - {key};
      } else {
        collections := collections[key := c];
      }
    }

    method TryPopItem(key: Key, command: Command, failOnMismatch: bool) returns (r: Option<ItemResult>)
      requires Valid()
      requires !command.Move?
      modifies this
      ensures Valid()
      ensures
        match TryPop(old(collections), key, command, failOnMismatch)
        case Hit(result, after) => r == Some(result) && collections == after
        case Miss => r == None && collections == old(collections)
    {
      ServeReaps(collections, key, command, failOnMismatch);
      r := None;
      if command.Unsupported? || key !in collections {
        return;
      }
      match (command, collections[key]) {
        case (PopOne(dir), List(items)) =>
          var taken, rest := PopSide(items, dir, 1);
          WriteBack(key, List(rest));
          r := Some(Single(key, taken[0]));
        case (PopMany(dir, count), List(items)) =>
          var taken, rest := PopSide(items, dir, count);
          if taken != [] {
            WriteBack(key, List(rest));
            r := Some(Multi(key, taken));
          }
        case (PopScored(max), SortedSet(members)) =>
          var taken, rest := PopSide(members, if max then Right else Left, 1);
          WriteBack(key, SortedSet(rest));
          r := Some(SingleScored(key, taken[0].0, taken[0].1));
        case (PopManyScored(max, count), SortedSet(members)) =>
          var taken, rest := PopSide(members, if max then Right else Left, count);
          if taken != [] {
            WriteBack(key, SortedSet(rest));
            r := Some(MultiScored(key, Scores(taken), Members(taken)));
          }
        case _ =>
          r := if failOnMismatch then Some(TypeMismatch) else None;
      }
    }

    /** Moves one item between two lists, the source not empty; an emptied source is dropped. */
    method MoveOne(src: Key, dst: Key, from: Direction, to: Direction) returns (item: Elem)
      requires src in collections && dst in collections
      requires collections[src].List? && collections[src].items != [] && collections[dst].List?
      modifies this
      ensures
        var (taken, rest) := TakeEnd(old(collections)[src].items, from, 1);
        var target := if src == dst then rest else old(collections)[dst].items;
        && item == taken[0]
        && collections == Settle(old(collections), src, List(rest))[dst := List(PutEnd(target, to, item))]
    {
      var items := collections[src].items;
      TakeOne(items, from);
      item := if from.Left? then items[0] else items[|items| - 1];
      var rest := if from.Left? then items[1..] else items[..|items| - 1];
      if src == dst {
        collections := collections[src := List(PutEnd(rest, to, item))];
      } else {
        collections := collections[dst := List(PutEnd(collections[dst].items, to, item))];
        if rest == [] {
          collections := collections - {src};
        } else {
          collections := collections[src := List(rest)];
        }
      }
    }

    /** Creates the target when missing and reaps it again when the move fails. */
    method TryMoveItem(src: Key, dst: Key, from: Direction, to: Direction, failOnMismatch: bool)
      returns (r: Option<ItemResult>)
      requires Valid()
      modifies this
      ensures Valid()
      ensures
        match TryMove(old(collections), src, dst, from, to, failOnMismatch)
        case Hit(result, after) => r == Some(result) && collections == after
        case Miss => r == None && collections == old(collections)
    {
      ServeReaps(collections, src, Move(dst, from, to), failOnMismatch);
      if src !in collections {
        return None;
      }
      var createdDst := src != dst && dst !in collections;
      if createdDst {
        collections := collections[dst := List([])];
      }
      if collections[src].SortedSet? || collections[dst].SortedSet? {
        r := if collections[src].SortedSet? && !failOnMismatch then None else Some(TypeMismatch);
        if createdDst {
          collections := collections - {dst};
        }
        assert collections == old(collections);
        return;
      }
      MoveIs(old(collections), src, dst, from, to, failOnMismatch);
      hide TryMove, TakeEnd, PutEnd, Settle;
      var item := MoveOne(src, dst, from, to);
      r := Some(Single(src, item));
    }
  }
}
