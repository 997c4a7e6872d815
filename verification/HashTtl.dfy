/**
  A hash whose fields may expire.  The object keeps the fields, a table of expiry
  times, and a heap of (time, field) pairs that is only ever added to and popped:
  rewriting or deleting a field leaves its old heap entries behind.  The abstract
  value is one map from fields to value and expiry, and every operation is proved
  to act on that map alone.
 */
module HashTtl {
  import opened Common

  type Field = Bytes
  type Value = Bytes

  datatype Entry = Entry(value: Value, expireAt: Option<nat>)
  {
    predicate ExpiredAt(now: nat) {
      expireAt.Some? && expireAt.value <= now
    }
  }

  type Table = map<Field, Entry>

  /** The fields that have not expired. */
  function Live(t: Table, now: nat): Table {
    map f | f in t && !t[f].ExpiredAt(now) :: t[f]
  }

  function ExpiredFields(t: Table, now: nat): set<Field> {
    set f | f in t && t[f].ExpiredAt(now)
  }

  /** Once nothing that is left has expired, what was removed is what had. */
  lemma {:induction false} AllRemoved(t: Table, removed: set<Field>, now: nat)
    requires removed <= ExpiredFields(t, now)
    requires forall f :: f in t - removed ==> !(t - removed)[f].ExpiredAt(now)
    ensures removed == ExpiredFields(t, now) && t - removed == Live(t, now)
  {
    assert forall f :: f in t ==> f in removed || f in t - removed;
  }

  lemma {:induction false} DueEntry(t: Table, removed: set<Field>, f: Field, now: nat)
    ensures t - (removed + {f}) == t - removed - {f}
    ensures f in t - removed && (t - removed)[f].ExpiredAt(now) ==> f in ExpiredFields(t, now) && f !in removed
  {
    RemoveTwice(t, removed, f);
  }

  datatype ExpireOpt = ExpireOpt(nx: bool, xx: bool, gt: bool, lt: bool)

  datatype ExpireResult = Ok | KeyNotFound | ConditionNotMet | AlreadyExpired | NoExpirationSet

  /** Does the option allow changing the current expiry to the new one? */
  predicate Allows(opt: ExpireOpt, current: Option<nat>, at: nat) {
    match current
    case Some(curr) => !opt.nx && !(opt.gt && at <= curr) && !(opt.lt && at >= curr)
    case None => !opt.xx && !opt.gt
  }

  /** What setting an expiry answers and leaves behind. */
  ghost function Expired(t: Table, f: Field, at: nat, opt: ExpireOpt, now: nat): (ExpireResult, Table) {
    if f !in Live(t, now) then (KeyNotFound, t - {f})
    else if !Allows(opt, t[f].expireAt, at) then (ConditionNotMet, t)
    else if at <= now then (AlreadyExpired, t - {f})
    else (Ok, t[f := t[f].(expireAt := Some(at))])
  }

  ghost function Persisted(t: Table, f: Field, now: nat): (ExpireResult, Table) {
    if f !in Live(t, now) then (KeyNotFound, t - {f})
    else if t[f].expireAt.None? then (NoExpirationSet, t)
    else (Ok, t[f := t[f].(expireAt := None)])
  }

  /**
    What HEXPIRE and its relatives answer.  A field that is missing or over is not found; NX wants
    no expiry, XX wants one, GT wants one that the new time is later than, LT does not want one
    that the new time is not earlier than; only then does a time that has come delete the field.
   */
  lemma {:induction false} ExpireAnswers(t: Table, f: Field, at: nat, opt: ExpireOpt, now: nat)
    ensures
      var (r, after) := Expired(t, f, at, opt, now);
      if f !in t || (t[f].expireAt.Some? && t[f].expireAt.value <= now) then r == KeyNotFound && after == t - {f}
      else
        var has := t[f].expireAt.Some?;
        var refused :=
          || (opt.nx && has) || (opt.xx && !has)
          || (opt.gt && (!has || t[f].expireAt.value >= at)) || (opt.lt && has && t[f].expireAt.value <= at);
        && (r == ConditionNotMet <==> refused)
        && (r == AlreadyExpired <==> !refused && at <= now)
        && (r == Ok <==> !refused && at > now)
        && (refused ==> after == t)
        && (!refused && at <= now ==> after == t - {f})
        && (!refused && at > now ==> after == t[f := Entry(t[f].value, Some(at))])
  {
  }

  /** What HPERSIST answers. */
  lemma {:induction false} PersistAnswers(t: Table, f: Field, now: nat)
    ensures
      var (r, after) := Persisted(t, f, now);
      if f !in t || (t[f].expireAt.Some? && t[f].expireAt.value <= now) then r == KeyNotFound && after == t - {f}
      else if t[f].expireAt.None? then r == NoExpirationSet && after == t
      else r == Ok && after == t[f := Entry(t[f].value, None)]
  {
  }

  /**
    A field given an expiry is live exactly before that time, every other field as before, and
    persisting takes the expiry back.
   */
  lemma {:induction false} ExpiryTakesEffect(t: Table, f: Field, at: nat, opt: ExpireOpt, now: nat, later: nat)
    requires Expired(t, f, at, opt, now).0 == Ok
    ensures var after := Expired(t, f, at, opt, now).1;
            && (f in Live(after, later) <==> later < at)
            && Live(after, later) - {f} == Live(t, later) - {f}
            && Persisted(after, f, now) == (Ok, t[f := t[f].(expireAt := None)])
  {
    var after := Expired(t, f, at, opt, now).1;
    assert (Live(after, later) - {f}).Keys == (Live(t, later) - {f}).Keys;
    assert after[f := after[f].(expireAt := None)] == t[f := t[f].(expireAt := None)];
  }

  ghost function Named(names: seq<Field>): set<Field> {
    set f | f in names
  }

  lemma {:induction false} NamedStep(names: seq<Field>, i: nat)
    requires i <= |names|
    ensures Named(names[..0]) == {}
    ensures i < |names| ==> Named(names[..i + 1]) == Named(names[..i]) + {names[i]}
  {
    if i < |names| {
      assert names[..i + 1] == names[..i] + [names[i]];
    }
  }

  lemma {:induction false} DropCounts(t: Table, gone: set<Field>, f: Field, now: nat)
    ensures t - (gone + {f}) == t - gone - {f}
    ensures f in Live(t - gone, now) <==> f !in gone && f in Live(t, now)
    ensures |(gone + {f}) * Live(t, now).Keys| ==
            |gone * Live(t, now).Keys| + (if f in Live(t - gone, now) then 1 else 0)
  {
    RemoveTwice(t, gone, f);
    LiveWithout(t, gone, f, now);
    GrowCount(gone, Live(t, now).Keys, f);
    hide Live;
  }

  lemma {:induction false} RemoveTwice(t: Table, gone: set<Field>, f: Field)
    ensures t - (gone + {f}) == t - gone - {f}
  {
    assert (t - (gone + {f})).Keys == (t - gone - {f}).Keys;
  }

  lemma {:induction false} LiveWithout(t: Table, gone: set<Field>, f: Field, now: nat)
    ensures f in Live(t - gone, now) <==> f !in gone && f in Live(t, now)
  {
    assert f in t - gone <==> f in t && f !in gone;
  }

  lemma {:induction false} GrowCount(gone: set<Field>, live: set<Field>, f: Field)
    ensures |(gone + {f}) * live| == |gone * live| + (if f in live && f !in gone then 1 else 0)
  {
    if f in live && f !in gone {
      assert (gone + {f}) * live == gone * live + {f};
    } else {
      assert (gone + {f}) * live == gone * live;
    }
  }

  type Heap = multiset<(nat, Field)>

  lemma {:induction false} HeapHasMin(q: Heap) returns (e: (nat, Field))
    requires |q| > 0
    ensures e in q && forall x :: x in q ==> e.0 <= x.0
    decreases |q|
  {
    e :| e in q;
    var rest := q - multiset{e};
    if |rest| > 0 {
      var m := HeapHasMin(rest);
      forall x | x in q
        ensures x == e || x in rest
      {
      }
      if m.0 < e.0 {
        e := m;
      }
    } else {
      assert forall x :: x in q ==> x == e || x in rest;
    }
  }

  function Lookup(times: Option<map<Field, nat>>, f: Field): Option<nat> {
    if times.Some? && f in times.value then Some(times.value[f]) else None
  }

  /** The abstract value of a field map and an expiry table. */
  ghost function TableOf(fields: map<Field, Value>, times: Option<map<Field, nat>>): Table {
    map f | f in fields :: Entry(fields[f], Lookup(times, f))
  }

  lemma {:induction false} TableReads(fields: map<Field, Value>, times: Option<map<Field, nat>>, f: Field, now: nat)
    ensures var t := TableOf(fields, times);
            && (f in t <==> f in fields)
            && (f in fields ==> t[f] == Entry(fields[f], Lookup(times, f)))
            && (f in ExpiredFields(t, now) <==> f in fields && Lookup(times, f).Some? && Lookup(times, f).value <= now)
            && (f in Live(t, now) <==> f in t && f !in ExpiredFields(t, now))
  {
  }

  lemma {:induction false} TableRemove(fields: map<Field, Value>, times: Option<map<Field, nat>>, f: Field)
    ensures TableOf(fields - {f}, times) == TableOf(fields, times) - {f}
    ensures times.Some? ==> TableOf(fields - {f}, Some(times.value - {f})) == TableOf(fields, times) - {f}
  {
    var t := TableOf(fields, times) - {f};
    assert TableOf(fields - {f}, times) == t;
    if times.Some? {
      assert TableOf(fields - {f}, Some(times.value - {f})) == t;
    }
  }

  lemma {:induction false} TableSet(fields: map<Field, Value>, times: Option<map<Field, nat>>, f: Field, v: Value)
    requires Lookup(times, f) == None
    ensures TableOf(fields[f := v], times) == TableOf(fields, times)[f := Entry(v, None)]
  {
    assert TableOf(fields[f := v], times) == TableOf(fields, times)[f := Entry(v, None)];
  }

  lemma {:induction false} TableTime(
      fields: map<Field, Value>, before: Option<map<Field, nat>>, after: Option<map<Field, nat>>, f: Field)
    requires forall g :: g != f ==> Lookup(before, g) == Lookup(after, g)
    ensures f in fields ==>
              TableOf(fields, after) == TableOf(fields, before)[f := Entry(fields[f], Lookup(after, f))]
    ensures f !in fields ==> TableOf(fields, after) == TableOf(fields, before)
  {
    if f in fields {
      assert TableOf(fields, after) == TableOf(fields, before)[f := Entry(fields[f], Lookup(after, f))];
    } else {
      assert TableOf(fields, after) == TableOf(fields, before);
    }
  }

  class HashObject {
    var fields: map<Field, Value>
    var times: Option<map<Field, nat>>
    var queue: Option<Heap>

    /** Expiries belong to stored fields, and each current one has its pair in the heap. */
    ghost predicate Valid()
      reads this
    {
      && times.Some? == queue.Some?
      && (times.Some? ==>
            forall f :: f in times.value ==> f in fields && (times.value[f], f) in queue.value)
    }

    function TimeOf(f: Field): Option<nat>
      reads this
    {
      Lookup(times, f)
    }

    /** The abstract value. */
    ghost function Entries(): Table
      reads this
    {
      TableOf(fields, times)
    }

    constructor ()
      ensures Valid() && Entries() == map[]
    {
      fields := map[];
      times, queue := None, None;
    }

    /** Drops the expiry structures when they have nothing left to say. */
    method CleanupExpirationIfEmpty()
      requires Valid()
      modifies this`times, this`queue
      ensures Valid() && Entries() == old(Entries())
      ensures
        if fields == map[] || old(times) == Some(map[]) then times == None && queue == None
        else times == old(times) && queue == old(queue)
    {
      if fields == map[] || (times.Some? && times.value == map[]) {
        times, queue := None, None;
      }
    }

    /** A heap entry with the smallest time. */
    method PeekMin() returns (e: (nat, Field))
      requires queue.Some? && |queue.value| > 0
      ensures e in queue.value && forall x :: x in queue.value ==> e.0 <= x.0
    {
      ghost var m := HeapHasMin(queue.value);
      e :| e in queue.value && forall x :: x in queue.value ==> e.0 <= x.0;
    }

    /** Takes one entry off the heap and with it the field, if that is still the field's expiry. */
    method PopEntry(e: (nat, Field)) returns (hit: bool)
      requires Valid() && queue.Some? && e in queue.value
      modifies this
      ensures Valid() && times.Some? && queue == Some(old(queue).value - multiset{e})
      ensures hit == (e.1 in old(Entries()) && old(Entries())[e.1].expireAt == Some(e.0))
      ensures Entries() == if hit then old(Entries()) - {e.1} else old(Entries())
    {
      var (at, f) := e;
      TableReads(fields, times, f, at);
      TableRemove(fields, times, f);
      hide TableOf, Live, ExpiredFields;
      ghost var before := queue.value;
      queue := Some(queue.value - multiset{e});
      hit := f in times.value && times.value[f] == at;
      if hit {
        times := Some(times.value - {f});
        fields := fields - {f};
      }
      forall g | g in times.value
        ensures (times.value[g], g) in queue.value
      {
        assert (times.value[g], g) in before;
      }
    }

    /** When the heap holds nothing due, no field is due. */
    lemma NothingDue(now: nat)
      requires Valid()
      requires queue.Some? ==> forall x :: x in queue.value ==> x.0 > now
      ensures forall f :: f in Entries() ==> !Entries()[f].ExpiredAt(now)
    {
      forall f | f in Entries()
        ensures !Entries()[f].ExpiredAt(now)
      {
        if times.Some? && f in times.value {
          assert (times.value[f], f) in queue.value;
        }
      }
    }

    /**
      Removes exactly the fields whose current expiry has come; heap entries left over
      from rewritten or deleted fields remove nothing.
     */
    method DeleteExpired(now: nat) returns (purged: nat)
      requires Valid()
      modifies this
      ensures Valid() && Entries() == Live(old(Entries()), now)
      ensures purged == |ExpiredFields(old(Entries()), now)|
    {
      hide TableOf, Live, ExpiredFields;
      purged := 0;
      ghost var start := Entries();
      ghost var removed: set<Field> := {};
      assert Entries() == start - removed;
      var due := queue.Some? && |queue.value| > 0;
      while due
        invariant Valid() && (due ==> queue.Some? && |queue.value| > 0)
        invariant !due ==> queue.Some? ==> forall x :: x in queue.value ==> x.0 > now
        invariant removed <= ExpiredFields(start, now) && purged == |removed|
        invariant Entries() == start - removed
        decreases due, if queue.Some? then |queue.value| else 0
      {
        var e := PeekMin();
        if e.0 > now {
          due := false;
        } else {
          DueEntry(start, removed, e.1, now);
          var hit := PopEntry(e);
          if hit {
            removed := removed + {e.1};
            purged := purged + 1;
          }
          due := |queue.value| > 0;
        }
      }
      NothingDue(now);
      AllRemoved(start, removed, now);
      CleanupExpirationIfEmpty();
    }

    /** Drops one field if it has expired. */
    method CheckAndPurgeExpired(f: Field, now: nat) returns (purged: bool)
      requires Valid()
      modifies this
      ensures Valid() && purged == (f in ExpiredFields(old(Entries()), now))
      ensures Entries() == if purged then old(Entries()) - {f} else old(Entries())
    {
      TableReads(fields, times, f, now);
      purged := times.Some? && f in times.value && times.value[f] <= now;
      if purged {
        TableRemove(fields, times, f);
        hide TableOf, Live, ExpiredFields;
        times := Some(times.value - {f});
        fields := fields - {f};
        CleanupExpirationIfEmpty();
      }
    }

    /** Removes a field's expiry, if it has one; the other fields keep theirs. */
    method ForgetTime(f: Field) returns (had: bool)
      requires Valid()
      modifies this`times, this`queue
      ensures Valid() && had == Lookup(old(times), f).Some?
      ensures Lookup(times, f) == None
      ensures forall g :: g != f ==> Lookup(times, g) == Lookup(old(times), g)
    {
      had := times.Some? && f in times.value;
      if had {
        ghost var left := times.value - {f};
        times := Some(times.value - {f});
        assert forall g :: g != f ==> Lookup(times, g) == Lookup(old(times), g);
        if fields == map[] || times.value == map[] {
          assert forall g :: Lookup(Some(left), g) == None;
          times, queue := None, None;
        }
      }
    }

    /** HSET: stores the value and makes the field persistent; true when the field was not there. */
    method HSet(f: Field, value: Value, now: nat) returns (isNew: bool)
      requires Valid()
      modifies this
      ensures Valid() && Entries() == old(Entries())[f := Entry(value, None)]
      ensures isNew <==> f !in Live(old(Entries()), now)
    {
      hide TableOf, Live, ExpiredFields;
      ghost var before := Entries();
      TableReads(fields, times, f, now);
      var expired := CheckAndPurgeExpired(f, now);
      TableReads(fields, times, f, now);
      ghost var purged := times;
      if !expired {
        var _ := ForgetTime(f);
        TableTime(fields, purged, times, f);
      }
      TableSet(fields, times, f, value);
      assert (before - {f})[f := Entry(value, None)] == before[f := Entry(value, None)];
      isNew := f !in fields;
      fields := fields[f := value];
    }

    /** HSETNX: stores the value only if the field is not there. */
    method HSetNx(f: Field, value: Value, now: nat) returns (stored: bool)
      requires Valid()
      modifies this
      ensures Valid() && (stored <==> f !in Live(old(Entries()), now))
      ensures Entries() == if stored then old(Entries())[f := Entry(value, None)] else old(Entries())
    {
      hide TableOf, Live, ExpiredFields;
      ghost var before := Entries();
      TableReads(fields, times, f, now);
      var _ := CheckAndPurgeExpired(f, now);
      TableReads(fields, times, f, now);
      stored := f !in fields;
      if stored {
        assert Lookup(times, f) == None;
        TableSet(fields, times, f, value);
        assert (before - {f})[f := Entry(value, None)] == before[f := Entry(value, None)];
        fields := fields[f := value];
      }
    }

    /** HGET: the value of a live field; reading never changes what is live. */
    method HGet(f: Field, now: nat) returns (value: Option<Value>)
      requires Valid()
      modifies this
      ensures Valid() && Live(Entries(), now) == Live(old(Entries()), now)
      ensures Entries() ==
        if f in ExpiredFields(old(Entries()), now) then old(Entries()) - {f} else old(Entries())
      ensures value == if f in Live(old(Entries()), now) then Some(old(Entries())[f].value) else None
    {
      TableReads(fields, times, f, now);
      hide TableOf;
      var expired := CheckAndPurgeExpired(f, now);
      TableReads(fields, times, f, now);
      value := if !expired && f in fields then Some(fields[f]) else None;
    }

    /** Removes one field whatever its expiry; true when it was live. */
    method DropField(f: Field, now: nat) returns (hit: bool)
      requires Valid()
      modifies this
      ensures Valid() && Entries() == old(Entries()) - {f}
      ensures hit == (f in Live(old(Entries()), now))
    {
      hide TableOf, Live, ExpiredFields;
      TableReads(fields, times, f, now);
      TableRemove(fields, times, f);
      var expired := times.Some? && f in times.value && times.value[f] <= now;
      hit := f in fields && !expired;
      if times.Some? {
        times := Some(times.value - {f});
      }
      fields := fields - {f};
    }

    /** HDEL: removes the fields and counts those that were still live, each once. */
    method HDel(names: seq<Field>, now: nat) returns (removed: nat)
      requires Valid()
      modifies this
      ensures Valid() && Entries() == old(Entries()) - Named(names)
      ensures removed == |Named(names) * Live(old(Entries()), now).Keys|
    {
      hide TableOf, Live, ExpiredFields, Named;
      removed := 0;
      ghost var start := Entries();
      NamedStep(names, 0);
      for i := 0 to |names|
        invariant Valid() && Entries() == start - Named(names[..i])
        invariant removed == |Named(names[..i]) * Live(start, now).Keys|
      {
        ghost var f := names[i];
        NamedStep(names, i);
        DropCounts(start, Named(names[..i]), f, now);
        var hit := DropField(names[i], now);
        if hit {
          removed := removed + 1;
        }
      }
      assert names[..|names|] == names;
      CleanupExpirationIfEmpty();
    }

    /** HEXPIRE family: conditions are checked before a time in the past deletes the field. */
    method HExpire(f: Field, at: nat, opt: ExpireOpt, now: nat) returns (r: ExpireResult)
      requires Valid()
      modifies this
      ensures Valid()
      ensures (r, Entries()) == Expired(old(Entries()), f, at, opt, now)
    {
      hide TableOf, Live, ExpiredFields, Allows;
      ghost var before := Entries();
      TableReads(fields, times, f, now);
      var expired := CheckAndPurgeExpired(f, now);
      TableReads(fields, times, f, now);
      if expired || f !in fields {
        assert f !in before ==> before - {f} == before;
        return KeyNotFound;
      }
      if !Allows(opt, TimeOf(f), at) {
        return ConditionNotMet;
      }
      if at <= now {
        var _ := DropField(f, now);
        CleanupExpirationIfEmpty();
        return AlreadyExpired;
      }
      RecordTime(f, at);
      r := Ok;
    }

    method RecordTime(f: Field, at: nat)
      requires Valid() && f in fields
      modifies this`times, this`queue
      ensures Valid() && Entries() == old(Entries())[f := Entry(fields[f], Some(at))]
    {
      ghost var before := times;
      if times.None? {
        times, queue := Some(map[]), Some(multiset{});
      }
      times := Some(times.value[f := at]);
      queue := Some(queue.value + multiset{(at, f)});
      TableTime(fields, before, times, f);
    }

    /** HPERSIST. */
    method HPersist(f: Field, now: nat) returns (r: ExpireResult)
      requires Valid()
      modifies this
      ensures Valid()
      ensures (r, Entries()) == Persisted(old(Entries()), f, now)
    {
      hide TableOf, Live, ExpiredFields;
      ghost var before := Entries();
      TableReads(fields, times, f, now);
      var expired := CheckAndPurgeExpired(f, now);
      TableReads(fields, times, f, now);
      if expired || f !in fields {
        assert f !in before ==> before - {f} == before;
        return KeyNotFound;
      }
      ghost var current := times;
      var had := ForgetTime(f);
      TableTime(fields, current, times, f);
      assert before[f].expireAt.None? ==> before[f := before[f]] == before;
      r := if had then Ok else NoExpirationSet;
    }

    /** Counts the live fields without changing anything. */
    method LenRefAt(now: nat) returns (n: nat)
      requires Valid()
      ensures n == |Live(Entries(), now)|
    {
      ghost var t := Entries();
      ghost var live := Live(t, now);
      var expired := if times.Some? then set f | f in times.value && times.value[f] <= now else {};
      assert expired == ExpiredFields(t, now);
      assert fields.Keys == live.Keys + expired && live.Keys !! expired;
      n := |fields| - |expired|;
    }

    /** Purges, and rebuilds the heap from the table when stale entries outnumber current ones. */
    method ShrinkToFit(now: nat)
      requires Valid()
      modifies this
      ensures Valid() && Entries() == Live(old(Entries()), now)
      ensures queue.Some? ==> times.value != map[] && |queue.value| <= 2 * |times.value|
    {
      hide TableOf, Live;
      var _ := DeleteExpired(now);
      if times.Some? && |queue.value| > 2 * |times.value| {
        var rebuilt: Heap := multiset{};
        var todo := times.value.Keys;
        while todo != {}
          invariant todo <= times.value.Keys && |rebuilt| + |todo| == |times.value|
          invariant forall f :: f in times.value && f !in todo ==> (times.value[f], f) in rebuilt
        {
          var f :| f in todo;
          rebuilt := rebuilt + multiset{(times.value[f], f)};
          todo := todo - {f};
        }
        queue := Some(rebuilt);
      }
      CleanupExpirationIfEmpty();
    }
  }
}
