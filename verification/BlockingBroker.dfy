/**
  The broker's code: queues, sessions and observers updated in place by loops.

  Every method keeps `log`, the machine steps taken so far, and `Valid()` says
  that the fields are what those steps lead to.  While a method holds the broker
  lock, `Interfere` lets an arbitrary schedule of unlocked steps happen before
  each of its actions that looks at an observer or at the store; the queues are
  the lock holder's own.  Without the lock, `Yield` lets any steps happen.
 */
module Broker {
  import opened Common
  import opened Provider
  import opened BrokerMachine
  import opened BrokerSafety
  import MapSums

  ghost function WaitersOf(key: Key, q: Queue): multiset<ObserverId> {
    multiset(q.waiters)
  }

  /** How many waiters are queued, over all keys: what the assignment recursion uses up. */
  ghost function TotalWaiters(queues: map<Key, Queue>): nat {
    |MapSums.Sum(queues, WaitersOf)|
  }

  lemma {:induction false} TotalAfterTail(queues: map<Key, Queue>, key: Key)
    requires key in queues && queues[key].waiters != []
    ensures TotalWaiters(queues[key := Tail(queues[key])]) == TotalWaiters(queues) - 1
  {
    var q := queues[key];
    MapSums.SumUpdate(queues, WaitersOf, key, Tail(q));
    assert q.waiters == [q.waiters[0]] + q.waiters[1..];
  }

  lemma {:induction false} TotalAfterCollect(queues: map<Key, Queue>, key: Key)
    requires key in queues && queues[key].waiters == []
    ensures TotalWaiters(queues - {key}) == TotalWaiters(queues)
  {
    MapSums.SumDrop(queues, WaitersOf, key);
  }

  /** Nobody on the key can be served now: no receptive waiter, or the first one in line gets nothing. */
  ghost predicate Stuck(s: State, key: Key)
    requires NoEmptyCollections(s.store)
  {
    s.NoWaiters(key) ||
    (var head := s.queues[key].waiters[0];
     s.Receptive(head) && TryServe(s.store, key, s.observers[head].command, false).Miss?)
  }

  lemma {:induction false} Unwatched(s: State, key: Key)
    requires Inv(s) && s.NoWaiters(key)
    ensures NoEmptyCollections(s.store) && Stuck(s, key)
  {
  }

  /** What unlocked steps may do: queues and the signal books stay, and observers only stop being receptive. */
  ghost predicate Tolerated(s: State, t: State) {
    && t.queues == s.queues
    && t.hint == s.hint
    && t.announced == s.announced
    && t.hinted == s.hinted
    && t.lost == s.lost
    && forall o :: o in s.observers ==>
         && o in t.observers
         && (t.Receptive(o) ==> s.Receptive(o))
         && (!s.observers[o].status.Waiting? ==> !t.observers[o].status.Waiting?)
         && t.observers[o].command == s.observers[o].command
         && t.observers[o].session == s.observers[o].session
  }

  lemma {:induction false} UnlockedTolerated(s: State, a: Action)
    requires Enabled(s, a) && Unlocked(a)
    ensures Tolerated(s, Apply(s, a))
  {
    hide NextStore, NextSessions, Attempted, NewlyPushed;
  }

  /** The history books play no part in what may happen next. */
  lemma {:induction false} SameEnabled(s: State, t: State, a: Action)
    requires s.hint == t.hint && s.queues == t.queues && s.sessions == t.sessions
    requires s.observers == t.observers && s.store == t.store
    ensures Enabled(s, a) == Enabled(t, a)
  {
  }

  /** Nor in what a step does. */
  lemma {:induction false} SameDelivered(s: State, t: State, a: Action)
    requires s.queues == t.queues && s.observers == t.observers && s.store == t.store
    requires Enabled(s, a) && Enabled(t, a)
    ensures Delivered(s, a) == Delivered(t, a)
  {
    hide TryServe;
  }

  lemma {:induction false} SameChanged(s: State, t: State, a: Action)
    requires s.queues == t.queues && s.sessions == t.sessions && s.observers == t.observers && s.store == t.store
    requires Enabled(s, a) && Enabled(t, a)
    ensures Delivered(s, a) == Delivered(t, a) && NextObservers(s, a) == NextObservers(t, a)
  {
    SameDelivered(s, t, a);
    hide Delivered, Attempted, Signalled, TryServe;
  }

  lemma {:induction false} SameQueues(s: State, t: State, a: Action)
    requires s.queues == t.queues && s.observers == t.observers && s.store == t.store
    requires Enabled(s, a) && Enabled(t, a)
    ensures NextQueues(s, a) == NextQueues(t, a)
  {
    SameDelivered(s, t, a);
    if a.Compress? {
      SameRetain(s, t, s.queues[a.key].waiters);
    }
    hide Delivered, Attempted, Signalled, TryServe, Retain, Without;
  }

  lemma {:induction false} SameSessions(s: State, t: State, a: Action)
    requires s.queues == t.queues && s.sessions == t.sessions && s.observers == t.observers && s.store == t.store
    requires Enabled(s, a) && Enabled(t, a)
    ensures NextSessions(s, a) == NextSessions(t, a)
  {
    SameDelivered(s, t, a);
    hide Delivered, Attempted, Signalled, TryServe;
  }

  lemma {:induction false} SameNext(s: State, t: State, a: Action)
    requires s.hint == t.hint && s.queues == t.queues && s.sessions == t.sessions
    requires s.observers == t.observers && s.store == t.store && Enabled(s, a)
    ensures Enabled(t, a)
    ensures NextQueues(s, a) == NextQueues(t, a) && NextSessions(s, a) == NextSessions(t, a)
    ensures NextObservers(s, a) == NextObservers(t, a) && NextStore(s, a) == NextStore(t, a)
  {
    SameEnabled(s, t, a);
    SameChanged(s, t, a);
    SameQueues(s, t, a);
    SameSessions(s, t, a);
    hide Enabled, Delivered, TryServe, Pushed, NextQueues, NextSessions, NextObservers;
  }

  /** The key's queue held a receptive observer that has been finished since by a provider call on that key. */
  ghost predicate ServedOne(s: State, t: State, key: Key) {
    exists o :: ServedWaiter(s, t, key, o)
  }

  ghost predicate ServedWaiter(s: State, t: State, key: Key, o: ObserverId) {
    && s.Receptive(o)
    && key in s.queues
    && o in s.queues[key].waiters
    && o in t.observers
    && t.observers[o].status.ResultSet?
    && t.observers[o].result.ServedFrom(key)
  }

  /** Where a served observer's command has put an element: others may be waiting for it there. */
  function ForwardOf(obs: Observer): Option<Key> {
    var r := obs.result;
    if obs.command.Move? && (r.Single? || r.Multi? || r.SingleScored? || r.MultiScored?) then Some(obs.command.dst)
    else None
  }

  /** The state after the first `n` steps of the log. */
  ghost predicate LoggedServed(hint: bool, log: seq<Action>, n: nat, now: State, key: Key) {
    n <= |log| && ValidRun(Initial(hint), log[..n]) && ServedOne(After(Initial(hint), log[..n]), now, key)
  }

  /** An element put on a key has been offered there: somebody was served from the key since, or nobody can be. */
  ghost predicate PassedOn(hint: bool, log: seq<Action>, from: nat, now: State, key: Key) {
    && NoEmptyCollections(now.store)
    && (Stuck(now, key) || exists n: nat :: from <= n && LoggedServed(hint, log, n, now, key))
  }

  /** A waiter of the key was served, and if its command put the element on another key it was offered there too. */
  ghost predicate ServedThrough(s: State, hint: bool, log: seq<Action>, from: nat, now: State, key: Key) {
    exists o :: ServedWaiter(s, now, key, o) &&
      (ForwardOf(now.observers[o]).Some? ==> PassedOn(hint, log, from, now, ForwardOf(now.observers[o]).value))
  }

  /** The one served, and where its element went. */
  ghost predicate ServedTo(s: State, now: State, key: Key, forward: Option<Key>) {
    exists o :: ServedWaiter(s, now, key, o) && ForwardOf(now.observers[o]) == forward
  }

  lemma {:induction false} ServedThroughOne(s: State, hint: bool, log: seq<Action>, from: nat, now: State, key: Key)
    requires ServedThrough(s, hint, log, from, now, key)
    ensures ServedOne(s, now, key)
  {
  }

  /** Collecting an entry that has nobody leaves what was offered offered. */
  lemma {:induction false} ServedThenCollected(
    s: State, hint: bool, log: seq<Action>, from: nat, mid: State, now: State, key: Key, forward: Option<Key>)
    requires ServedTo(s, mid, key, forward) && Progress(mid, now)
    requires forward.Some? ==> PassedOn(hint, log, from, now, forward.value)
    ensures ServedThrough(s, hint, log, from, now, key)
  {
    hide PassedOn;
    var o :| ServedWaiter(s, mid, key, o) && ForwardOf(mid.observers[o]) == forward;
    assert ServedWaiter(s, now, key, o) && ForwardOf(now.observers[o]) == forward;
  }

  lemma {:induction false} OfferStays(
    hint: bool, log: seq<Action>, longer: seq<Action>, n: nat, now: State, later: State, key: Key, handed: bool)
    requires log <= longer && n <= |log| && ValidRun(Initial(hint), log[..n])
    requires later == now || exists k :: k in now.queues && now.queues[k] == Queue([], 0)
                                         && later == now.(queues := now.queues - {k})
    requires NoEmptyCollections(now.store) && (!handed ==> Stuck(now, key))
    requires handed ==> ServedOne(After(Initial(hint), log[..n]), now, key)
    ensures PassedOn(hint, longer, n, later, key)
  {
    assert longer[..n] == log[..n];
    if handed {
      var o :| ServedWaiter(After(Initial(hint), log[..n]), now, key, o);
      assert ServedWaiter(After(Initial(hint), log[..n]), later, key, o);
      assert LoggedServed(hint, longer, n, later, key);
    }
    hide ValidRun, After;
  }

  lemma {:induction false} SinceEarlier(
    hint: bool, log: seq<Action>, from: nat, since: nat, now: State, key: Key)
    requires from <= since && PassedOn(hint, log, since, now, key)
    ensures PassedOn(hint, log, from, now, key)
  {
    hide LoggedServed, Stuck;
  }

  // ----- Handing out -------------------------------------------------------

  /** How many steps of a run hand a result to an observer. */
  ghost function Handouts(s: State, run: seq<Action>): nat
    requires ValidRun(s, run)
    decreases |run|
  {
    if run == [] then 0
    else (if Delivered(s, run[0]).Deliver? then 1 else 0) + Handouts(Apply(s, run[0]), run[1..])
  }

  lemma {:induction false} HandoutsMore(s: State, run: seq<Action>, a: Action)
    requires ValidRun(s, run) && Enabled(After(s, run), a)
    ensures ValidRun(s, run + [a])
    ensures Handouts(s, run + [a]) == Handouts(s, run) + (if Delivered(After(s, run), a).Deliver? then 1 else 0)
    decreases |run|
  {
    hide Enabled, Apply, Delivered;
    if run == [] {
      assert run + [a] == [a] && [a][1..] == [];
    } else {
      HandoutsMore(Apply(s, run[0]), run[1..], a);
      assert (run + [a])[1..] == run[1..] + [a] && (run + [a])[0] == run[0];
    }
  }

  lemma {:induction false} UnlockedHandNothing(s: State, a: Action)
    requires Enabled(s, a) && (Unlocked(a) || a.Collect?)
    ensures Delivered(s, a).Nothing?
  {
  }

  // ----- Which key answers -------------------------------------------------

  /** Nothing for the observer here: it cannot take anything, somebody is ahead of it, or the store has nothing. */
  ghost predicate NothingFor(s: State, o: ObserverId, key: Key) {
    && NoEmptyCollections(s.store) && o in s.observers
    && (|| !s.Receptive(o)
        || (key in s.queues && exists w :: w in s.queues[key].waiters && s.Receptive(w))
        || TryServe(s.store, key, s.observers[o].command, true).Miss?)
  }

  ghost predicate TriedAt(hint: bool, log: seq<Action>, n: nat, o: ObserverId, key: Key) {
    n <= |log| && ValidRun(Initial(hint), log[..n]) && NothingFor(After(Initial(hint), log[..n]), o, key)
  }

  /** At some point since, there was nothing for the observer on this key. */
  ghost predicate Tried(hint: bool, log: seq<Action>, from: nat, o: ObserverId, key: Key) {
    exists n: nat :: from <= n && TriedAt(hint, log, n, o, key)
  }

  lemma {:induction false} TriedLater(
    hint: bool, log: seq<Action>, longer: seq<Action>, from: nat, since: nat, o: ObserverId, key: Key)
    requires log <= longer && from <= since && Tried(hint, log, since, o, key)
    ensures Tried(hint, longer, from, o, key)
  {
    hide ValidRun, After, NothingFor;
    var n: nat :| since <= n && TriedAt(hint, log, n, o, key);
    assert longer[..n] == log[..n];
    assert TriedAt(hint, longer, n, o, key);
  }

  lemma {:induction false} TriedAllLater(
    hint: bool, log: seq<Action>, longer: seq<Action>, from: nat, o: ObserverId, keys: seq<Key>, i: nat)
    requires log <= longer && i <= |keys| && forall j :: 0 <= j < i ==> Tried(hint, log, from, o, keys[j])
    ensures forall j :: 0 <= j < i ==> Tried(hint, longer, from, o, keys[j])
  {
    hide Tried;
    forall j | 0 <= j < i
      ensures Tried(hint, longer, from, o, keys[j])
    {
      TriedLater(hint, log, longer, from, from, o, keys[j]);
    }
  }

  /** A receptive waiter ahead of the newcomer is a reason to pass the key over. */
  lemma {:induction false} AheadOf(
    hint: bool, log: seq<Action>, longer: seq<Action>, o: ObserverId, key: Key, w: ObserverId)
    requires log <= longer && ValidRun(Initial(hint), log)
    requires
      var s := After(Initial(hint), log);
      NoEmptyCollections(s.store) && o in s.observers && key in s.queues && w in s.queues[key].waiters && s.Receptive(w)
    ensures Tried(hint, longer, |log|, o, key)
  {
    hide ValidRun, After;
    assert longer[..|log|] == log;
    assert TriedAt(hint, longer, |log|, o, key);
  }

  /** The answer came from the first key, in the order given, that had anything. */
  ghost predicate FirstKey(
    hint: bool, log: seq<Action>, from: nat, o: ObserverId, r: ItemResult, keys: seq<Key>, i: nat)
  {
    && i < |keys| && (r.ServedFrom(keys[i]) || r == KeyUpdate(keys[i]))
    && forall j :: 0 <= j < i ==> Tried(hint, log, from, o, keys[j])
  }

  lemma {:induction false} WasReceptive(s: State, t: State, o: ObserverId)
    requires Progress(s, t) && o in s.observers && t.Receptive(o)
    ensures s.Receptive(o)
  {
  }

  lemma {:induction false} StillFinished(s: State, t: State, o: ObserverId)
    requires Progress(s, t) && o in s.observers && !s.observers[o].status.Waiting?
    ensures o in t.observers && !t.observers[o].status.Waiting?
    ensures t.observers[o].command == s.observers[o].command && t.observers[o].result == s.observers[o].result
  {
  }

  lemma {:induction false} StayDeaf(s: State, t: State, waiters: seq<ObserverId>)
    requires Progress(s, t)
    requires forall i :: 0 <= i < |waiters| ==> waiters[i] in s.observers
    requires forall w :: w in waiters ==> !s.Receptive(w)
    ensures forall w :: w in waiters ==> !t.Receptive(w)
  {
  }

  lemma {:induction false} LogProgress(hint: bool, first: seq<Action>, log: seq<Action>)
    requires first <= log && ValidRun(Initial(hint), log)
    ensures ValidRun(Initial(hint), first)
    ensures Progress(After(Initial(hint), first), After(Initial(hint), log))
  {
    assert log == first + log[|first|..];
    RunSplit(Initial(hint), first, log[|first|..]);
    RunProgress(After(Initial(hint), first), log[|first|..]);
  }

  lemma {:induction false} SameRetain(s: State, t: State, waiters: seq<ObserverId>)
    requires s.observers == t.observers
    ensures Retain(s, waiters) == Retain(t, waiters)
    decreases |waiters|
  {
    if waiters != [] {
      SameRetain(s, t, waiters[1..]);
    }
  }

  lemma {:induction false} ToleratedRefl(s: State)
    ensures Tolerated(s, s)
  {
  }

  lemma {:induction false} ToleratedTrans(s: State, t: State, u: State)
    requires Tolerated(s, t) && Tolerated(t, u)
    ensures Tolerated(s, u)
  {
  }

  /** What a lock holder still knows of an observer after other tasks have run. */
  lemma {:induction false} Kept(s: State, t: State, o: ObserverId)
    requires Tolerated(s, t) && o in s.observers
    ensures t.queues == s.queues && o in t.observers && (t.Receptive(o) ==> s.Receptive(o))
    ensures !s.observers[o].status.Waiting? ==> !t.observers[o].status.Waiting?
  {
  }

  lemma {:induction false} CopiesAdd(books: multiset<Key>, key: Key, m: nat, n: nat)
    ensures (books + Copies(key, m)) + Copies(key, n) == books + Copies(key, m + n)
    ensures books + Copies(key, 0) == books
  {
    assert Copies(key, m) + Copies(key, n) == Copies(key, m + n);
  }

  lemma {:induction false} NoHintNoPending(s: State, key: Key)
    requires Inv(s) && key in s.queues && !s.hint
    ensures s.queues[key].pending == 0
  {
  }

  lemma {:induction false} PendingWithinWord(s: State, key: Key)
    requires Inv(s)
    ensures Pending(s, key) <= MAX_SIGNALS
  {
  }

  lemma {:induction false} InvFacts(s: State)
    requires Inv(s)
    ensures NoEmptyCollections(s.store)
    ensures forall x :: x in s.sessions ==> s.sessions[x] in s.observers
    ensures forall k, i :: k in s.queues && 0 <= i < |s.queues[k].waiters| ==> s.queues[k].waiters[i] in s.observers
  {
  }

  lemma {:induction false} WaitersHaveNothing(s: State, o: ObserverId)
    requires Inv(s) && o in s.observers && s.observers[o].status.Waiting?
    ensures s.observers[o].result == Empty
  {
    assert s.observers[o].Consistent();
  }

  /** Nobody is queued anywhere who was not queued there before. */
  ghost predicate NoNewcomers(s: State, t: State) {
    forall k, w :: k in t.queues && w in t.queues[k].waiters ==> k in s.queues && w in s.queues[k].waiters
  }

  lemma {:induction false} NoNewcomersTrans(s: State, t: State, u: State)
    requires NoNewcomers(s, t) && NoNewcomers(t, u)
    ensures NoNewcomers(s, u)
  {
  }

  /** A receptive observer would miss no pending signal by being queued on these keys. */
  ghost predicate Unsignalled(s: State, o: ObserverId, keys: seq<Key>) {
    s.Receptive(o) ==> forall i :: 0 <= i < |keys| ==> Pending(s, keys[i]) == 0
  }

  /** Unlocked steps disturb no registration. */
  lemma {:induction false} RegistrationTolerates(start: State, s: State, t: State, o: ObserverId, keys: seq<Key>)
    requires Tolerated(s, t) && o in s.observers && NoNewcomers(start, s) && Unsignalled(s, o, keys)
    ensures o in t.observers && NoNewcomers(start, t) && Unsignalled(t, o, keys)
  {
  }

  /**
    How far a registration has come: nobody has been queued, no signal waits on the keys looked at,
    and there was nothing for the newcomer on any of them.
   */
  ghost predicate LookedAt(
    hint: bool, log: seq<Action>, from: nat, first: State, now: State, o: ObserverId, keys: seq<Key>, i: nat)
    requires i <= |keys|
  {
    && NoNewcomers(first, now) && Unsignalled(now, o, keys[..i])
    && forall j :: 0 <= j < i ==> Tried(hint, log, from, o, keys[j])
  }

  lemma {:induction false} LookedAtTolerates(
    hint: bool, log: seq<Action>, longer: seq<Action>, from: nat, first: State, s: State, t: State,
    o: ObserverId, keys: seq<Key>, i: nat)
    requires i <= |keys| && LookedAt(hint, log, from, first, s, o, keys, i)
    requires log <= longer && Tolerated(s, t) && o in s.observers
    ensures o in t.observers && LookedAt(hint, longer, from, first, t, o, keys, i)
  {
    hide Tolerated, NoNewcomers, Unsignalled, Tried;
    RegistrationTolerates(first, s, t, o, keys[..i]);
    TriedAllLater(hint, log, longer, from, o, keys, i);
  }

  lemma {:induction false} LookedFurther(
    hint: bool, log: seq<Action>, longer: seq<Action>, from: nat, first: State, s: State, t: State,
    o: ObserverId, keys: seq<Key>, i: nat)
    requires i < |keys| && LookedAt(hint, log, from, first, s, o, keys, i) && log <= longer && from <= |log|
    requires NoNewcomers(s, t) && Tried(hint, longer, |log|, o, keys[i])
    requires t.Receptive(o) ==> s.Receptive(o) && Pending(t, keys[i]) == 0
    requires forall k :: k != keys[i] ==> Pending(t, k) == Pending(s, k)
    ensures LookedAt(hint, longer, from, first, t, o, keys, i + 1)
  {
    hide NoNewcomers, Unsignalled, Tried;
    NoNewcomersTrans(first, s, t);
    OneMoreMiss(s, t, o, keys[..i], keys[i]);
    assert keys[..i + 1] == keys[..i] + [keys[i]];
    TriedAllLater(hint, log, longer, from, o, keys, i);
    TriedLater(hint, longer, longer, from, |log|, o, keys[i]);
  }

  lemma {:induction false} LookedAtAll(
    hint: bool, log: seq<Action>, from: nat, first: State, now: State, o: ObserverId, keys: seq<Key>)
    requires LookedAt(hint, log, from, first, now, o, keys, |keys|)
    ensures NoNewcomers(first, now) && Unsignalled(now, o, keys)
  {
    assert keys[..|keys|] == keys;
  }

  lemma {:induction false} NothingLookedAt(hint: bool, log: seq<Action>, s: State, o: ObserverId, keys: seq<Key>)
    ensures LookedAt(hint, log, |log|, s, s, o, keys, 0)
  {
  }

  /** One more key that had nothing for the newcomer. */
  lemma {:induction false} OneMoreMiss(s: State, t: State, o: ObserverId, keys: seq<Key>, key: Key)
    requires Unsignalled(s, o, keys) && (t.Receptive(o) ==> s.Receptive(o) && Pending(t, key) == 0)
    requires forall k :: k != key ==> Pending(t, k) == Pending(s, k)
    ensures Unsignalled(t, o, keys + [key])
  {
  }

  /** One more step on a run. */
  lemma {:induction false} RunExtended(start: State, log: seq<Action>, a: Action)
    requires ValidRun(start, log) && Enabled(After(start, log), a)
    ensures ValidRun(start, log + [a]) && After(start, log + [a]) == Apply(After(start, log), a)
  {
    hide Enabled, Apply;
    OneStep(After(start, log), a);
    RunAppend(start, log, [a]);
  }

  lemma {:induction false} OneStep(s: State, a: Action)
    requires Enabled(s, a)
    ensures ValidRun(s, [a]) && After(s, [a]) == Apply(s, a)
  {
    hide Enabled, Apply;
    assert [a][1..] == [];
  }

  /** The fields have made a step whose history is still to be booked. */
  ghost predicate Made(before: State, a: Action, now: State) {
    && Enabled(before, a)
    && now.hint == before.hint && now.queues == NextQueues(before, a) && now.sessions == NextSessions(before, a)
    && now.observers == NextObservers(before, a) && now.store == NextStore(before, a)
    && now.pushed == before.pushed && now.announced == before.announced
    && now.hinted == before.hinted && now.lost == before.lost
  }

  lemma {:induction false} MadeIsApply(before: State, a: Action, now: State)
    requires Made(before, a, now)
    ensures Enabled(before, a)
    ensures
      Apply(before, a) ==
      now.(pushed := now.pushed + NewlyPushed(before, a), announced := now.announced + NewlyAnnounced(before, a),
           hinted := now.hinted + NewlyHinted(before, a), lost := now.lost + NewlyLost(before, a))
  {
    hide Enabled, NextQueues, NextSessions, NextObservers, NextStore;
    hide NewlyPushed, NewlyAnnounced, NewlyHinted, NewlyLost;
  }

  /** What booking a step does to the log and to the state it leads to. */
  lemma {:induction false} Recorded(hint: bool, log: seq<Action>, before: State, a: Action, now: State)
    requires ValidRun(Initial(hint), log) && After(Initial(hint), log) == before && Inv(before) && Made(before, a, now)
    ensures Enabled(before, a) && ValidRun(Initial(hint), log + [a])
    ensures After(Initial(hint), log + [a]) == Apply(before, a) && Inv(Apply(before, a))
    ensures Handouts(Initial(hint), log + [a]) ==
      Handouts(Initial(hint), log) + if Delivered(before, a).Deliver? then 1 else 0
    ensures
      Apply(before, a) ==
      now.(pushed := now.pushed + NewlyPushed(before, a), announced := now.announced + NewlyAnnounced(before, a),
           hinted := now.hinted + NewlyHinted(before, a), lost := now.lost + NewlyLost(before, a))
  {
    hide Made, Enabled, Apply, ValidRun, After, Inv, Handouts, Delivered;
    hide NewlyPushed, NewlyAnnounced, NewlyHinted, NewlyLost;
    MadeIsApply(before, a, now);
    RunExtended(Initial(hint), log, a);
    HandoutsMore(Initial(hint), log, a);
    StepKeepsInv(before, a);
  }

  /** The three steps that wake somebody with a key update. */
  ghost predicate Wakes(s: State, a: Action, o: ObserverId, key: Key) {
    && Enabled(s, a)
    && ((a == NotifyHead(key) && o == s.queues[key].waiters[0]) || a == ProbeSignal(o, key) || a == ProbeHint(o, key))
  }

  lemma {:induction false} WakeDelivers(s: State, a: Action, o: ObserverId, key: Key)
    requires Wakes(s, a, o, key)
    ensures Delivered(s, a) == Signalled(s, o, key) && Unaided(s, a).None?
  {
  }

  /** Such a step finishes a receptive observer with the key update, and leaves any other alone. */
  lemma {:induction false} WakeStep(s: State, a: Action, o: ObserverId, key: Key)
    requires Wakes(s, a, o, key)
    ensures NextStore(s, a) == s.store && NewlyPushed(s, a) == multiset{} && NewlyLost(s, a) == multiset{}
    ensures s.Receptive(o) ==>
      && NextObservers(s, a) == s.observers[o := s.observers[o].Finish(KeyUpdate(key))]
      && NextSessions(s, a) == s.sessions - {s.observers[o].session}
    ensures !s.Receptive(o) ==> NextObservers(s, a) == s.observers && NextSessions(s, a) == s.sessions
  {
    WakeDelivers(s, a, o, key);
    hide NextQueues, NewlyAnnounced, NewlyHinted, Delivered, Unaided, Enabled;
  }

  lemma {:induction false} WakeBooks(s: State, a: Action, o: ObserverId, key: Key)
    requires Wakes(s, a, o, key)
    ensures NewlyAnnounced(s, a) == if a.NotifyHead? && s.Receptive(o) then multiset{key} else multiset{}
    ensures NewlyHinted(s, a) == if a.ProbeHint? && s.Receptive(o) then multiset{key} else multiset{}
    ensures NextQueues(s, a) ==
      if a.NotifyHead? then s.queues[key := Tail(s.queues[key])]
      else if a.ProbeSignal? && s.Receptive(o)
      then s.queues[key := s.queues[key].(pending := s.queues[key].pending - 1)]
      else s.queues
  {
    WakeDelivers(s, a, o, key);
    hide NextStore, NextObservers, NextSessions, NewlyPushed, NewlyLost, Delivered, Unaided;
  }

  /** The two steps that try the store for an observer. */
  ghost predicate Tries(s: State, a: Action, o: ObserverId, key: Key) {
    && Enabled(s, a)
    && ((a == AssignHead(key) && o == s.queues[key].waiters[0]) || a == ProbeData(o, key))
  }

  /** Such a step finishes a receptive observer with what the store gives, and otherwise changes nobody. */
  lemma {:induction false} TryStep(s: State, a: Action, o: ObserverId, key: Key)
    requires Tries(s, a, o, key) && NoEmptyCollections(s.store)
    ensures Delivered(s, a).Deliver? <==>
      s.Receptive(o) && TryServe(s.store, key, s.observers[o].command, a.ProbeData?).Hit?
    ensures !s.Receptive(o) ==>
      NextStore(s, a) == s.store && NextObservers(s, a) == s.observers && NextSessions(s, a) == s.sessions
    ensures s.Receptive(o) ==>
      match TryServe(s.store, key, s.observers[o].command, a.ProbeData?)
      case Miss =>
        NextStore(s, a) == s.store && NextObservers(s, a) == s.observers && NextSessions(s, a) == s.sessions
      case Hit(r, after) =>
        && NextStore(s, a) == after && NextObservers(s, a) == s.observers[o := s.observers[o].Finish(r)]
        && NextSessions(s, a) == s.sessions - {s.observers[o].session}
  {
    hide NextQueues, TryServe;
  }

  lemma {:induction false} TryQueues(s: State, a: Action, o: ObserverId, key: Key)
    requires Tries(s, a, o, key) && NoEmptyCollections(s.store)
    ensures NextQueues(s, a) ==
      if a.ProbeData? || (s.Receptive(o) && TryServe(s.store, key, s.observers[o].command, false).Miss?) then s.queues
      else s.queues[key := Tail(s.queues[key])]
  {
    hide NextStore, NextObservers, NextSessions, TryServe;
  }

  /** The unlocked steps of a waiter touch one observer and its session. */
  predicate ByWaiter(a: Action) {
    a.Create? || a.Disconnect? || a.Send? || a.Receive? || a.ReturnResult?
  }

  lemma {:induction false} WaiterStepChanges(s: State, a: Action)
    requires Enabled(s, a) && ByWaiter(a)
    ensures NextQueues(s, a) == s.queues && NextStore(s, a) == s.store && Unaided(s, a).Some?
    ensures NextObservers(s, a) == s.observers[Unaided(s, a).value.0 := Unaided(s, a).value.1]
    ensures NextSessions(s, a) ==
      if a.Create? then s.sessions[a.session := a.o]
      else if a.Receive? || a.ReturnResult? then s.sessions - {s.observers[a.o].session}
      else s.sessions
  {
  }

  lemma {:induction false} UnblockChanges(s: State, session: SessionId, throwError: bool)
    requires session in s.sessions && s.sessions[session] in s.observers
    ensures
      var a, o := Unblock(session, throwError), s.sessions[session];
      && Enabled(s, a)
      && NextQueues(s, a) == s.queues && NextStore(s, a) == s.store && NextSessions(s, a) == s.sessions - {session}
      && NextObservers(s, a) ==
         s.observers[o := s.observers[o].SetResult(if throwError then ForceUnblocked else Empty)]
  {
  }

  /** What probing one key did for a newcomer. */
  datatype ProbeHit = Missed | Done | Moved(dst: Key) | Notified

  function MoveHit(command: Command, r: ItemResult): (hit: ProbeHit)
    ensures hit.Moved? <==> command.Move? && r.Found()
  {
    if r.Found() && command.Move? then Moved(command.dst) else Done
  }

  /** What a probe of a key that was not missed has left with the newcomer. */
  ghost predicate Answered(hit: ProbeHit, obs: Observer, key: Key) {
    if hit.Notified? then obs.result == KeyUpdate(key)
    else obs.result.ServedFrom(key) && hit == MoveHit(obs.command, obs.result)
  }

  class CollectionItemBroker {
    const hint: bool
    const mem: MemoryCollectionStore
    var queues: map<Key, Queue>
    var sessions: map<SessionId, ObserverId>
    var observers: map<ObserverId, Observer>

    /** What the other tasks do at each point where the lock holder can be preempted. */
    const schedule: nat -> seq<Action>
    var clock: nat

    ghost var log: seq<Action>
    ghost var pushed: multiset<Elem>
    ghost var announced: multiset<Key>
    ghost var hinted: multiset<Key>
    ghost var lost: multiset<Key>

    ghost function View(): State
      reads this, mem
    {
      State(hint, queues, sessions, observers, mem.collections, pushed, announced, hinted, lost)
    }

    ghost predicate Valid()
      reads this, mem
    {
      && ValidRun(Initial(hint), log)
      && After(Initial(hint), log) == View()
      && Inv(View())
    }

    /** How many results have been handed out so far. */
    ghost function HandedOut(): nat
      reads this
      requires ValidRun(Initial(hint), log)
    {
      Handouts(Initial(hint), log)
    }

    constructor (hint: bool, schedule: nat -> seq<Action>)
      ensures Valid() && View() == Initial(hint) && log == []
      ensures fresh(mem)
    {
      this.hint := hint;
      this.schedule := schedule;
      mem := new MemoryCollectionStore();
      queues, sessions, observers := map[], map[], map[];
      clock := 0;
      log, pushed, announced, hinted, lost := [], multiset{}, multiset{}, multiset{}, multiset{};
      new;
      InitialInv(hint);
    }

    /** Books one machine step that the fields have just made. */
    ghost method Record(before: State, a: Action)
      requires ValidRun(Initial(hint), log) && After(Initial(hint), log) == before && Inv(before)
      requires Made(before, a, View())
      modifies this`log, this`pushed, this`announced, this`hinted, this`lost
      ensures Valid() && log == old(log) + [a]
      ensures Enabled(before, a) && View() == Apply(before, a)
      ensures HandedOut() == old(HandedOut()) + if Delivered(before, a).Deliver? then 1 else 0
    {
      hide Made, Enabled, Apply, ValidRun, After, Inv, Handouts, Delivered;
      hide NewlyPushed, NewlyAnnounced, NewlyHinted, NewlyLost;
      Recorded(hint, log, before, a, View());
      log := log + [a];
      pushed := pushed + NewlyPushed(before, a);
      announced := announced + NewlyAnnounced(before, a);
      hinted := hinted + NewlyHinted(before, a);
      lost := lost + NewlyLost(before, a);
    }

    // ----- Without the broker lock ------------------------------------------

    method PushList(key: Key, value: Elem, dir: Direction) returns (len: Option<nat>)
      requires Valid()
      modifies this, mem
      ensures Valid() && log == old(log) + [Push(key, value, dir)] && Tolerated(old(View()), View())
      ensures HandedOut() == old(HandedOut())
      ensures
        match Pushed(old(mem.collections), key, value, dir)
        case Some(after) => mem.collections == after && len == Some(|after[key].items|)
        case None => mem.collections == old(mem.collections) && len == None
    {
      hide Inv, ValidRun, After, Handouts, Apply, Tolerated;
      hide NewlyPushed, NewlyAnnounced, NewlyHinted, NewlyLost, Delivered;
      InvFacts(View());
      ghost var before := View();
      len := mem.PushListSide(key, value, dir);
      UnlockedHandNothing(before, Push(key, value, dir));
      Record(before, Push(key, value, dir));
      UnlockedTolerated(before, Push(key, value, dir));
    }

    /** Time-out: the observer ends with an empty result unless something else finished it first. */
    method HandleTimeOut(o: ObserverId)
      requires Valid() && o in observers
      modifies this
      ensures Valid() && log == old(log) + [TimeOut(o)] && Tolerated(old(View()), View())
      ensures HandedOut() == old(HandedOut())
      ensures o in observers && observers == old(observers)[o := observers[o]]
      ensures old(observers)[o].status.Waiting? ==> observers[o].status == ResultSet && observers[o].result == Empty
      ensures !old(observers)[o].status.Waiting? ==> observers[o] == old(observers)[o]
    {
      hide Inv, ValidRun, After, Handouts, Apply, Tolerated;
      hide NewlyPushed, NewlyAnnounced, NewlyHinted, NewlyLost, Delivered;
      InvFacts(View());
      ghost var before := View();
      if observers[o].status.Waiting? {
        observers := observers[o := observers[o].Finish(Empty)];
      }
      assert before.observers[o := before.observers[o]] == before.observers;
      UnlockedHandNothing(before, TimeOut(o));
      Record(before, TimeOut(o));
      UnlockedTolerated(before, TimeOut(o));
    }

    /** CLIENT UNBLOCK; true when this call is what finished the observer. */
    method TryUnblock(session: SessionId, throwError: bool) returns (ok: bool)
      requires Valid()
      modifies this
      ensures Valid() && old(log) <= log && Tolerated(old(View()), View()) && HandedOut() == old(HandedOut())
      ensures ok <==> session in old(sessions) && old(observers)[old(sessions)[session]].status.Waiting?
      ensures ok ==>
        observers[old(sessions)[session]].result == if throwError then ForceUnblocked else Empty
    {
      hide Inv, ValidRun, After, Handouts, Apply, Tolerated;
      hide NewlyPushed, NewlyAnnounced, NewlyHinted, NewlyLost, Delivered;
      InvFacts(View());
      if session !in sessions {
        ToleratedRefl(View());
        return false;
      }
      ghost var before := View();
      var o := sessions[session];
      UnblockChanges(before, session, throwError);
      hide Enabled, NextQueues, NextStore, NextObservers, NextSessions;
      ok := observers[o].status.Waiting?;
      if ok {
        observers := observers[o := observers[o].Finish(if throwError then ForceUnblocked else Empty)];
      }
      sessions := sessions - {session};
      assert before.observers[o := before.observers[o]] == before.observers;
      UnlockedHandNothing(before, Unblock(session, throwError));
      Record(before, Unblock(session, throwError));
      UnlockedTolerated(before, Unblock(session, throwError));
    }

    method HandleSessionDisposed(session: SessionId)
      requires Valid()
      modifies this
      ensures Valid() && old(log) <= log && Tolerated(old(View()), View()) && HandedOut() == old(HandedOut())
      ensures session !in sessions
      ensures
        if session !in old(sessions) then observers == old(observers)
        else
          var o := old(sessions)[session];
          && o in observers && observers == old(observers)[o := observers[o]]
          && (old(observers)[o].status.Waiting? ==>
                observers[o].status == SessionDisposed && observers[o].result == Empty)
          && (!old(observers)[o].status.Waiting? ==> observers[o] == old(observers)[o])
    {
      hide Inv, ValidRun, After, Handouts, Apply, Tolerated;
      hide NewlyPushed, NewlyAnnounced, NewlyHinted, NewlyLost, Delivered;
      InvFacts(View());
      if session !in sessions {
        ToleratedRefl(View());
        return;
      }
      ghost var before := View();
      var o := sessions[session];
      if observers[o].status.Waiting? {
        WaitersHaveNothing(before, o);
      }
      observers := observers[o := observers[o].Disposed()];
      sessions := sessions - {session};
      UnlockedHandNothing(before, Dispose(session));
      Record(before, Dispose(session));
      UnlockedTolerated(before, Dispose(session));
    }

    /** The remaining unlocked steps: registration of a new observer and the waiter's end of the channel. */
    method WaiterStep(a: Action)
      requires Valid() && Enabled(View(), a) && ByWaiter(a)
      modifies this
      ensures Valid() && log == old(log) + [a] && Tolerated(old(View()), View()) && HandedOut() == old(HandedOut())
    {
      hide Inv, ValidRun, After, Handouts, Apply, Tolerated, NewlyPushed, NewlyAnnounced, NewlyHinted, NewlyLost;
      hide NextQueues, NextStore, NextObservers, NextSessions, Delivered;
      InvFacts(View());
      ghost var before := View();
      WaiterStepChanges(before, a);
      match a {
        case Create(o, session, command) =>
          observers := observers[o := Observer(session, command, Waiting, Empty, true, None, None, None)];
          sessions := sessions[session := o];
        case Disconnect(o) =>
          observers := observers[o := observers[o].(connected := false)];
        case Send(o) =>
          var obs := observers[o];
          var channel := if obs.connected then obs.outbox else obs.channel;
          observers := observers[o := obs.(outbox := None, channel := channel)];
        case Receive(o) =>
          sessions := sessions - {observers[o].session};
          observers := observers[o := observers[o].(returned := observers[o].channel, connected := false)];
        case ReturnResult(o) =>
          sessions := sessions - {observers[o].session};
          observers := observers[o := observers[o].(returned := Some(observers[o].result), connected := false)];
      }
      UnlockedHandNothing(before, a);
      Record(before, a);
      UnlockedTolerated(before, a);
    }

    method Perform(a: Action)
      requires Valid() && Unlocked(a) && Enabled(View(), a)
      modifies this, mem
      ensures Valid() && old(log) <= log && Tolerated(old(View()), View()) && HandedOut() == old(HandedOut())
    {
      hide Inv, ValidRun, After, Handouts, Apply, Tolerated;
      hide NewlyPushed, NewlyAnnounced, NewlyHinted, NewlyLost, Delivered;
      InvFacts(View());
      if a.Push? {
        var _ := PushList(a.key, a.value, a.dir);
      } else if a.PutSorted? {
        ghost var before := View();
        mem.PutSorted(a.key, a.members);
        UnlockedHandNothing(before, a);
        Record(before, a);
        UnlockedTolerated(before, a);
      } else if a.TimeOut? {
        HandleTimeOut(a.o);
      } else if a.Unblock? {
        var _ := TryUnblock(a.session, a.throwError);
      } else if a.Dispose? {
        HandleSessionDisposed(a.session);
      } else {
        WaiterStep(a);
      }
    }

    /** Other tasks run: any unlocked steps the schedule has in store for this point. */
    method Interfere()
      requires Valid()
      modifies this, mem
      ensures Valid() && old(log) <= log && Tolerated(old(View()), View()) && HandedOut() == old(HandedOut())
    {
      hide Inv, ValidRun, After, Handouts, Tolerated;
      var steps := schedule(clock);
      clock := clock + 1;
      ToleratedRefl(View());
      for i := 0 to |steps|
        invariant Valid() && old(log) <= log && Tolerated(old(View()), View()) && HandedOut() == old(HandedOut())
      {
        ghost var middle := View();
        var now :=
          State(hint, queues, sessions, observers, mem.collections, multiset{}, multiset{}, multiset{}, multiset{});
        if Unlocked(steps[i]) && Enabled(now, steps[i]) {
          SameEnabled(now, View(), steps[i]);
          Perform(steps[i]);
          ToleratedTrans(old(View()), middle, View());
        }
      }
    }

    /** One step of another task, whichever it is. */
    method Step(a: Action)
      requires Valid() && Enabled(View(), a)
      modifies this, mem
      ensures Valid() && log == old(log) + [a]
    {
      hide Inv, ValidRun, After, Handouts, Enabled, Apply, NextQueues, NextSessions, NextObservers, NextStore;
      var now :=
        State(hint, queues, sessions, observers, mem.collections, multiset{}, multiset{}, multiset{}, multiset{});
      SameNext(View(), now, a);
      ghost var before := View();
      queues, sessions, observers := NextQueues(now, a), NextSessions(now, a), NextObservers(now, a);
      mem.collections := NextStore(now, a);
      Record(before, a);
    }

    /** Other tasks run while nobody holds the lock: any steps at all. */
    method Yield()
      requires Valid()
      modifies this, mem
      ensures Valid() && old(log) <= log
    {
      hide Inv, ValidRun, After, Handouts, Enabled;
      var steps := schedule(clock);
      clock := clock + 1;
      for i := 0 to |steps|
        invariant Valid() && old(log) <= log
      {
        var now :=
          State(hint, queues, sessions, observers, mem.collections, multiset{}, multiset{}, multiset{}, multiset{});
        if Enabled(now, steps[i]) {
          SameEnabled(now, View(), steps[i]);
          Step(steps[i]);
        }
      }
    }

    // ----- Holding the broker lock ------------------------------------------

    /** The provider call an observer's command makes. */
    method Serve(key: Key, command: Command, failOnMismatch: bool) returns (r: Option<ItemResult>)
      requires mem.Valid()
      modifies mem
      ensures mem.Valid()
      ensures
        match TryServe(old(mem.collections), key, command, failOnMismatch)
        case Hit(result, after) => r == Some(result) && mem.collections == after
        case Miss => r == None && mem.collections == old(mem.collections)
      ensures r.Some? ==> r.value.ServedFrom(key)
    {
      ServeAnswers(mem.collections, key, command, failOnMismatch);
      if command.Move? {
        r := mem.TryMoveItem(key, command.dst, command.from, command.to, failOnMismatch);
      } else {
        r := mem.TryPopItem(key, command, failOnMismatch);
      }
    }

    /** Drops a key's entry once it has neither waiters nor pending signals. */
    method CollectEntry(key: Key)
      requires Valid()
      modifies this
      ensures Valid() && old(log) <= log
      ensures TotalWaiters(queues) == old(TotalWaiters(queues)) && HandedOut() == old(HandedOut())
      ensures View() == if key in old(queues) && old(queues)[key] == Queue([], 0)
                        then old(View()).(queues := old(queues) - {key})
                        else old(View())
    {
      hide Inv, ValidRun, After, Handouts, TotalWaiters, Delivered;
      if key in queues && queues[key].waiters == [] && queues[key].pending == 0 {
        ghost var before := View();
        TotalAfterCollect(queues, key);
        queues := queues - {key};
        UnlockedHandNothing(before, Collect(key));
        Record(before, Collect(key));
      }
    }

    /** One turn of the loop of `TryAssignLocked`: the head is dropped, served, or left first in line. */
    method AssignTurn(key: Key) returns (served: Option<ItemResult>)
      requires Valid() && key in queues && queues[key].waiters != []
      modifies this, mem
      ensures Valid() && log == old(log) + [AssignHead(key)]
      ensures HandedOut() == old(HandedOut()) + if served.Some? then 1 else 0
      ensures
        var head := old(queues)[key].waiters[0];
        && head in observers
        && (served.Some? ==>
              && old(View()).Receptive(head)
              && observers[head].status.ResultSet?
              && observers[head].result == served.value
              && served.value.ServedFrom(key))
        && (served.Some? || !observers[head].Receptive() ==> queues == old(queues)[key := Tail(old(queues)[key])])
        && (served.None? && observers[head].Receptive() ==>
              queues == old(queues) && NoEmptyCollections(mem.collections) && Stuck(View(), key))
    {
      hide Inv, ValidRun, After, Handouts, Apply, NewlyPushed, NewlyAnnounced, NewlyHinted, NewlyLost, TryServe;
      hide NextQueues, NextStore, NextObservers, NextSessions, Delivered;
      InvFacts(View());
      ghost var before := View();
      var q := queues[key];
      var head := q.waiters[0];
      TryStep(before, AssignHead(key), head, key);
      TryQueues(before, AssignHead(key), head, key);
      served := None;
      if observers[head].Receptive() {
        served := Serve(key, observers[head].command, false);
        if served.Some? {
          queues := queues[key := Tail(q)];
          sessions := sessions - {observers[head].session};
          observers := observers[head := observers[head].Finish(served.value)];
        }
      } else {
        queues := queues[key := Tail(q)];
      }
      Record(before, AssignHead(key));
    }

    /** The loop of `TryAssignLocked`: drops dead heads until one is served or stays first in line. */
    method AssignFirst(key: Key) returns (handed: bool, forward: Option<Key>)
      requires Valid()
      modifies this, mem
      ensures Valid() && old(log) <= log
      ensures TotalWaiters(queues) <= old(TotalWaiters(queues))
      ensures HandedOut() == old(HandedOut()) + if handed then 1 else 0
      ensures handed ==>
        TotalWaiters(queues) < old(TotalWaiters(queues)) && ServedTo(old(View()), View(), key, forward)
      ensures !handed ==> forward.None? && NoEmptyCollections(mem.collections) && Stuck(View(), key)
    {
      hide Inv, ValidRun, After, Handouts, TotalWaiters, Progress;
      handed, forward := false, None;
      var waiting := key in queues && queues[key].waiters != [];
      InvFacts(View());
      ghost var start := View();
      while waiting
        invariant Valid() && old(log) <= log
        invariant waiting ==> !handed && key in queues && queues[key].waiters != []
        invariant waiting ==> key in start.queues
        invariant waiting ==>
          forall i :: 0 <= i < |queues[key].waiters| ==> queues[key].waiters[i] in start.queues[key].waiters
        invariant !handed && !waiting ==> NoEmptyCollections(mem.collections) && Stuck(View(), key)
        invariant TotalWaiters(queues) <= old(TotalWaiters(queues))
        invariant HandedOut() == old(HandedOut()) + if handed then 1 else 0
        invariant handed ==>
          TotalWaiters(queues) < old(TotalWaiters(queues)) && ServedTo(start, View(), key, forward)
        invariant forward.Some? ==> handed
        decreases waiting, if key in queues then |queues[key].waiters| else 0
      {
        Interfere();
        ghost var middle := View();
        LogProgress(hint, old(log), log);
        TotalAfterTail(queues, key);
        var head := queues[key].waiters[0];
        var served := AssignTurn(key);
        if served.Some? {
          handed, waiting := true, false;
          var command := observers[head].command;
          if served.value.Found() && command.Move? {
            forward := Some(command.dst);
          }
          WasReceptive(start, middle, head);
          assert ServedWaiter(start, View(), key, head) && ForwardOf(View().observers[head]) == forward;
        } else if observers[head].Receptive() {
          waiting := false;
        } else {
          waiting := queues[key].waiters != [];
          InvFacts(View());
        }
      }
    }

    /**
      Serves the first receptive waiter of a key.  A served BLMOVE puts an element
      on another key, whose waiters are tried in turn; each such step uses up a
      queued waiter, so even cyclic chains of moves end.
     */
    method TryAssignLocked(key: Key) returns (handed: bool)
      requires Valid()
      modifies this, mem
      ensures Valid() && old(log) <= log
      ensures TotalWaiters(queues) <= old(TotalWaiters(queues)) && HandedOut() >= old(HandedOut())
      ensures handed ==> TotalWaiters(queues) < old(TotalWaiters(queues)) && HandedOut() > old(HandedOut())
      ensures handed ==> ServedThrough(old(View()), hint, log, |old(log)|, View(), key)
      ensures !handed ==> HandedOut() == old(HandedOut()) && NoEmptyCollections(mem.collections) && Stuck(View(), key)
      ensures key in queues ==> queues[key] != Queue([], 0)
      decreases TotalWaiters(queues)
    {
      hide Inv, ValidRun, After, Handouts, TotalWaiters, Progress, ServedOne, ServedTo, ServedThrough, PassedOn;
      ghost var start := View();
      var forward: Option<Key>;
      handed, forward := AssignFirst(key);
      ghost var before := View();
      ghost var logBefore := log;
      var passed := false;
      if forward.Some? {
        passed := TryAssignLocked(forward.value);
        if passed {
          ServedThroughOne(before, hint, log, |logBefore|, View(), forward.value);
        }
        InvFacts(View());
      }
      ghost var offered := View();
      ghost var logOffered := log;
      CollectEntry(key);
      if handed {
        LogProgress(hint, logBefore, log);
        if forward.Some? {
          assert logOffered[..|logBefore|] == logBefore;
          OfferStays(hint, logOffered, log, |logBefore|, offered, View(), forward.value, passed);
          SinceEarlier(hint, log, |old(log)|, |logBefore|, View(), forward.value);
        }
        ServedThenCollected(start, hint, log, |old(log)|, before, View(), key, forward);
      }
    }

    /**
      Serves waiters of a key until the collection has nothing for the next one.
      At the end the key has no waiter left, or its first receptive waiter cannot be served.
     */
    method HandleCollectionUpdateAll(key: Key) returns (count: nat)
      requires Valid()
      modifies this, mem
      ensures Valid() && old(log) <= log
      ensures count <= old(TotalWaiters(queues)) - TotalWaiters(queues)
      ensures count <= HandedOut() - old(HandedOut()) && (count == 0 ==> HandedOut() == old(HandedOut()))
      ensures NoEmptyCollections(mem.collections) && Stuck(View(), key)
    {
      hide Inv, ValidRun, After, Handouts, TotalWaiters, Stuck;
      count := 0;
      if queues == map[] {
        Unwatched(View(), key);
        return;
      }
      var handed := TryAssignLocked(key);
      while handed
        invariant Valid() && old(log) <= log
        invariant count + (if handed then 1 else 0) <= old(TotalWaiters(queues)) - TotalWaiters(queues)
        invariant count + (if handed then 1 else 0) <= HandedOut() - old(HandedOut())
        invariant count == 0 && !handed ==> HandedOut() == old(HandedOut())
        invariant !handed ==> NoEmptyCollections(mem.collections) && Stuck(View(), key)
        decreases handed, TotalWaiters(queues)
      {
        count := count + 1;
        handed := TryAssignLocked(key);
      }
    }

    /** One turn of the loop of `NotifyWaiters`: pop the head and wake it if it can still be woken. */
    method NotifyTurn(key: Key) returns (woke: bool)
      requires Valid() && key in queues && queues[key].waiters != []
      modifies this
      ensures Valid() && log == old(log) + [NotifyHead(key)]
      ensures queues == old(queues)[key := Tail(old(queues)[key])]
      ensures announced == old(announced) + Copies(key, if woke then 1 else 0)
      ensures hinted == old(hinted) && lost == old(lost)
      ensures
        var head := old(queues)[key].waiters[0];
        woke == old(View()).Receptive(head)
        && (woke ==> head in observers && observers[head].result == KeyUpdate(key))
    {
      hide Inv, ValidRun, After, Handouts, NextQueues, NextStore, NextObservers, NextSessions, Delivered;
      hide NewlyPushed, NewlyAnnounced, NewlyHinted, NewlyLost;
      InvFacts(View());
      ghost var before := View();
      var q := queues[key];
      var head := q.waiters[0];
      WakeStep(before, NotifyHead(key), head, key);
      WakeBooks(before, NotifyHead(key), head, key);
      queues := queues[key := Tail(q)];
      woke := observers[head].Receptive();
      if woke {
        sessions := sessions - {observers[head].session};
        observers := observers[head := observers[head].Finish(KeyUpdate(key))];
      }
      Record(before, NotifyHead(key));
      assert Copies(key, 1) == multiset{key} && Copies(key, 0) == multiset{};
    }

    /** Books the arrivals nobody was there to witness. */
    method AddPendingSignals(key: Key, n: nat)
      requires Valid() && hint && key in queues && queues[key].waiters == []
      modifies this
      ensures Valid() && log == old(log) + [AddPending(key, n)]
      ensures queues == old(queues)[key := Queue([], Min(old(queues)[key].pending + n, MAX_SIGNALS))]
      ensures announced == old(announced) + Copies(key, n) && hinted == old(hinted)
    {
      hide Inv, ValidRun, After, Handouts, NewlyPushed, NewlyLost;
      ghost var before := View();
      var total := queues[key].pending + n;
      queues := queues[key := queues[key].(pending := if total <= MAX_SIGNALS then total else MAX_SIGNALS)];
      Record(before, AddPending(key, n));
    }

    /** Wakes up to `count` waiters, oldest first. */
    method WakeWaiters(key: Key, count: nat) returns (woken: nat)
      requires Valid() && key in queues
      modifies this, mem
      ensures Valid() && old(log) <= log && key in queues
      ensures queues[key].pending == old(queues)[key].pending
      ensures announced == old(announced) + Copies(key, woken) && hinted == old(hinted)
      ensures woken <= count && (woken < count ==> queues[key].waiters == [])
    {
      hide Inv, ValidRun, After, Handouts, Copies, TotalWaiters;
      CopiesAdd(announced, key, 0, 0);
      woken := 0;
      while woken < count && queues[key].waiters != []
        invariant Valid() && old(log) <= log && key in queues && woken <= count
        invariant queues[key].pending == old(queues)[key].pending
        invariant announced == old(announced) + Copies(key, woken) && hinted == old(hinted)
        decreases |queues[key].waiters|
      {
        Interfere();
        var woke := NotifyTurn(key);
        CopiesAdd(old(announced), key, woken, if woke then 1 else 0);
        woken := woken + if woke then 1 else 0;
      }
    }

    /**
      Signals `count` arrivals on a key.  Every arrival on an existing entry is booked
      once: it wakes one waiter, or it becomes a pending unit because no waiter is left.
     */
    method NotifyWaiters(key: Key, count: nat) returns (woken: nat)
      requires Valid()
      modifies this, mem
      ensures Valid() && old(log) <= log
      ensures woken <= count && hinted == old(hinted)
      ensures key !in old(queues) || count == 0 ==> woken == 0 && View() == old(View())
      ensures key in old(queues) ==> announced == old(announced) + Copies(key, if hint then count else woken)
      ensures key in old(queues) && woken < count ==> View().NoWaiters(key)
      ensures key in old(queues) && hint ==>
        Pending(View(), key) == Min(Pending(old(View()), key) + (count - woken), MAX_SIGNALS)
    {
      hide Inv, ValidRun, After, Handouts, Copies, TotalWaiters;
      PendingWithinWord(View(), key);
      CopiesAdd(announced, key, 0, 0);
      if count == 0 || key !in queues {
        return 0;
      }
      woken := WakeWaiters(key, count);
      if woken < count && hint {
        AddPendingSignals(key, count - woken);
        CopiesAdd(old(announced), key, woken, count - woken);
      }
      CollectEntry(key);
    }

    // ----- Registration -----------------------------------------------------

    /** Drops dead waiters; a queue that still has waiters then has no pending signals. */
    method CompressQueue(key: Key)
      requires Valid() && key in queues
      modifies this
      ensures Valid() && log == old(log) + [Compress(key)]
      ensures observers == old(observers)
      ensures
        var q := old(queues)[key];
        queues == old(queues)[key := Queue(Retain(old(View()), q.waiters), q.pending)]
      ensures queues[key].waiters != [] ==> queues[key].pending == 0
    {
      hide ValidRun, After, Handouts, NewlyPushed, NewlyAnnounced, NewlyHinted, NewlyLost;
      ghost var before := View();
      var now :=
        State(hint, queues, sessions, observers, mem.collections, multiset{}, multiset{}, multiset{}, multiset{});
      SameRetain(now, before, queues[key].waiters);
      var kept := Retain(now, queues[key].waiters);
      assert kept != [] ==> kept[0] in kept && now.Receptive(kept[0]);
      queues := queues[key := queues[key].(waiters := kept)];
      Record(before, Compress(key));
    }

    /** Tries the store for a newcomer nobody is queued ahead of. */
    method ProbeStore(o: ObserverId, key: Key) returns (served: Option<ItemResult>)
      requires Valid() && o in observers && View().NoWaiters(key)
      modifies this, mem
      ensures Valid() && log == old(log) + [ProbeData(o, key)]
      ensures queues == old(queues) && o in observers
      ensures served.Some? ==>
        observers[o].status.ResultSet? && observers[o].result == served.value && served.value.ServedFrom(key)
      ensures observers[o].command == old(observers)[o].command
      ensures served.None? ==> observers == old(observers) && NothingFor(old(View()), o, key)
    {
      hide Inv, ValidRun, After, Handouts, Apply, NewlyPushed, NewlyAnnounced, NewlyHinted, NewlyLost, TryServe;
      hide NextQueues, NextStore, NextObservers, NextSessions, Delivered;
      InvFacts(View());
      ghost var before := View();
      TryStep(before, ProbeData(o, key), o, key);
      TryQueues(before, ProbeData(o, key), o, key);
      served := None;
      if observers[o].Receptive() {
        served := Serve(key, observers[o].command, true);
        if served.Some? {
          sessions := sessions - {observers[o].session};
          observers := observers[o := observers[o].Finish(served.value)];
        }
      }
      Record(before, ProbeData(o, key));
    }

    /** Turns one pending unit into a key update for a newcomer that can still take it. */
    method ClaimSignal(o: ObserverId, key: Key) returns (notified: bool)
      requires Valid() && o in observers && key in queues
      requires queues[key].waiters == [] && queues[key].pending > 0
      modifies this
      ensures Valid() && log == old(log) + [ProbeSignal(o, key)]
      ensures o in observers && (notified ==> observers[o].result == KeyUpdate(key) && observers[o].status.ResultSet?)
      ensures !notified ==> View() == old(View()) && !View().Receptive(o)
    {
      hide Inv, ValidRun, After, Handouts, NextQueues, NextStore, NextObservers, NextSessions, Delivered;
      hide NewlyPushed, NewlyAnnounced, NewlyHinted, NewlyLost;
      ghost var before := View();
      WakeStep(before, ProbeSignal(o, key), o, key);
      WakeBooks(before, ProbeSignal(o, key), o, key);
      notified := observers[o].Receptive();
      if notified {
        queues := queues[key := queues[key].(pending := queues[key].pending - 1)];
        sessions := sessions - {observers[o].session};
        observers := observers[o := observers[o].Finish(KeyUpdate(key))];
      }
      Record(before, ProbeSignal(o, key));
    }

    /** Opens the entry of a key registered for the first time. */
    method OpenQueue(key: Key)
      requires Valid() && key !in queues
      modifies this
      ensures Valid() && log == old(log) + [OpenEntry(key)]
      ensures View() == old(View()).(queues := old(queues)[key := Queue([], 0)])
    {
      hide Inv, ValidRun, After, Handouts;
      ghost var before := View();
      queues := queues[key := Queue([], 0)];
      Record(before, OpenEntry(key));
    }

    /** Asks a first registrant to look at the real store again. */
    method ClaimHint(o: ObserverId, key: Key) returns (notified: bool)
      requires Valid() && hint && o in observers && View().NoWaiters(key)
      modifies this
      ensures Valid() && log == old(log) + [ProbeHint(o, key)]
      ensures queues == old(queues)
      ensures o in observers && (notified ==> observers[o].result == KeyUpdate(key) && observers[o].status.ResultSet?)
      ensures !notified ==> View() == old(View()) && !View().Receptive(o)
    {
      hide Inv, ValidRun, After, Handouts, NextQueues, NextStore, NextObservers, NextSessions, Delivered;
      hide NewlyPushed, NewlyAnnounced, NewlyHinted, NewlyLost;
      ghost var before := View();
      WakeStep(before, ProbeHint(o, key), o, key);
      WakeBooks(before, ProbeHint(o, key), o, key);
      notified := observers[o].Receptive();
      if notified {
        sessions := sessions - {observers[o].session};
        observers := observers[o := observers[o].Finish(KeyUpdate(key))];
      }
      Record(before, ProbeHint(o, key));
    }

    /** Tries the store for a newcomer after other tasks have run. */
    method TryStore(o: ObserverId, key: Key) returns (served: Option<ItemResult>)
      requires Valid() && o in observers && View().NoWaiters(key)
      modifies this, mem
      ensures Valid() && old(log) <= log && queues == old(queues) && o in observers
      ensures served.Some? ==> observers[o].status.ResultSet? && observers[o].result == served.value
      ensures served.Some? ==> Answered(MoveHit(observers[o].command, served.value), observers[o], key)
      ensures served.None? ==> Tried(hint, log, |old(log)|, o, key)
    {
      hide Inv, ValidRun, After, Handouts, Tolerated, NothingFor;
      ghost var s0 := View();
      Interfere();
      Kept(s0, View(), o);
      ghost var tried := log;
      served := ProbeStore(o, key);
      assert log[..|tried|] == tried;
      assert served.None? ==> TriedAt(hint, log, |tried|, o, key);
    }

    /** Offers a newcomer nobody is queued ahead of a pending signal. */
    method ProbePending(o: ObserverId, key: Key) returns (notified: bool)
      requires Valid() && o in observers && key in queues && queues[key].waiters == []
      modifies this, mem
      ensures Valid() && old(log) <= log && o in observers
      ensures notified ==> hint && observers[o].result == KeyUpdate(key) && observers[o].status.ResultSet?
      ensures !notified ==> queues == old(queues) && (View().Receptive(o) ==> queues[key].pending == 0)
    {
      hide Inv, ValidRun, After, Handouts, TotalWaiters, Tolerated, Stuck;
      ghost var s0 := View();
      Interfere();
      Kept(s0, View(), o);
      notified := false;
      if hint && observers[o].status.Waiting? && queues[key].pending > 0 {
        ghost var s1 := View();
        Interfere();
        Kept(s1, View(), o);
        notified := ClaimSignal(o, key);
      } else if !hint {
        NoHintNoPending(View(), key);
      }
    }

    /** Serves a newcomer nobody is queued ahead of: data first, then a pending signal. */
    method ProbeEmptyQueue(o: ObserverId, key: Key) returns (hit: ProbeHit)
      requires Valid() && o in observers && key in queues && queues[key].waiters == []
      modifies this, mem
      ensures Valid() && old(log) <= log && o in observers
      ensures hit != Missed ==> !observers[o].status.Waiting? && Answered(hit, observers[o], key)
      ensures hit.Notified? ==> hint && observers[o].result == KeyUpdate(key)
      ensures hit.Missed? ==> Tried(hint, log, |old(log)|, o, key)
      ensures hit.Missed? ==> queues == old(queues) && (View().Receptive(o) ==> queues[key].pending == 0)
    {
      hide Inv, ValidRun, After, Handouts, TotalWaiters, Tolerated, Stuck, Tried;
      var served := TryStore(o, key);
      if served.Some? {
        CollectEntry(key);
        return MoveHit(observers[o].command, served.value);
      }
      ghost var tried := log;
      var notified := ProbePending(o, key);
      hit := if notified then Notified else Missed;
      TriedLater(hint, tried, log, |old(log)|, |old(log)|, o, key);
    }

    /** Offers a first registrant the store, and in hint mode a look at the real one. */
    method ProbeNewKey(o: ObserverId, key: Key) returns (hit: ProbeHit)
      requires Valid() && o in observers && key !in queues
      modifies this, mem
      ensures Valid() && old(log) <= log && o in observers
      ensures hit != Missed ==> !observers[o].status.Waiting? && Answered(hit, observers[o], key)
      ensures hit.Notified? ==> hint && observers[o].result == KeyUpdate(key)
      ensures hit.Missed? ==> queues == old(queues) || queues == old(queues)[key := Queue([], 0)]
      ensures hit.Missed? && hint ==> !View().Receptive(o)
      ensures hit.Missed? ==> Tried(hint, log, |old(log)|, o, key)
    {
      hide Inv, ValidRun, After, Handouts, Tolerated, Tried;
      var served := TryStore(o, key);
      if served.Some? {
        return MoveHit(observers[o].command, served.value);
      }
      ghost var tried, s0 := log, View();
      Interfere();
      Kept(s0, View(), o);
      hit := Missed;
      if hint && observers[o].status.Waiting? {
        OpenQueue(key);
        ghost var s1 := View();
        Interfere();
        Kept(s1, View(), o);
        var notified := ClaimHint(o, key);
        hit := if notified then Notified else Missed;
      }
      TriedLater(hint, tried, log, |old(log)|, |old(log)|, o, key);
    }

    /**
      Tries to satisfy a newcomer from one key.  A newcomer is never served from a key
      on which a receptive waiter is queued, and after a miss it may be queued there
      without hiding a pending signal.
     */
    method ProbeKey(o: ObserverId, key: Key) returns (hit: ProbeHit)
      requires Valid() && o in observers
      modifies this, mem
      ensures Valid() && old(log) <= log && o in observers
      ensures hit != Missed ==> !observers[o].status.Waiting? && Answered(hit, observers[o], key)
      ensures hit.Missed? ==> Tried(hint, log, |old(log)|, o, key)
      ensures hit.Notified? ==> hint && observers[o].result == KeyUpdate(key)
      ensures hit != Missed && key in old(queues) ==>
        forall w :: w in old(queues)[key].waiters ==> !old(View()).Receptive(w) && !View().Receptive(w)
      ensures hit.Missed? && View().Receptive(o) ==> Pending(View(), key) == 0
      ensures hit.Missed? ==> forall k :: k != key ==> Pending(View(), k) == Pending(old(View()), k)
      ensures hit.Missed? ==> NoNewcomers(old(View()), View())
    {
      hide Inv, ValidRun, After, Handouts, Progress, Tolerated, Tried;
      InvFacts(View());
      if key !in queues {
        hit := ProbeNewKey(o, key);
        return;
      }
      ghost var first := View();
      CompressQueue(key);
      if queues[key].waiters != [] {
        AheadOf(hint, old(log), log, o, key, queues[key].waiters[0]);
        return Missed;
      }
      assert forall w :: w in first.queues[key].waiters ==> !first.Receptive(w);
      ghost var compressed := log;
      hit := ProbeEmptyQueue(o, key);
      if hit.Missed? {
        TriedLater(hint, log, log, |old(log)|, |compressed|, o, key);
      }
      LogProgress(hint, old(log), log);
      StayDeaf(first, View(), first.queues[key].waiters);
    }

    /** Queues an observer at the back of a key. */
    method MountOn(o: ObserverId, key: Key)
      requires Valid() && o in observers && (View().Receptive(o) ==> Pending(View(), key) == 0)
      modifies this
      ensures Valid() && log == old(log) + [Mount(o, key)]
      ensures observers == old(observers) && key in queues
      ensures queues == old(queues)[key := queues[key]]
      ensures queues[key].pending == Pending(old(View()), key)
      ensures queues[key].waiters == (if key in old(queues) then old(queues)[key].waiters else []) + [o]
    {
      hide Inv, ValidRun, After, Handouts, NewlyPushed, NewlyAnnounced, NewlyHinted, NewlyLost;
      ghost var before := View();
      var q := if key in queues then queues[key] else Queue([], 0);
      queues := queues[key := q.(waiters := q.waiters + [o])];
      Record(before, Mount(o, key));
    }

    /** Queues an observer on every key, in order; other tasks may finish it meanwhile. */
    method MountAll(o: ObserverId, keys: seq<Key>)
      requires Valid() && o in observers
      requires Unsignalled(View(), o, keys)
      modifies this, mem
      ensures Valid() && old(log) <= log && o in observers
      ensures forall i :: 0 <= i < |keys| ==> keys[i] in queues && o in queues[keys[i]].waiters
    {
      hide Inv, ValidRun, After, Handouts;
      for i := 0 to |keys|
        invariant Valid() && old(log) <= log && o in observers
        invariant Unsignalled(View(), o, keys)
        invariant forall j :: 0 <= j < i ==> keys[j] in queues && o in queues[keys[j]].waiters
      {
        Interfere();
        MountOn(o, keys[i]);
      }
    }

    /** A newcomer that moved an element on has left it where others may wait for it. */
    method ForwardMove(o: ObserverId, hit: ProbeHit)
      requires Valid() && o in observers && !observers[o].status.Waiting?
      modifies this, mem
      ensures Valid() && old(log) <= log && o in observers && !observers[o].status.Waiting?
      ensures observers[o].command == old(observers)[o].command && observers[o].result == old(observers)[o].result
      ensures hit.Moved? ==> PassedOn(hint, log, |old(log)|, View(), hit.dst)
    {
      hide Inv, ValidRun, After, Handouts, Progress, TotalWaiters, Stuck, ServedThrough, ServedOne, PassedOn;
      if hit.Moved? {
        ghost var before := View();
        var handed := TryAssignLocked(hit.dst);
        LogProgress(hint, old(log), log);
        StillFinished(before, View(), o);
        if handed {
          ServedThroughOne(before, hint, log, |old(log)|, View(), hit.dst);
        }
        InvFacts(View());
        assert log[..|old(log)|] == old(log);
        OfferStays(hint, log, log, |old(log)|, View(), View(), hit.dst, handed);
      }
    }

    /** Ends a registration at the first key that had an answer. */
    method Conclude(o: ObserverId, keys: seq<Key>, i: nat, hit: ProbeHit, ghost from: nat)
      requires Valid() && o in observers && !observers[o].status.Waiting? && from <= |log|
      requires i < |keys| && hit != Missed && Answered(hit, observers[o], keys[i])
      requires forall j :: 0 <= j < i ==> Tried(hint, log, from, o, keys[j])
      modifies this, mem
      ensures Valid() && old(log) <= log && o in observers && !observers[o].status.Waiting?
      ensures FirstKey(hint, log, from, o, observers[o].result, keys, i)
      ensures ForwardOf(observers[o]).Some? ==>
        PassedOn(hint, log, from, View(), ForwardOf(observers[o]).value)
    {
      hide Inv, ValidRun, After, Handouts, Tried, PassedOn;
      ForwardMove(o, hit);
      TriedAllLater(hint, old(log), log, from, o, keys, i);
      if hit.Moved? {
        SinceEarlier(hint, log, from, |old(log)|, View(), hit.dst);
      }
    }

    /** One key of a registration. */
    method ProbeNext(o: ObserverId, keys: seq<Key>, i: nat, ghost first: State, ghost from: nat)
      returns (hit: ProbeHit)
      requires Valid() && o in observers && i < |keys| && from <= |log|
      requires LookedAt(hint, log, from, first, View(), o, keys, i)
      modifies this, mem
      ensures Valid() && old(log) <= log && o in observers
      ensures hit != Missed ==> !observers[o].status.Waiting? && Answered(hit, observers[o], keys[i])
      ensures hit != Missed ==> forall j :: 0 <= j < i ==> Tried(hint, log, from, o, keys[j])
      ensures hit.Missed? ==> LookedAt(hint, log, from, first, View(), o, keys, i + 1)
    {
      hide Inv, ValidRun, After, Handouts, Pending, Progress, Tolerated, Tried, Answered, NoNewcomers, Unsignalled;
      ghost var s0 := View();
      Interfere();
      LookedAtTolerates(hint, old(log), log, from, first, s0, View(), o, keys, i);
      ghost var before, logBefore := View(), log;
      hit := ProbeKey(o, keys[i]);
      if hit.Missed? {
        LogProgress(hint, logBefore, log);
        if View().Receptive(o) {
          WasReceptive(before, View(), o);
        }
        LookedFurther(hint, logBefore, log, from, first, before, View(), o, keys, i);
      } else {
        TriedAllLater(hint, logBefore, log, from, o, keys, i);
      }
    }

    /**
      Registers an observer: the keys are probed in order, and only if all of them miss
      is the observer queued at the back of each.
     */
    method InitializeObserver(o: ObserverId, keys: seq<Key>) returns (done: bool)
      requires Valid() && o in observers
      modifies this, mem
      ensures Valid() && old(log) <= log && o in observers
      ensures done ==> !observers[o].status.Waiting?
      ensures done ==> exists i: nat :: FirstKey(hint, log, |old(log)|, o, observers[o].result, keys, i)
      ensures done && ForwardOf(observers[o]).Some? ==>
        PassedOn(hint, log, |old(log)|, View(), ForwardOf(observers[o]).value)
      ensures !done ==>
        || (forall i :: 0 <= i < |keys| ==> keys[i] in queues && o in queues[keys[i]].waiters)
        || (!View().Receptive(o) && NoNewcomers(old(View()), View()))
    {
      hide Inv, ValidRun, After, Handouts, Tolerated, Tried, PassedOn, FirstKey, Answered, LookedAt;
      NothingLookedAt(hint, log, View(), o, keys);
      for i := 0 to |keys|
        invariant Valid() && old(log) <= log && o in observers
        invariant LookedAt(hint, log, |old(log)|, old(View()), View(), o, keys, i)
      {
        var hit := ProbeNext(o, keys, i, old(View()), |old(log)|);
        if hit != Missed {
          Conclude(o, keys, i, hit, |old(log)|);
          return true;
        }
      }
      ghost var probed, logProbed := View(), log;
      Interfere();
      LookedAtTolerates(hint, logProbed, log, |old(log)|, old(View()), probed, View(), o, keys, |keys|);
      LookedAtAll(hint, log, |old(log)|, old(View()), View(), o, keys);
      if observers[o].Receptive() {
        MountAll(o, keys);
      }
      done := false;
    }

    /** Takes a finished observer out of the queues it waits in. */
    method DeregisterObserver(o: ObserverId, keys: seq<Key>)
      requires Valid() && o in observers && !observers[o].status.Waiting?
      modifies this, mem
      ensures Valid() && old(log) <= log
      ensures forall i :: 0 <= i < |keys| ==> keys[i] in queues ==> o !in queues[keys[i]].waiters
    {
      hide Inv, ValidRun, After, Handouts, TotalWaiters;
      for i := 0 to |keys|
        invariant Valid() && old(log) <= log && o in observers && !observers[o].status.Waiting?
        invariant forall j :: 0 <= j < i ==> keys[j] in queues ==> o !in queues[keys[j]].waiters
      {
        Interfere();
        if keys[i] in queues {
          DropFromQueue(o, keys[i]);
          CollectEntry(keys[i]);
        }
      }
    }

    method DropFromQueue(o: ObserverId, key: Key)
      requires Valid() && o in observers && !observers[o].status.Waiting? && key in queues
      modifies this
      ensures Valid() && log == old(log) + [Deregister(o, key)]
      ensures observers == old(observers)
      ensures queues == old(queues)[key := Queue(Without(old(queues)[key].waiters, o), old(queues)[key].pending)]
    {
      hide Inv, ValidRun, After, Handouts, NewlyPushed, NewlyAnnounced, NewlyHinted, NewlyLost;
      ghost var before := View();
      queues := queues[key := queues[key].(waiters := Without(queues[key].waiters, o))];
      Record(before, Deregister(o, key));
    }

    /**
      Serves at most one waiter of a key after an update.  The queues are looked at without
      the lock first; `taken` is how much of the log there was when that look found nobody,
      or when the lock was taken.
     */
    method HandleCollectionUpdate(key: Key) returns (handed: bool, ghost taken: nat)
      requires Valid()
      modifies this, mem
      ensures Valid() && old(log) <= log && |old(log)| <= taken <= |log| && ValidRun(Initial(hint), log[..taken])
      ensures handed ==> ServedThrough(After(Initial(hint), log[..taken]), hint, log, taken, View(), key)
      ensures !handed ==> NoEmptyCollections(mem.collections) && Stuck(View(), key)
    {
      hide Inv, ValidRun, After, Handouts, TotalWaiters, Stuck, ServedThrough;
      if queues == map[] {
        Unwatched(View(), key);
        taken := |log|;
        assert log[..taken] == log;
        return false, taken;
      }
      Yield();
      taken := |log|;
      ghost var locked := log;
      handed := TryAssignLocked(key);
      assert log[..taken] == locked;
    }

    /**
      Pushes one element and serves at most one waiter of the key; between the push and the
      lock other tasks may do anything.  When nobody is served, the key has no waiter, or its
      first receptive one cannot be served from what is stored then.
     */
    method PushAndNotify(key: Key, value: Elem, dir: Direction) returns (len: Option<nat>, ghost taken: nat)
      requires Valid()
      modifies this, mem
      ensures Valid() && old(log) + [Push(key, value, dir)] <= log
      ensures
        match Pushed(old(mem.collections), key, value, dir)
        case Some(after) => len == Some(|after[key].items|)
        case None => len == None && log == old(log) + [Push(key, value, dir)] && mem.collections == old(mem.collections)
      ensures len.Some? ==> |old(log)| < taken <= |log| && ValidRun(Initial(hint), log[..taken])
      ensures len.Some? ==> NoEmptyCollections(mem.collections)
      ensures len.Some? ==>
        ServedThrough(After(Initial(hint), log[..taken]), hint, log, taken, View(), key) || Stuck(View(), key)
    {
      hide Inv, ValidRun, After, Handouts, TotalWaiters, Stuck, ServedThrough;
      len := PushList(key, value, dir);
      taken := |log|;
      if len.None? {
        return;
      }
      Yield();
      var handed;
      handed, taken := HandleCollectionUpdate(key);
      InvFacts(View());
    }
  }
}
