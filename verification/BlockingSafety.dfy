/** What every run of the broker machine keeps. */
module BrokerSafety {
  import opened Common
  import opened Provider
  import opened BrokerMachine
  import MapSums

  ghost function CarriedBy(o: ObserverId, obs: Observer): multiset<Elem> {
    Carried(obs.command, obs.result)
  }

  ghost function UpdateOf(o: ObserverId, obs: Observer): multiset<Key> {
    if obs.result.KeyUpdate? then multiset{obs.result.key} else multiset{}
  }

  function Pending(s: State, key: Key): nat {
    if key in s.queues then s.queues[key].pending else 0
  }

  /** Every pushed element is stored or recorded in the result of a pop. */
  ghost predicate ElementsConserved(s: State) {
    s.pushed == ListElements(s.store) + MapSums.Sum(s.observers, CarriedBy)
  }

  /** Key updates delivered for a key, over all observers. */
  ghost function UpdatesSent(s: State, key: Key): nat {
    MapSums.Sum(s.observers, UpdateOf)[key]
  }

  /** Every announced arrival and every hint is a delivered key update, a pending unit, or saturated away. */
  ghost predicate SignalsConserved(s: State, key: Key) {
    s.announced[key] + s.hinted[key] == UpdatesSent(s, key) + Pending(s, key) + s.lost[key]
  }

  ghost predicate WaitersKnown(s: State) {
    && (forall k :: k in s.queues ==> forall o :: o in s.queues[k].waiters ==> o in s.observers)
    && (forall x :: x in s.sessions ==> s.sessions[x] in s.observers)
  }

  ghost predicate ObserversConsistent(s: State) {
    forall o :: o in s.observers ==> s.observers[o].Consistent()
  }

  /** A key with pending signals has no receptive waiter. */
  ghost predicate PendingUnwatched(s: State) {
    forall k :: k in s.queues && s.queues[k].pending > 0 ==> forall o :: o in s.queues[k].waiters ==> !s.Receptive(o)
  }

  ghost predicate Inv(s: State) {
    && NoEmptyCollections(s.store)
    && WaitersKnown(s)
    && ObserversConsistent(s)
    && PendingUnwatched(s)
    && PendingBounded(s)
  }

  ghost predicate PendingBounded(s: State) {
    forall k :: k in s.queues ==> s.queues[k].pending <= MAX_SIGNALS && (s.queues[k].pending > 0 ==> s.hint)
  }

  // ----- One step ----------------------------------------------------------

  /** Once an observer stops being receptive it never becomes receptive again. */
  lemma {:induction false} StepReceptive(s: State, a: Action, o: ObserverId)
    requires Enabled(s, a) && o in s.observers
    ensures o in Apply(s, a).observers
    ensures Apply(s, a).Receptive(o) ==> s.Receptive(o)
  {
    hide Enabled, Changed, NextQueues, NextStore, NextSessions, NewlyPushed, NewlyAnnounced, NewlyHinted, NewlyLost;
    if Changed(s, a).Some? {
      ChangedAges(s, a);
    }
  }

  lemma {:induction false} AttemptReaps(s: State, o: ObserverId, key: Key, failOnMismatch: bool)
    requires NoEmptyCollections(s.store)
    ensures
      var d := Attempted(s, o, key, failOnMismatch);
      d.Deliver? ==> NoEmptyCollections(d.after)
  {
    hide TryServe;
    if s.Receptive(o) {
      ServeReaps(s.store, key, s.observers[o].command, failOnMismatch);
    }
  }

  lemma {:induction false} StepKeepsStore(s: State, a: Action)
    requires Enabled(s, a) && NoEmptyCollections(s.store)
    ensures NoEmptyCollections(NextStore(s, a))
  {
    hide Attempted, Pushed;
    match a {
      case Push(key, value, dir) => PushReaps(s.store, key, value, dir);
      case AssignHead(key) => AttemptReaps(s, s.queues[key].waiters[0], key, false);
      case ProbeData(o, key) => AttemptReaps(s, o, key, true);
      case _ =>
    }
  }

  lemma {:induction false} StepKeepsObservers(s: State, a: Action)
    requires Enabled(s, a) && ObserversConsistent(s)
    ensures ObserversConsistent(Apply(s, a))
  {
    hide NextQueues, NextStore, NextSessions, Delivered, NewlyPushed, NewlyAnnounced, NewlyHinted, NewlyLost;
  }

  lemma {:induction false} StepKeepsQueued(s: State, a: Action)
    requires Enabled(s, a) && WaitersKnown(s)
    ensures forall k :: k in NextQueues(s, a) ==>
      forall o :: o in NextQueues(s, a)[k].waiters ==> o in NextObservers(s, a)
  {
    hide Attempted, Changed;
    assert forall o :: o in s.observers ==> o in NextObservers(s, a);
  }

  lemma {:induction false} StepKeepsSessions(s: State, a: Action)
    requires Enabled(s, a) && WaitersKnown(s)
    ensures forall x :: x in NextSessions(s, a) ==> NextSessions(s, a)[x] in NextObservers(s, a)
  {
    hide Attempted;
  }

  lemma {:induction false} StepKeepsWaiters(s: State, a: Action)
    requires Enabled(s, a) && WaitersKnown(s)
    ensures WaitersKnown(Apply(s, a))
  {
    hide Enabled, NextQueues, NextStore, NextSessions, NextObservers;
    hide NewlyPushed, NewlyAnnounced, NewlyHinted, NewlyLost;
    StepKeepsQueued(s, a);
    StepKeepsSessions(s, a);
  }

  lemma {:induction false} StepKeepsPending(s: State, a: Action)
    requires Enabled(s, a) && PendingUnwatched(s) && WaitersKnown(s)
    ensures PendingUnwatched(Apply(s, a))
  {
    hide NextStore, Changed, Attempted, NextSessions, NextObservers;
    var t := Apply(s, a);
    forall o | o in s.observers {
      StepReceptive(s, a, o);
    }
  }

  // ----- Elements ----------------------------------------------------------

  /** A delivery takes out of the store exactly what its result carries. */
  lemma {:induction false} DeliveryConserves(s: State, a: Action)
    requires Enabled(s, a) && NoEmptyCollections(s.store)
    ensures
      match Delivered(s, a)
      case Nothing => true
      case Deliver(o, r, after) =>
        ListElements(s.store) == ListElements(after) + Carried(s.observers[o].command, r)
  {
    hide TryServe, ListElements;
    match a {
      case AssignHead(key) =>
        var head := s.queues[key].waiters[0];
        if s.Receptive(head) {
          ServeConserves(s.store, key, s.observers[head].command, false);
        }
      case ProbeData(o, key) => ServeConserves(s.store, key, s.observers[o].command, true);
      case _ =>
    }
  }

  /** Finishing a waiting observer adds what the result carries. */
  lemma {:induction false} FinishCarries(observers: map<ObserverId, Observer>, o: ObserverId, r: ItemResult)
    requires o in observers && observers[o].result == Empty
    ensures
      MapSums.Sum(observers[o := observers[o].Finish(r)], CarriedBy)
      == MapSums.Sum(observers, CarriedBy) + Carried(observers[o].command, r)
  {
    MapSums.SumUpdate(observers, CarriedBy, o, observers[o].Finish(r));
  }

  /** No unlocked step changes what observers carry. */
  lemma {:induction false} UnaidedCarries(s: State, a: Action)
    requires Enabled(s, a) && ObserversConsistent(s) && Unaided(s, a).Some?
    ensures
      var (o, obs) := Unaided(s, a).value;
      MapSums.Sum(s.observers[o := obs], CarriedBy) == MapSums.Sum(s.observers, CarriedBy)
  {
    var (o, obs) := Unaided(s, a).value;
    MapSums.SumKeep(s.observers, CarriedBy, o, obs);
  }

  /** The list elements a step hands to an observer. */
  ghost function HandedOut(s: State, a: Action): multiset<Elem>
    requires Enabled(s, a)
  {
    match Delivered(s, a)
    case Nothing => multiset{}
    case Deliver(o, r, _) => Carried(s.observers[o].command, r)
  }

  lemma {:induction false} StoreGains(s: State, a: Action)
    requires Enabled(s, a) && NoEmptyCollections(s.store)
    ensures ListElements(NextStore(s, a)) + HandedOut(s, a) == ListElements(s.store) + NewlyPushed(s, a)
  {
    hide ListElements, Attempted, Pushed;
    DeliveryConserves(s, a);
    match a {
      case Push(key, value, dir) => PushConserves(s.store, key, value, dir);
      case PutSorted(key, members) => SortedElements(s.store, key, members);
      case _ =>
    }
  }

  lemma {:induction false} SortedElements(store: Store, key: Key, members: seq<(real, Elem)>)
    requires members != [] && (key in store ==> store[key].SortedSet?)
    ensures ListElements(store[key := SortedSet(members)]) == ListElements(store)
  {
    SettleElements(store, key, SortedSet(members));
  }

  lemma {:induction false} ObserversGain(s: State, a: Action)
    requires Enabled(s, a) && ObserversConsistent(s)
    ensures MapSums.Sum(NextObservers(s, a), CarriedBy) == MapSums.Sum(s.observers, CarriedBy) + HandedOut(s, a)
  {
    hide Enabled, Delivered, Unaided, MapSums.Sum, Carried;
    match Delivered(s, a) {
      case Deliver(o, r, _) => FinishCarries(s.observers, o, r);
      case Nothing =>
        if Unaided(s, a).Some? {
          UnaidedCarries(s, a);
        }
    }
  }

  /** What leaves one side of the books arrives on the other. */
  lemma {:induction false} Balance<T>(
    total: multiset<T>, stored: multiset<T>, held: multiset<T>,
    gained: multiset<T>, handed: multiset<T>, stored': multiset<T>)
    requires total == stored + held
    requires stored' + handed == stored + gained
    ensures total + gained == stored' + (held + handed)
  {
    assert stored + held + gained == stored' + handed + held;
  }

  lemma {:induction false} StepKeepsElements(s: State, a: Action)
    requires Enabled(s, a) && Inv(s) && ElementsConserved(s)
    ensures ElementsConserved(Apply(s, a))
  {
    hide Enabled, NextObservers, NextStore, NextQueues, NextSessions;
    hide NewlyPushed, NewlyAnnounced, NewlyHinted, NewlyLost;
    hide ListElements, HandedOut, MapSums.Sum;
    StoreGains(s, a);
    ObserversGain(s, a);
    Balance(s.pushed, ListElements(s.store), MapSums.Sum(s.observers, CarriedBy),
            NewlyPushed(s, a), HandedOut(s, a), ListElements(NextStore(s, a)));
  }

  // ----- Signals -----------------------------------------------------------

  /** The key update a step hands to an observer. */
  ghost function UpdateSent(s: State, a: Action): multiset<Key>
    requires Enabled(s, a)
  {
    match Delivered(s, a)
    case Nothing => multiset{}
    case Deliver(_, r, _) => if r.KeyUpdate? then multiset{r.key} else multiset{}
  }

  lemma {:induction false} UpdatesGain(s: State, a: Action)
    requires Enabled(s, a) && ObserversConsistent(s)
    ensures MapSums.Sum(NextObservers(s, a), UpdateOf) == MapSums.Sum(s.observers, UpdateOf) + UpdateSent(s, a)
  {
    hide Enabled, Delivered, Unaided, MapSums.Sum;
    match Delivered(s, a) {
      case Deliver(o, r, _) => FinishUpdates(s.observers, o, r);
      case Nothing =>
        if Unaided(s, a).Some? {
          UnaidedUpdates(s, a);
        }
    }
  }

  lemma {:induction false} FinishUpdates(observers: map<ObserverId, Observer>, o: ObserverId, r: ItemResult)
    requires o in observers && observers[o].result == Empty
    ensures
      MapSums.Sum(observers[o := observers[o].Finish(r)], UpdateOf)
      == MapSums.Sum(observers, UpdateOf) + if r.KeyUpdate? then multiset{r.key} else multiset{}
  {
    MapSums.SumUpdate(observers, UpdateOf, o, observers[o].Finish(r));
  }

  lemma {:induction false} UnaidedUpdate(s: State, a: Action)
    requires Enabled(s, a) && ObserversConsistent(s) && Unaided(s, a).Some?
    ensures
      var (o, obs) := Unaided(s, a).value;
      UpdateOf(o, obs) == if o in s.observers then UpdateOf(o, s.observers[o]) else multiset{}
  {
  }

  lemma {:induction false} UnaidedUpdates(s: State, a: Action)
    requires Enabled(s, a) && ObserversConsistent(s) && Unaided(s, a).Some?
    ensures
      var (o, obs) := Unaided(s, a).value;
      MapSums.Sum(s.observers[o := obs], UpdateOf) == MapSums.Sum(s.observers, UpdateOf)
  {
    UnaidedUpdate(s, a);
    hide Enabled, Unaided, ObserversConsistent;
    var (o, obs) := Unaided(s, a).value;
    MapSums.SumKeep(s.observers, UpdateOf, o, obs);
  }

  /** Provider calls never produce a key update: those come from signals only. */
  lemma {:induction false} AttemptsSendNoUpdate(s: State, o: ObserverId, key: Key, failOnMismatch: bool)
    requires NoEmptyCollections(s.store)
    ensures
      var d := Attempted(s, o, key, failOnMismatch);
      d.Deliver? ==> !d.result.KeyUpdate?
  {
  }

  /** The steps that announce, signal or hint. */
  predicate Signalling(a: Action) {
    a.NotifyHead? || a.AddPending? || a.ProbeSignal? || a.ProbeHint?
  }

  /** No other step moves a pending unit or sends a key update. */
  lemma {:induction false} QuietStep(s: State, a: Action, key: Key)
    requires Enabled(s, a) && NoEmptyCollections(s.store) && !Signalling(a)
    ensures Pending(Apply(s, a), key) == Pending(s, key)
    ensures UpdateSent(s, a) == multiset{}
  {
    hide Attempted, NextStore, NextSessions, NextObservers, NewlyPushed, NewlyAnnounced, NewlyHinted, NewlyLost;
    if a.AssignHead? {
      AttemptsSendNoUpdate(s, s.queues[a.key].waiters[0], a.key, false);
    } else if a.ProbeData? {
      AttemptsSendNoUpdate(s, a.o, a.key, true);
    }
  }

  /** An announcement to a queued head is a key update for it, or nothing. */
  lemma {:induction false} AnnounceLedger(s: State, at: Key, key: Key)
    requires Enabled(s, NotifyHead(at))
    ensures
      var a := NotifyHead(at);
      && Pending(Apply(s, a), key) == Pending(s, key)
      && NewlyAnnounced(s, a)[key] == UpdateSent(s, a)[key] && NewlyHinted(s, a)[key] == 0
  {
    hide NextStore, NextSessions, NextObservers, NewlyPushed, NewlyLost;
  }

  /** A hint to a first registrant is a key update for it, or nothing. */
  lemma {:induction false} HintLedger(s: State, o: ObserverId, at: Key, key: Key)
    requires Enabled(s, ProbeHint(o, at))
    ensures
      var a := ProbeHint(o, at);
      && Pending(Apply(s, a), key) == Pending(s, key)
      && NewlyHinted(s, a)[key] == UpdateSent(s, a)[key] && NewlyAnnounced(s, a)[key] == 0
  {
    hide NextStore, NextSessions, NextObservers, NewlyPushed, NewlyLost;
  }

  lemma {:induction false} NotifyLedger(s: State, a: Action, key: Key)
    requires Enabled(s, a) && (a.NotifyHead? || a.ProbeHint?)
    ensures Pending(Apply(s, a), key) == Pending(s, key)
    ensures NewlyAnnounced(s, a)[key] + NewlyHinted(s, a)[key] == UpdateSent(s, a)[key]
  {
    hide Enabled, Apply, UpdateSent, Pending, NewlyAnnounced, NewlyHinted;
    if a.NotifyHead? {
      AnnounceLedger(s, a.key, key);
    } else {
      HintLedger(s, a.o, a.key, key);
    }
  }

  lemma {:induction false} PendingLedger(s: State, a: Action, key: Key)
    requires Enabled(s, a) && (a.AddPending? || a.ProbeSignal?)
    ensures
      Pending(s, key) + NewlyAnnounced(s, a)[key]
      == Pending(Apply(s, a), key) + UpdateSent(s, a)[key] + NewlyLost(s, a)[key]
  {
    hide NextStore, NextSessions, NextObservers, NewlyPushed, NewlyHinted;
  }

  /** Units enter the ledger by announcement or hint and leave it as key updates or by saturation. */
  lemma {:induction false} LedgerBalance(s: State, a: Action, key: Key)
    requires Enabled(s, a) && NoEmptyCollections(s.store)
    ensures
      Pending(s, key) + NewlyAnnounced(s, a)[key] + NewlyHinted(s, a)[key]
      == Pending(Apply(s, a), key) + UpdateSent(s, a)[key] + NewlyLost(s, a)[key]
  {
    hide Enabled, Apply, UpdateSent, Pending;
    if a.NotifyHead? || a.ProbeHint? {
      NotifyLedger(s, a, key);
    } else if a.AddPending? || a.ProbeSignal? {
      PendingLedger(s, a, key);
    } else {
      QuietStep(s, a, key);
    }
  }

  lemma {:induction false} StepKeepsSignals(s: State, a: Action, key: Key)
    requires Enabled(s, a) && Inv(s) && SignalsConserved(s, key)
    ensures SignalsConserved(Apply(s, a), key)
  {
    hide Enabled, NextObservers, NextStore, NextQueues, NextSessions;
    hide NewlyPushed, NewlyAnnounced, NewlyHinted, NewlyLost;
    hide UpdateSent, MapSums.Sum, Pending;
    UpdatesGain(s, a);
    LedgerBalance(s, a, key);
  }

  // ----- Every run ---------------------------------------------------------

  lemma {:induction false} StepKeepsBounds(s: State, a: Action)
    requires Enabled(s, a) && PendingBounded(s)
    ensures PendingBounded(Apply(s, a))
  {
    hide Attempted, NextStore, NextSessions, NextObservers, NewlyPushed, NewlyAnnounced, NewlyHinted, NewlyLost;
  }

  lemma {:induction false} StepKeepsInv(s: State, a: Action)
    requires Enabled(s, a) && Inv(s)
    ensures Inv(Apply(s, a))
  {
    hide Enabled, NextQueues, NextObservers, NextStore, NextSessions;
    hide NewlyPushed, NewlyAnnounced, NewlyHinted, NewlyLost;
    hide NoEmptyCollections, WaitersKnown, ObserversConsistent, PendingUnwatched, PendingBounded;
    StepKeepsStore(s, a);
    StepKeepsObservers(s, a);
    StepKeepsWaiters(s, a);
    StepKeepsPending(s, a);
    StepKeepsBounds(s, a);
  }

  lemma {:induction false} RunKeepsInv(s: State, run: seq<Action>)
    requires Inv(s) && ValidRun(s, run)
    ensures Inv(After(s, run))
    decreases |run|
  {
    hide Enabled, Apply, Inv;
    if run != [] {
      StepKeepsInv(s, run[0]);
      RunKeepsInv(Apply(s, run[0]), run[1..]);
    }
  }

  lemma {:induction false} RunKeepsElements(s: State, run: seq<Action>)
    requires Inv(s) && ElementsConserved(s) && ValidRun(s, run)
    ensures ElementsConserved(After(s, run))
    decreases |run|
  {
    hide Enabled, Apply, Inv, ElementsConserved;
    if run != [] {
      StepKeepsInv(s, run[0]);
      StepKeepsElements(s, run[0]);
      RunKeepsElements(Apply(s, run[0]), run[1..]);
    }
  }

  lemma {:induction false} InitialInv(hint: bool)
    ensures Inv(Initial(hint)) && ElementsConserved(Initial(hint))
    ensures forall key :: SignalsConserved(Initial(hint), key)
  {
  }

  /**
    In every interleaving, the elements pushed onto lists are exactly those still
    stored plus those recorded in the results of pop-type observers: nothing is
    lost to a race with time-out, unblock or disposal, and nothing is delivered twice.
   */
  lemma {:induction false} ElementsNeverLost(hint: bool, run: seq<Action>)
    requires ValidRun(Initial(hint), run)
    ensures
      var s := After(Initial(hint), run);
      s.pushed == ListElements(s.store) + MapSums.Sum(s.observers, CarriedBy)
  {
    InitialInv(hint);
    RunKeepsElements(Initial(hint), run);
  }

  /** What never changes back: who the observers are, and what a finished one was given. */
  ghost predicate Progress(s: State, t: State) {
    forall o :: o in s.observers ==> o in t.observers && Aged(s.observers[o], t.observers[o])
  }

  /** The same for one observer. */
  ghost predicate Aged(before: Observer, after: Observer) {
    && after.command == before.command
    && (after.Receptive() ==> before.Receptive())
    && (!before.status.Waiting? ==> after.status == before.status && after.result == before.result)
  }

  /** The one observer a step changes only ages. */
  lemma {:induction false} ChangedAges(s: State, a: Action)
    requires Enabled(s, a) && Changed(s, a).Some?
    ensures
      var (o, obs) := Changed(s, a).value;
      o in s.observers ==> Aged(s.observers[o], obs)
  {
    hide Delivered;
  }

  lemma {:induction false} StepProgress(s: State, a: Action)
    requires Enabled(s, a)
    ensures Progress(s, Apply(s, a))
  {
    hide NextQueues, NextStore, NextSessions, Delivered, NewlyPushed, NewlyAnnounced, NewlyHinted, NewlyLost;
  }

  lemma {:induction false} RunProgress(s: State, run: seq<Action>)
    requires ValidRun(s, run)
    ensures Progress(s, After(s, run))
    decreases |run|
  {
    hide Enabled, Apply;
    if run != [] {
      StepProgress(s, run[0]);
      RunProgress(Apply(s, run[0]), run[1..]);
    }
  }

  /** An observer finishes at most once: whatever happens later, its status and result stay. */
  lemma {:induction false} ResultsAreFinal(s: State, run: seq<Action>, o: ObserverId)
    requires ValidRun(s, run) && o in s.observers && !s.observers[o].status.Waiting?
    ensures o in After(s, run).observers
    ensures After(s, run).observers[o].status == s.observers[o].status
    ensures After(s, run).observers[o].result == s.observers[o].result
  {
    RunProgress(s, run);
  }

  /** Whatever a waiter hands to its client is the finished observer's recorded result. */
  lemma {:induction false} ReturnedIsTheResult(hint: bool, run: seq<Action>, o: ObserverId)
    requires ValidRun(Initial(hint), run)
    requires o in After(Initial(hint), run).observers && After(Initial(hint), run).observers[o].returned.Some?
    ensures
      var obs := After(Initial(hint), run).observers[o];
      !obs.status.Waiting? && obs.returned == Some(obs.result)
  {
    InitialInv(hint);
    RunKeepsInv(Initial(hint), run);
  }

  /** A key with pending signals never has a receptive waiter queued. */
  lemma {:induction false} PendingNeverWatched(hint: bool, run: seq<Action>, key: Key, o: ObserverId)
    requires ValidRun(Initial(hint), run)
    ensures
      var s := After(Initial(hint), run);
      key in s.queues && s.queues[key].pending > 0 && o in s.queues[key].waiters ==> !s.Receptive(o)
  {
    InitialInv(hint);
    RunKeepsInv(Initial(hint), run);
  }

  /** No announcement of the run pushes the pending count past the largest machine word. */
  predicate NeverSaturates(s: State, run: seq<Action>, key: Key)
    requires ValidRun(s, run)
    decreases |run|
  {
    run == [] || (
      && (run[0].AddPending? && run[0].key == key ==> s.queues[key].pending + run[0].n <= MAX_SIGNALS)
      && NeverSaturates(Apply(s, run[0]), run[1..], key))
  }

  lemma {:induction false} StepLoses(s: State, a: Action, key: Key)
    requires Enabled(s, a)
    ensures Apply(s, a).lost[key] >= s.lost[key]
    ensures Apply(s, a).lost[key] == s.lost[key] <==>
      (a.AddPending? && a.key == key ==> s.queues[key].pending + a.n <= MAX_SIGNALS)
  {
    hide NextQueues, NextStore, NextSessions, NextObservers, NewlyPushed, NewlyAnnounced, NewlyHinted;
  }

  lemma {:induction false} RunLoses(s: State, run: seq<Action>, key: Key)
    requires ValidRun(s, run)
    ensures After(s, run).lost[key] >= s.lost[key]
    ensures After(s, run).lost[key] == s.lost[key] <==> NeverSaturates(s, run, key)
    decreases |run|
  {
    hide Enabled, Apply;
    if run != [] {
      StepLoses(s, run[0], key);
      RunLoses(Apply(s, run[0]), run[1..], key);
    }
  }

  lemma {:induction false} RunKeepsSignals(s: State, run: seq<Action>, key: Key)
    requires Inv(s) && SignalsConserved(s, key) && ValidRun(s, run)
    ensures SignalsConserved(After(s, run), key)
    decreases |run|
  {
    hide Enabled, Apply, Inv, SignalsConserved;
    if run != [] {
      StepKeepsInv(s, run[0]);
      StepKeepsSignals(s, run[0], key);
      RunKeepsSignals(Apply(s, run[0]), run[1..], key);
    }
  }

  /**
    In every run, the arrivals announced for a key and the first-registration hints
    given for it are the key updates delivered plus the units still pending, exactly
    when no announcement saturated the pending count.
   */
  lemma {:induction false} SignalsNeverLost(hint: bool, run: seq<Action>, key: Key)
    requires ValidRun(Initial(hint), run)
    ensures
      var s := After(Initial(hint), run);
      s.announced[key] + s.hinted[key] == UpdatesSent(s, key) + Pending(s, key)
      <==> NeverSaturates(Initial(hint), run, key)
  {
    InitialInv(hint);
    RunKeepsSignals(Initial(hint), run, key);
    RunLoses(Initial(hint), run, key);
  }

  /** A step before a run that saturates. */
  lemma {:induction false} SaturatesLater(s: State, a: Action, rest: seq<Action>, key: Key)
    requires Enabled(s, a) && ValidRun(Apply(s, a), rest) && !NeverSaturates(Apply(s, a), rest, key)
    ensures ValidRun(s, [a] + rest) && !NeverSaturates(s, [a] + rest, key)
  {
    hide Enabled, Apply;
    assert ([a] + rest)[1..] == rest;
  }

  lemma {:induction false} Opened(s: State, key: Key)
    requires key !in s.queues
    ensures Enabled(s, OpenEntry(key))
    ensures Apply(s, OpenEntry(key)).hint == s.hint && Apply(s, OpenEntry(key)).queues == s.queues[key := Queue([], 0)]
  {
    hide NextStore, NextSessions, NextObservers, NewlyPushed, NewlyAnnounced, NewlyHinted, NewlyLost;
  }

  lemma {:induction false} FilledUp(s: State, key: Key, n: nat)
    requires s.hint && key in s.queues && s.queues[key] == Queue([], 0) && n <= MAX_SIGNALS
    ensures Enabled(s, AddPending(key, n))
    ensures Apply(s, AddPending(key, n)).hint && Apply(s, AddPending(key, n)).queues == s.queues[key := Queue([], n)]
  {
    hide NextStore, NextSessions, NextObservers, NewlyPushed, NewlyAnnounced, NewlyHinted, NewlyLost;
  }

  lemma {:induction false} OneTooMany(s: State, key: Key)
    requires s.hint && key in s.queues && s.queues[key] == Queue([], MAX_SIGNALS)
    ensures ValidRun(s, [AddPending(key, 1)]) && !NeverSaturates(s, [AddPending(key, 1)], key)
  {
    hide Apply;
    assert [AddPending(key, 1)][1..] == [];
  }

  /** Saturation does happen: one unit too many and the books no longer balance. */
  lemma {:induction false} SaturationWitness(key: Key)
    ensures
      var run := [OpenEntry(key), AddPending(key, MAX_SIGNALS), AddPending(key, 1)];
      ValidRun(Initial(true), run) && !NeverSaturates(Initial(true), run, key)
  {
    hide Apply, Enabled, ValidRun, NeverSaturates;
    var s0 := Initial(true);
    Opened(s0, key);
    var s1 := Apply(s0, OpenEntry(key));
    FilledUp(s1, key, MAX_SIGNALS);
    OneTooMany(Apply(s1, AddPending(key, MAX_SIGNALS)), key);
    SaturatesLater(s1, AddPending(key, MAX_SIGNALS), [AddPending(key, 1)], key);
    SaturatesLater(s0, OpenEntry(key), [AddPending(key, MAX_SIGNALS)] + [AddPending(key, 1)], key);
    assert [OpenEntry(key)] + ([AddPending(key, MAX_SIGNALS)] + [AddPending(key, 1)])
        == [OpenEntry(key), AddPending(key, MAX_SIGNALS), AddPending(key, 1)];
  }

  /**
    A pending unit disappears only by becoming one key update for a receptive
    observer, and an entry that holds pending units is never removed.
   */
  lemma {:induction false} PendingUnitsAccounted(s: State, a: Action, key: Key)
    requires Enabled(s, a) && PendingBounded(s) && key in s.queues && s.queues[key].pending > 0
    ensures key in Apply(s, a).queues
    ensures Apply(s, a).queues[key].pending >= s.queues[key].pending - 1
    ensures Apply(s, a).queues[key].pending < s.queues[key].pending ==>
      Delivered(s, a).Deliver? && Delivered(s, a).result == KeyUpdate(key)
  {
    hide Attempted, NextStore, NextSessions, NextObservers, NewlyPushed, NewlyAnnounced, NewlyHinted, NewlyLost;
  }

  // ----- First in, first served --------------------------------------------

  /** `first` is queued on the key, and `later` is nowhere before it. */
  predicate Ahead(s: State, key: Key, first: ObserverId, later: ObserverId) {
    key in s.queues && AheadIn(s.queues[key].waiters, first, later)
  }

  predicate AheadIn(waiters: seq<ObserverId>, first: ObserverId, later: ObserverId) {
    waiters != [] && waiters[0] != later && (waiters[0] == first || AheadIn(waiters[1..], first, later))
  }

  /** The step finishes the observer with something taken from the key. */
  predicate ServesFrom(s: State, a: Action, key: Key, o: ObserverId)
    requires Enabled(s, a)
  {
    && Delivered(s, a).Deliver?
    && Delivered(s, a).o == o
    && a.key == key
  }

  lemma {:induction false} AheadAppend(waiters: seq<ObserverId>, first: ObserverId, later: ObserverId, o: ObserverId)
    requires AheadIn(waiters, first, later)
    ensures AheadIn(waiters + [o], first, later)
    decreases |waiters|
  {
    if waiters[0] != first {
      AheadAppend(waiters[1..], first, later, o);
      assert (waiters + [o])[1..] == waiters[1..] + [o];
    }
  }

  lemma {:induction false} AheadRetain(s: State, waiters: seq<ObserverId>, first: ObserverId, later: ObserverId)
    requires AheadIn(waiters, first, later) && s.Receptive(first)
    ensures AheadIn(Retain(s, waiters), first, later)
    decreases |waiters|
  {
    if waiters[0] != first {
      AheadRetain(s, waiters[1..], first, later);
    }
    if s.Receptive(waiters[0]) {
      assert Retain(s, waiters)[1..] == Retain(s, waiters[1..]);
    }
  }

  lemma {:induction false} AheadWithout(waiters: seq<ObserverId>, first: ObserverId, later: ObserverId, o: ObserverId)
    requires AheadIn(waiters, first, later) && o != first
    ensures AheadIn(Without(waiters, o), first, later)
    decreases |waiters|
  {
    if waiters[0] != first {
      AheadWithout(waiters[1..], first, later, o);
    }
    if waiters[0] != o {
      assert Without(waiters, o)[1..] == Without(waiters[1..], o);
    }
  }

  lemma {:induction false} AheadMember(waiters: seq<ObserverId>, first: ObserverId, later: ObserverId)
    requires AheadIn(waiters, first, later)
    ensures first in waiters
    decreases |waiters|
  {
    if waiters[0] != first {
      AheadMember(waiters[1..], first, later);
    }
  }

  /** While the earlier observer stays receptive, the later one is not served from the key. */
  lemma {:induction false} StepServesInOrder(s: State, a: Action, key: Key, first: ObserverId, later: ObserverId)
    requires Enabled(s, a) && Ahead(s, key, first, later)
    ensures !ServesFrom(s, a, key, later)
  {
    hide Attempted;
  }

  /** While the earlier observer stays receptive, it keeps its place. */
  lemma {:induction false} StepKeepsOrder(s: State, a: Action, key: Key, first: ObserverId, later: ObserverId)
    requires Enabled(s, a) && Ahead(s, key, first, later)
    requires s.Receptive(first) && Apply(s, a).Receptive(first)
    ensures Ahead(Apply(s, a), key, first, later)
  {
    hide NextStore, NextSessions, NewlyPushed, NewlyAnnounced, NewlyHinted, NewlyLost, Delivered;
    var waiters := s.queues[key].waiters;
    if a.AssignHead? || a.NotifyHead? {
      hide Enabled, NextQueues, NextObservers;
      PopKeepsOrder(s, a, key, first, later);
    } else {
      hide NextObservers;
      match a {
        case Compress(k) =>
          if k == key {
            AheadRetain(s, waiters, first, later);
          }
        case Mount(o, k) =>
          if k == key {
            AheadAppend(waiters, first, later, o);
          }
        case Deregister(o, k) =>
          if k == key {
            AheadWithout(waiters, first, later, o);
          }
        case _ =>
      }
    }
  }

  /** A step that pops the head pops somebody else while the earlier observer stays receptive. */
  lemma {:induction false} PopKeepsOrder(s: State, a: Action, key: Key, first: ObserverId, later: ObserverId)
    requires Enabled(s, a) && Ahead(s, key, first, later) && (a.AssignHead? || a.NotifyHead?)
    requires s.Receptive(first) && Apply(s, a).Receptive(first)
    ensures Ahead(Apply(s, a), key, first, later)
  {
    hide NextStore, NextSessions, NewlyPushed, NewlyAnnounced, NewlyHinted, NewlyLost, Attempted;
    assert s.queues[key].waiters[0] == first && a.key == key ==> a.AssignHead? && Delivered(s, a).Nothing?;
  }

  /** Some step of the run serves the observer from the key. */
  predicate EverServes(s: State, run: seq<Action>, key: Key, o: ObserverId)
    requires ValidRun(s, run)
    decreases |run|
  {
    run != [] && (ServesFrom(s, run[0], key, o) || EverServes(Apply(s, run[0]), run[1..], key, o))
  }

  /**
    A queued observer that is still receptive at the end of a run was never
    overtaken: nobody queued behind it, or queued later, was served from the key.
   */
  lemma {:induction false} FirstComeFirstServed(
    s: State, run: seq<Action>, key: Key, first: ObserverId, later: ObserverId)
    requires WaitersKnown(s) && ValidRun(s, run)
    requires Ahead(s, key, first, later) && After(s, run).Receptive(first)
    ensures !EverServes(s, run, key, later)
    ensures Ahead(After(s, run), key, first, later)
    decreases |run|
  {
    hide Enabled, Apply, ServesFrom;
    AheadMember(s.queues[key].waiters, first, later);
    if run != [] {
      RunProgress(s, run);
      StepProgress(s, run[0]);
      RunProgress(Apply(s, run[0]), run[1..]);
      StepServesInOrder(s, run[0], key, first, later);
      StepKeepsOrder(s, run[0], key, first, later);
      StepKeepsWaiters(s, run[0]);
      FirstComeFirstServed(Apply(s, run[0]), run[1..], key, first, later);
    }
  }
}
