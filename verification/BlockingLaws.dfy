/**
  What the blocking commands hand out: why an observer has the result it has, what
  its client gets, and who can still be found by session.
 */
module BrokerLaws {
  import opened Common
  import opened Provider
  import opened BrokerMachine
  import opened BrokerSafety

  // ----- Why a result is what it is ----------------------------------------

  /** The store has an answer for the observer's command on a key, and it is this one. */
  ghost predicate Given(s: State, o: ObserverId, key: Key, failOnMismatch: bool, r: ItemResult)
    requires NoEmptyCollections(s.store) && o in s.observers
  {
    var attempt := TryServe(s.store, key, s.observers[o].command, failOnMismatch);
    s.observers[o].connected && attempt.Hit? && attempt.result == r
  }

  /**
    A step that ends the wait of an observer, with the status and the result it gives.  Only a client
    that is still there is given items or signals.
   */
  ghost predicate Ends(s: State, a: Action, o: ObserverId, status: Status, r: ItemResult)
    requires NoEmptyCollections(s.store)
  {
    && Enabled(s, a) && o in s.observers && s.observers[o].status.Waiting?
    && match a
       case TimeOut(p) => p == o && status == ResultSet && r == Empty
       case Unblock(session, throwError) =>
         s.sessions[session] == o && status == ResultSet && r == if throwError then ForceUnblocked else Empty
       case Dispose(session) => s.sessions[session] == o && status == SessionDisposed && r == Empty
       case AssignHead(key) => s.queues[key].waiters[0] == o && status == ResultSet && Given(s, o, key, false, r)
       case ProbeData(p, key) => p == o && status == ResultSet && Given(s, o, key, true, r)
       case NotifyHead(key) =>
         s.queues[key].waiters[0] == o && s.observers[o].connected && status == ResultSet && r == KeyUpdate(key)
       case ProbeSignal(p, key) => p == o && s.observers[o].connected && status == ResultSet && r == KeyUpdate(key)
       case ProbeHint(p, key) => p == o && s.observers[o].connected && status == ResultSet && r == KeyUpdate(key)
       case _ => false
  }

  /** A delivery ends the wait of the observer it goes to. */
  lemma {:induction false} DeliveryEnds(s: State, a: Action)
    requires Enabled(s, a) && NoEmptyCollections(s.store) && Delivered(s, a).Deliver?
    ensures Ends(s, a, Delivered(s, a).o, ResultSet, Delivered(s, a).result)
  {
    hide TryServe;
  }

  lemma {:induction false} UnaidedEnds(s: State, a: Action)
    requires Enabled(s, a) && Inv(s) && Unaided(s, a).Some?
    ensures
      var (o, obs) := Unaided(s, a).value;
      o in s.observers && s.observers[o].status.Waiting? && !obs.status.Waiting? ==>
        Ends(s, a, o, obs.status, obs.result)
  {
    var o := Unaided(s, a).value.0;
    assert o in s.observers ==> s.observers[o].Consistent();
    hide Inv;
  }

  /** A step leaves an observer waiting, or it ends the wait in one of these ways. */
  lemma {:induction false} StepEnds(s: State, a: Action, o: ObserverId)
    requires Enabled(s, a) && Inv(s) && o in s.observers && s.observers[o].status.Waiting?
    ensures o in NextObservers(s, a)
    ensures
      var obs := NextObservers(s, a)[o];
      !obs.status.Waiting? <==> Ends(s, a, o, obs.status, obs.result)
  {
    hide Delivered, Unaided, Enabled, Ends, NoEmptyCollections, ObserversConsistent, WaitersKnown, PendingUnwatched;
    if Delivered(s, a).Deliver? {
      DeliveryEnds(s, a);
    } else if Unaided(s, a).Some? {
      UnaidedEnds(s, a);
    }
    EndsFinishes(s, a, o, NextObservers(s, a)[o].status, NextObservers(s, a)[o].result);
  }

  lemma {:induction false} EndsFinishes(s: State, a: Action, o: ObserverId, status: Status, r: ItemResult)
    requires NoEmptyCollections(s.store)
    ensures Ends(s, a, o, status, r) ==> !status.Waiting?
  {
    hide Given, Enabled;
  }

  ghost predicate EndsAt(hint: bool, run: seq<Action>, i: nat, o: ObserverId, status: Status, r: ItemResult) {
    && i < |run| && ValidRun(Initial(hint), run[..i])
    && NoEmptyCollections(After(Initial(hint), run[..i]).store)
    && Ends(After(Initial(hint), run[..i]), run[i], o, status, r)
  }

  /** What held of a run holds of a longer one. */
  lemma {:induction false} EndsLonger(
    hint: bool, front: seq<Action>, a: Action, i: nat, o: ObserverId, status: Status, r: ItemResult)
    requires EndsAt(hint, front, i, o, status, r)
    ensures EndsAt(hint, front + [a], i, o, status, r)
  {
    hide Ends, ValidRun, After;
    assert (front + [a])[..i] == front[..i] && (front + [a])[i] == front[i];
  }

  lemma {:induction false} EndsLast(
    hint: bool, front: seq<Action>, a: Action, o: ObserverId, status: Status, r: ItemResult)
    requires ValidRun(Initial(hint), front) && NoEmptyCollections(After(Initial(hint), front).store)
    requires Ends(After(Initial(hint), front), a, o, status, r)
    ensures EndsAt(hint, front + [a], |front|, o, status, r)
  {
    hide Ends, ValidRun, After;
    assert (front + [a])[..|front|] == front;
  }

  /** The last step of a run ended the wait, or it had ended before. */
  lemma {:induction false} EndedByNow(hint: bool, front: seq<Action>, a: Action, o: ObserverId)
    requires ValidRun(Initial(hint), front + [a])
    requires
      var t := After(Initial(hint), front + [a]);
      o in t.observers && !t.observers[o].status.Waiting?
    ensures ValidRun(Initial(hint), front)
    ensures
      var s, obs := After(Initial(hint), front), After(Initial(hint), front + [a]).observers[o];
      && o in s.observers
      && if s.observers[o].status.Waiting? then EndsAt(hint, front + [a], |front|, o, obs.status, obs.result)
         else s.observers[o].status == obs.status && s.observers[o].result == obs.result
  {
    RunSplit(Initial(hint), front, [a]);
    InitialInv(hint);
    RunKeepsInv(Initial(hint), front);
    hide ValidRun, After, Ends, EndsAt, Enabled, Apply, Inv;
    var s, obs := After(Initial(hint), front), After(Initial(hint), front + [a]).observers[o];
    LastStep(s, a);
    CauseInStep(s, a, o);
    if s.observers[o].status.Waiting? {
      EndsLast(hint, front, a, o, obs.status, obs.result);
    }
  }

  lemma {:induction false} NobodyAtFirst(hint: bool)
    ensures ValidRun(Initial(hint), []) && After(Initial(hint), []).observers == map[]
  {
  }

  /** In every run, whatever an observer ended with was given to it by one step, for the reason that step has. */
  lemma {:induction false} EveryResultHasACause(hint: bool, run: seq<Action>, o: ObserverId)
    requires ValidRun(Initial(hint), run)
    requires
      var t := After(Initial(hint), run);
      o in t.observers && !t.observers[o].status.Waiting?
    ensures
      var obs := After(Initial(hint), run).observers[o];
      exists i: nat :: EndsAt(hint, run, i, o, obs.status, obs.result)
    decreases |run|
  {
    NobodyAtFirst(hint);
    hide ValidRun, After, EndsAt;
    if run != [] {
      var front, a := run[..|run| - 1], run[|run| - 1];
      assert run == front + [a];
      EndedByNow(hint, front, a, o);
      var s, obs := After(Initial(hint), front), After(Initial(hint), run).observers[o];
      if !s.observers[o].status.Waiting? {
        EveryResultHasACause(hint, front, o);
        var i: nat :| EndsAt(hint, front, i, o, obs.status, obs.result);
        EndsLonger(hint, front, a, i, o, obs.status, obs.result);
      }
    }
  }

  lemma {:induction false} LastStep(s: State, a: Action)
    requires ValidRun(s, [a])
    ensures Enabled(s, a) && After(s, [a]) == Apply(s, a)
  {
    hide Enabled, Apply;
    assert [a][1..] == [];
  }

  /** An observer that is finished after a step was finished by it, or before it in the same way. */
  lemma {:induction false} CauseInStep(s: State, a: Action, o: ObserverId)
    requires Enabled(s, a) && Inv(s) && o in Apply(s, a).observers && !Apply(s, a).observers[o].status.Waiting?
    ensures NoEmptyCollections(s.store) && o in s.observers
    ensures
      var obs := Apply(s, a).observers[o];
      if s.observers[o].status.Waiting? then Ends(s, a, o, obs.status, obs.result)
      else s.observers[o].status == obs.status && s.observers[o].result == obs.result
  {
    if o !in s.observers {
      NobodyBornFinished(s, a, o);
    } else if s.observers[o].status.Waiting? {
      StepEnds(s, a, o);
    } else {
      StepProgress(s, a);
    }
    hide Ends, NextObservers;
  }

  lemma {:induction false} NobodyBornFinished(s: State, a: Action, o: ObserverId)
    requires Enabled(s, a) && WaitersKnown(s) && o !in s.observers && o in NextObservers(s, a)
    ensures NextObservers(s, a)[o].status.Waiting?
  {
  }

  /**
    Read by result: the unblocking error comes from CLIENT UNBLOCK with ERROR, an empty answer from
    a time-out, an unblocking or a closed session, a key update from a signal on that key, and
    items from a provider call on their key.
   */
  predicate Explains(a: Action, o: ObserverId, r: ItemResult) {
    match r
    case ForceUnblocked => a.Unblock? && a.throwError
    case Empty => a == TimeOut(o) || (a.Unblock? && !a.throwError) || a.Dispose?
    case TypeMismatch => a.AssignHead? || a.ProbeData?
    case KeyUpdate(key) => a == NotifyHead(key) || a == ProbeSignal(o, key) || a == ProbeHint(o, key)
    case Single(key, _) => a == AssignHead(key) || a == ProbeData(o, key)
    case Multi(key, _) => a == AssignHead(key) || a == ProbeData(o, key)
    case SingleScored(key, _, _) => a == AssignHead(key) || a == ProbeData(o, key)
    case MultiScored(key, _, _) => a == AssignHead(key) || a == ProbeData(o, key)
  }

  lemma {:induction false} ResultsExplained(hint: bool, run: seq<Action>, o: ObserverId)
    requires ValidRun(Initial(hint), run) && o in After(Initial(hint), run).observers
    requires !After(Initial(hint), run).observers[o].status.Waiting?
    ensures exists i :: 0 <= i < |run| && Explains(run[i], o, After(Initial(hint), run).observers[o].result)
  {
    EveryResultHasACause(hint, run, o);
    hide ValidRun, After, Explains, Ends;
    var obs := After(Initial(hint), run).observers[o];
    var i: nat :| EndsAt(hint, run, i, o, obs.status, obs.result);
    EndsExplains(After(Initial(hint), run[..i]), run[i], o, obs.status, obs.result);
  }

  lemma {:induction false} EndsExplains(s: State, a: Action, o: ObserverId, status: Status, r: ItemResult)
    requires NoEmptyCollections(s.store) && Ends(s, a, o, status, r)
    ensures Explains(a, o, r)
  {
    if a.AssignHead? {
      ServeAnswers(s.store, a.key, s.observers[o].command, false);
    } else if a.ProbeData? {
      ServeAnswers(s.store, a.key, s.observers[o].command, true);
    }
    hide TryServe;
  }

  // ----- Blocking and being served -----------------------------------------

  /** The steps open to clients are never refused: blocking, pushing, timing out, unblocking, going away. */
  lemma {:induction false} NeverRefused(s: State, o: ObserverId, session: SessionId, command: Command)
    requires Inv(s)
    ensures o !in s.observers ==> Enabled(s, Create(o, session, command))
    ensures o in s.observers ==> Enabled(s, TimeOut(o)) && Enabled(s, Disconnect(o))
    ensures session in s.sessions ==> Enabled(s, Unblock(session, true)) && Enabled(s, Dispose(session))
    ensures o in s.observers && s.observers[o].outbox.Some? ==> Enabled(s, Send(o))
    ensures o in s.observers && !s.observers[o].status.Waiting? && s.observers[o].returned.None? ==>
      Enabled(s, ReturnResult(o))
  {
  }

  /** A client that blocks on a list nobody has pushed to. */
  function Blocked(hint: bool, key: Key): State {
    Initial(hint).(
      queues := map[key := Queue([0], 0)], sessions := map[0 := 0],
      observers := map[0 := Observer(0, PopOne(Left), Waiting, Empty, true, None, None, None)])
  }

  /** A step in front of a run. */
  lemma {:induction false} RunPrepend(s: State, a: Action, t: State, rest: seq<Action>)
    requires Enabled(s, a) && Apply(s, a) == t && ValidRun(t, rest)
    ensures ValidRun(s, [a] + rest) && After(s, [a] + rest) == After(t, rest)
  {
    hide Enabled, Apply;
    assert ([a] + rest)[1..] == rest;
  }

  lemma {:induction false} NoSteps(s: State)
    ensures ValidRun(s, []) && After(s, []) == s
  {
  }

  lemma {:induction false} ClientBlocks(hint: bool, key: Key)
    ensures ValidRun(Initial(hint), [Create(0, 0, PopOne(Left))] + [Mount(0, key)])
    ensures After(Initial(hint), [Create(0, 0, PopOne(Left))] + [Mount(0, key)]) == Blocked(hint, key)
  {
    var s1 := Blocked(hint, key).(queues := map[]);
    StepCreate(hint, key);
    StepMount(hint, key);
    hide Enabled, Apply, ValidRun, After, Blocked;
    NoSteps(Blocked(hint, key));
    RunPrepend(s1, Mount(0, key), Blocked(hint, key), []);
    assert [Mount(0, key)] + [] == [Mount(0, key)];
    RunPrepend(Initial(hint), Create(0, 0, PopOne(Left)), s1, [Mount(0, key)]);
  }

  lemma {:induction false} StepCreate(hint: bool, key: Key)
    ensures Enabled(Initial(hint), Create(0, 0, PopOne(Left)))
    ensures Apply(Initial(hint), Create(0, 0, PopOne(Left))) == Blocked(hint, key).(queues := map[])
  {
  }

  lemma {:induction false} StepMount(hint: bool, key: Key)
    ensures
      var s := Blocked(hint, key).(queues := map[]);
      Enabled(s, Mount(0, key)) && Apply(s, Mount(0, key)) == Blocked(hint, key)
  {
    assert [] + [0] == [0];
  }

  /** The state once the element pushed has been handed to the blocked client. */
  function Handed(hint: bool, key: Key, value: Elem, obs: Observer): State {
    Blocked(hint, key).(
      pushed := multiset{value}, sessions := map[], queues := map[key := Queue([], 0)], observers := map[0 := obs])
  }

  /** Served: the element pushed is what the client gets, and the list is gone again. */
  lemma {:induction false} PushServes(hint: bool, key: Key, value: Elem)
    ensures
      var s := Blocked(hint, key);
      var run := [Push(key, value, Right)] + ([AssignHead(key)] + ([Send(0)] + [Receive(0)]));
      && ValidRun(s, run) && 0 in After(s, run).observers
      && After(s, run).observers[0].returned == Some(Single(key, value))
      && After(s, run).store == map[] && After(s, run).sessions == map[]
  {
    var r := Single(key, value);
    var done := Blocked(hint, key).observers[0].Finish(r);
    var gone := done.(outbox := None, channel := Some(r), returned := Some(r), connected := false);
    assert Handed(hint, key, value, gone).observers == map[0 := gone];
    assert Handed(hint, key, value, gone).store == map[] && Handed(hint, key, value, gone).sessions == map[];
    Handover(hint, key, value);
    PickUp(hint, key, value, done);
    hide Enabled, Apply, ValidRun, After, Blocked, Handed;
    var s1, s2 := Offered(hint, key, value), Handed(hint, key, value, done);
    RunPrepend(s1, AssignHead(key), s2, [Send(0)] + [Receive(0)]);
    RunPrepend(Blocked(hint, key), Push(key, value, Right), s1, [AssignHead(key)] + ([Send(0)] + [Receive(0)]));
  }

  /** The element is there and nobody has been served yet. */
  function Offered(hint: bool, key: Key, value: Elem): State {
    Blocked(hint, key).(store := map[key := List([value])], pushed := multiset{value})
  }

  lemma {:induction false} Handover(hint: bool, key: Key, value: Elem)
    ensures
      var s, s1 := Blocked(hint, key), Offered(hint, key, value);
      && 0 in s.observers && Enabled(s, Push(key, value, Right)) && Apply(s, Push(key, value, Right)) == s1
      && Enabled(s1, AssignHead(key))
      && Apply(s1, AssignHead(key)) == Handed(hint, key, value, s.observers[0].Finish(Single(key, value)))
  {
    StepPush(Blocked(hint, key), key, value);
    StepAssign(Offered(hint, key, value), key, value);
    hide Enabled, Apply;
  }

  lemma {:induction false} PickUp(hint: bool, key: Key, value: Elem, done: Observer)
    requires done.outbox.Some? && done.connected && done.returned.None?
    ensures
      var s, r := Handed(hint, key, value, done), done.outbox;
      var gone := done.(outbox := None, channel := r, returned := r, connected := false);
      ValidRun(s, [Send(0)] + [Receive(0)]) && After(s, [Send(0)] + [Receive(0)]) == Handed(hint, key, value, gone)
  {
    var sent := done.(outbox := None, channel := done.outbox);
    var gone := sent.(returned := done.outbox, connected := false);
    StepSend(hint, key, value, done);
    StepReceive(hint, key, value, sent);
    hide Enabled, Apply, ValidRun, After, Handed;
    NoSteps(Handed(hint, key, value, gone));
    RunPrepend(Handed(hint, key, value, sent), Receive(0), Handed(hint, key, value, gone), []);
    assert [Receive(0)] + [] == [Receive(0)];
    RunPrepend(Handed(hint, key, value, done), Send(0), Handed(hint, key, value, sent), [Receive(0)]);
  }

  lemma {:induction false} StepSend(hint: bool, key: Key, value: Elem, obs: Observer)
    requires obs.outbox.Some? && obs.connected
    ensures Enabled(Handed(hint, key, value, obs), Send(0))
    ensures
      Apply(Handed(hint, key, value, obs), Send(0)) ==
      Handed(hint, key, value, obs.(outbox := None, channel := obs.outbox))
  {
  }

  lemma {:induction false} StepReceive(hint: bool, key: Key, value: Elem, obs: Observer)
    requires obs.channel.Some? && obs.returned.None?
    ensures Enabled(Handed(hint, key, value, obs), Receive(0))
    ensures
      Apply(Handed(hint, key, value, obs), Receive(0)) ==
      Handed(hint, key, value, obs.(returned := obs.channel, connected := false))
  {
  }

  lemma {:induction false} StepPush(s: State, key: Key, value: Elem)
    requires s.store == map[] && s.pushed == multiset{}
    ensures Enabled(s, Push(key, value, Right))
    ensures Apply(s, Push(key, value, Right)) == s.(store := map[key := List([value])], pushed := multiset{value})
  {
    assert [] + [value] == [value];
  }

  lemma {:induction false} StepAssign(s: State, key: Key, value: Elem)
    requires s.store == map[key := List([value])] && s.queues == map[key := Queue([0], 0)] && s.sessions == map[0 := 0]
    requires s.observers == map[0 := Observer(0, PopOne(Left), Waiting, Empty, true, None, None, None)]
    ensures Enabled(s, AssignHead(key))
    ensures
      Apply(s, AssignHead(key)) ==
      s.(store := map[], sessions := map[], queues := map[key := Queue([], 0)],
         observers := map[0 := s.observers[0].Finish(Single(key, value))])
  {
    TakeOne([value], Left);
    assert [value][1..] == [] && [0][1..] == [];
    assert TryServe(s.store, key, PopOne(Left), false) == Hit(Single(key, value), map[]) by {
      assert map[key := List([value])] - {key} == map[];
    }
    hide TryServe;
    assert s.sessions - {0} == map[];
  }

  // ----- The waiting client ------------------------------------------------

  /** A client that picks up its answer gets the recorded result, and a sent result reaches a connected client. */
  lemma {:induction false} AnswerHandedOver(s: State, a: Action)
    requires Enabled(s, a) && Inv(s) && (a.Send? || a.Receive? || a.ReturnResult?)
    ensures
      var before, after := s.observers[a.o], NextObservers(s, a)[a.o];
      && after.status == before.status && after.result == before.result
      && (a.Send? && before.connected ==> after.channel == Some(before.result))
      && (a.Send? && !before.connected ==> after.channel == before.channel)
      && (!a.Send? ==> after.returned == Some(before.result) && !after.connected)
      && forall p :: p in s.observers && p != a.o ==> NextObservers(s, a)[p] == s.observers[p]
  {
    assert s.observers[a.o].Consistent();
    hide Inv;
  }

  /** The observer a step takes out of the session table: the one it delivers to, or whose client has its answer. */
  function Leaving(s: State, a: Action): Option<ObserverId>
    requires Enabled(s, a)
  {
    if Delivered(s, a).Deliver? then Some(Delivered(s, a).o)
    else if a.Receive? || a.ReturnResult? then Some(a.o)
    else None
  }

  /**
    CLIENT UNBLOCK finds a blocked client: while an observer stays receptive its session leads to
    it, until the session blocks again.  It is lost exactly if an older observer of the same
    session leaves meanwhile, which takes a session that had not waited for its answer.
   */
  lemma {:induction false} BlockedStaysKnown(s: State, a: Action, session: SessionId)
    requires Enabled(s, a) && Inv(s) && SessionsOwn(s) && session in s.sessions
    requires Apply(s, a).Receptive(s.sessions[session]) && !(a.Create? && a.session == session)
    ensures
      var o := s.sessions[session];
      && (session in NextSessions(s, a) ==> NextSessions(s, a)[session] == o)
      && (session !in NextSessions(s, a) <==>
            var p := Leaving(s, a);
            p.Some? && p.value != o && p.value in s.observers && s.observers[p.value].session == session)
  {
    hide Leaving, Enabled, Apply, NextSessions, Inv;
    if Leaving(s, a).Some? {
      LeavingDeaf(s, a);
      LeavingSessions(s, a);
    } else {
      StayingSessions(s, a, session);
    }
  }

  /** A session that blocked twice, its first command timed out and the second still waiting. */
  function BlockedTwice(hint: bool, first: Observer): State {
    var second := Observer(0, PopOne(Left), Waiting, Empty, true, None, None, None);
    Initial(hint).(sessions := map[0 := 1], observers := map[0 := first, 1 := second])
  }

  /** The failing input: when the first command's answer is picked up, the session no longer leads to the second. */
  lemma {:induction false} SessionLost(hint: bool)
    ensures
      var run := [Create(0, 0, PopOne(Left))] + ([TimeOut(0)] + ([Create(1, 0, PopOne(Left))] + [ReturnResult(0)]));
      && ValidRun(Initial(hint), run)
      && After(Initial(hint), run).Receptive(1) && 0 !in After(Initial(hint), run).sessions
  {
    var waiting := Observer(0, PopOne(Left), Waiting, Empty, true, None, None, None);
    var done := waiting.Finish(Empty);
    var gone := done.(returned := Some(Empty), connected := false);
    var s0 := Initial(hint);
    var s1 := s0.(sessions := map[0 := 0], observers := map[0 := waiting]);
    var s2 := s0.(sessions := map[0 := 0], observers := map[0 := done]);
    var s3, s4 := BlockedTwice(hint, done), BlockedTwice(hint, gone).(sessions := map[]);
    CreatedFirst(hint);
    TimedOut(hint);
    CreatedSecond(hint, done);
    ReturnedFirst(hint, done);
    assert s4.Receptive(1) && s4.sessions == map[];
    hide Enabled, Apply, ValidRun, After, BlockedTwice;
    NoSteps(s4);
    RunPrepend(s3, ReturnResult(0), s4, []);
    assert [ReturnResult(0)] + [] == [ReturnResult(0)];
    RunPrepend(s2, Create(1, 0, PopOne(Left)), s3, [ReturnResult(0)]);
    RunPrepend(s1, TimeOut(0), s2, [Create(1, 0, PopOne(Left))] + [ReturnResult(0)]);
    RunPrepend(s0, Create(0, 0, PopOne(Left)), s1, [TimeOut(0)] + ([Create(1, 0, PopOne(Left))] + [ReturnResult(0)]));
  }

  lemma {:induction false} CreatedFirst(hint: bool)
    ensures
      var s, waiting := Initial(hint), Observer(0, PopOne(Left), Waiting, Empty, true, None, None, None);
      && Enabled(s, Create(0, 0, PopOne(Left)))
      && Apply(s, Create(0, 0, PopOne(Left))) == s.(sessions := map[0 := 0], observers := map[0 := waiting])
  {
  }

  lemma {:induction false} TimedOut(hint: bool)
    ensures
      var waiting := Observer(0, PopOne(Left), Waiting, Empty, true, None, None, None);
      var s := Initial(hint).(sessions := map[0 := 0], observers := map[0 := waiting]);
      && Enabled(s, TimeOut(0))
      && Apply(s, TimeOut(0)) == s.(observers := map[0 := waiting.Finish(Empty)])
  {
  }

  lemma {:induction false} CreatedSecond(hint: bool, done: Observer)
    ensures
      var s := Initial(hint).(sessions := map[0 := 0], observers := map[0 := done]);
      && Enabled(s, Create(1, 0, PopOne(Left)))
      && Apply(s, Create(1, 0, PopOne(Left))) == BlockedTwice(hint, done)
  {
  }

  lemma {:induction false} ReturnedFirst(hint: bool, done: Observer)
    requires done.session == 0 && !done.status.Waiting? && done.returned.None?
    ensures
      var s, gone := BlockedTwice(hint, done), done.(returned := Some(done.result), connected := false);
      && Enabled(s, ReturnResult(0))
      && Apply(s, ReturnResult(0)) == BlockedTwice(hint, gone).(sessions := map[])
  {
    assert BlockedTwice(hint, done).sessions - {0} == map[];
  }

  lemma {:induction false} LeavingSessions(s: State, a: Action)
    requires Enabled(s, a) && Leaving(s, a).Some?
    ensures Leaving(s, a).value in s.observers
    ensures NextSessions(s, a) == s.sessions - {s.observers[Leaving(s, a).value].session}
  {
    hide Attempted, Signalled;
  }

  lemma {:induction false} StayingSessions(s: State, a: Action, session: SessionId)
    requires Enabled(s, a) && Leaving(s, a).None? && SessionsOwn(s) && session in s.sessions
    requires Apply(s, a).Receptive(s.sessions[session]) && !(a.Create? && a.session == session)
    ensures session in NextSessions(s, a) && NextSessions(s, a)[session] == s.sessions[session]
  {
    StepReceptive(s, a, s.sessions[session]);
    hide Delivered, NextQueues, NextStore, NewlyPushed, NewlyAnnounced, NewlyHinted, NewlyLost;
  }

  /** Who leaves is not receptive any more. */
  lemma {:induction false} LeavingDeaf(s: State, a: Action)
    requires Enabled(s, a) && Inv(s) && Leaving(s, a).Some?
    ensures !Apply(s, a).Receptive(Leaving(s, a).value)
  {
    hide Attempted, NextQueues, NextStore, NextSessions, NewlyPushed, NewlyAnnounced, NewlyHinted, NewlyLost;
  }

  /** A session leads to an observer of its own. */
  ghost predicate SessionsOwn(s: State) {
    forall x :: x in s.sessions ==> s.sessions[x] in s.observers && s.observers[s.sessions[x]].session == x
  }

  lemma {:induction false} RunKeepsSessions(s: State, run: seq<Action>)
    requires ValidRun(s, run) && SessionsOwn(s)
    ensures SessionsOwn(After(s, run))
    decreases |run|
  {
    hide Enabled, Apply, SessionsOwn;
    if run != [] {
      StepKeepsOwn(s, run[0]);
      RunKeepsSessions(Apply(s, run[0]), run[1..]);
    }
  }

  lemma {:induction false} StepKeepsOwn(s: State, a: Action)
    requires Enabled(s, a) && SessionsOwn(s)
    ensures SessionsOwn(Apply(s, a))
  {
    hide NextObservers, NextSessions, NextQueues, NextStore, NewlyPushed, NewlyAnnounced, NewlyHinted, NewlyLost;
    hide Enabled, Leaving;
    SessionFixed(s, a);
    if Leaving(s, a).Some? {
      LeavingSessions(s, a);
    } else {
      SessionsFrom(s, a);
    }
  }

  lemma {:induction false} SessionsFrom(s: State, a: Action)
    requires Enabled(s, a) && Leaving(s, a).None?
    ensures forall x :: x in NextSessions(s, a) ==>
      || (a.Create? && x == a.session && NextSessions(s, a)[x] == a.o)
      || (x in s.sessions && NextSessions(s, a)[x] == s.sessions[x])
  {
    hide Delivered;
  }

  /** No step changes whose session an observer is. */
  lemma {:induction false} SessionFixed(s: State, a: Action)
    requires Enabled(s, a)
    ensures forall o :: o in s.observers ==>
      o in NextObservers(s, a) && NextObservers(s, a)[o].session == s.observers[o].session
    ensures a.Create? ==> a.o in NextObservers(s, a) && NextObservers(s, a)[a.o].session == a.session
  {
    hide Attempted, Signalled;
  }
}
