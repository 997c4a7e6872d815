/**
  The blocking broker as a machine of atomic steps.

  Steps of the first group take no broker lock and may happen between any two
  others: pushes, time-outs, CLIENT UNBLOCK, session disposal, a receiver going
  away, and the waiter picking up its value.  Steps of the second group are what
  the code does, one observer or one queue at a time, while it holds
  `assign_lock`.  A run is any list of enabled steps, so it covers every
  interleaving of the two groups.
 */
module BrokerMachine {
  import opened Common
  import opened Provider

  type ObserverId = nat
  type SessionId = nat

  /** `usize::MAX`: pending signals saturate here. */
  const MAX_SIGNALS: nat := 0xFFFF_FFFF_FFFF_FFFF

  datatype Status = Waiting | ResultSet | SessionDisposed

  /**
    A blocked command.  `outbox` holds a value between the moment the result is
    set and the moment it is put in the one-slot channel; `returned` is what the
    waiting task finally hands to its client.
   */
  datatype Observer = Observer(
    session: SessionId,
    command: Command,
    status: Status,
    result: ItemResult,
    connected: bool,
    outbox: Option<ItemResult>,
    channel: Option<ItemResult>,
    returned: Option<ItemResult>)
  {
    predicate Receptive() {
      status.Waiting? && connected
    }

    function Finish(r: ItemResult): Observer {
      this.(status := ResultSet, result := r, outbox := Some(r))
    }

    /** `handle_set_result`, `try_force_unblock`: first one to finish wins. */
    function SetResult(r: ItemResult): Observer {
      if status.Waiting? then Finish(r) else this
    }

    function Disposed(): Observer {
      if status.Waiting? then this.(status := SessionDisposed, outbox := Some(Empty)) else this
    }

    /** Every value on its way to the waiter is the recorded result. */
    ghost predicate Consistent() {
      && (status.Waiting? ==> result == Empty && outbox.None? && channel.None? && returned.None?)
      && (status.SessionDisposed? ==> result == Empty)
      && (outbox.Some? ==> outbox.value == result)
      && (channel.Some? ==> channel.value == result)
      && (returned.Some? ==> returned.value == result)
    }
  }

  datatype Queue = Queue(waiters: seq<ObserverId>, pending: nat)

  /**
    The broker's state, and the history the conservation laws speak of: every
    list element ever pushed, and by key every arrival announced on an existing
    entry, every first-registration hint, and every arrival lost to saturation.
   */
  datatype State = State(
    hint: bool,
    queues: map<Key, Queue>,
    sessions: map<SessionId, ObserverId>,
    observers: map<ObserverId, Observer>,
    store: Store,
    pushed: multiset<Elem>,
    announced: multiset<Key>,
    hinted: multiset<Key>,
    lost: multiset<Key>)
  {
    predicate Receptive(o: ObserverId) {
      o in observers && observers[o].Receptive()
    }

    predicate NoWaiters(key: Key) {
      key in queues ==> queues[key].waiters == []
    }
  }

  function Initial(hint: bool): State {
    State(hint, map[], map[], map[], map[], multiset{}, multiset{}, multiset{}, multiset{})
  }

  datatype Action =
    // without the broker lock
    | Push(key: Key, value: Elem, dir: Direction)
    | PutSorted(key: Key, members: seq<(real, Elem)>)
    | Create(o: ObserverId, session: SessionId, command: Command)
    | TimeOut(o: ObserverId)
    | Unblock(session: SessionId, throwError: bool)
    | Dispose(session: SessionId)
    | Disconnect(o: ObserverId)
    | Send(o: ObserverId)
    | Receive(o: ObserverId)
    | ReturnResult(o: ObserverId)
    // holding the broker lock
    | AssignHead(key: Key)
    | NotifyHead(key: Key)
    | AddPending(key: Key, n: nat)
    | Collect(key: Key)
    | Compress(key: Key)
    | ProbeData(o: ObserverId, key: Key)
    | ProbeSignal(o: ObserverId, key: Key)
    | OpenEntry(key: Key)
    | ProbeHint(o: ObserverId, key: Key)
    | Mount(o: ObserverId, key: Key)
    | Deregister(o: ObserverId, key: Key)
    | CleanSessions

  predicate Unlocked(a: Action) {
    a.Push? || a.PutSorted? || a.Create? || a.TimeOut? || a.Unblock? || a.Dispose? || a.Disconnect? || a.Send? ||
    a.Receive? || a.ReturnResult?
  }

  function Retain(s: State, waiters: seq<ObserverId>): (r: seq<ObserverId>)
    ensures forall o :: o in r <==> o in waiters && s.Receptive(o)
  {
    if waiters == [] then []
    else if s.Receptive(waiters[0]) then [waiters[0]] + Retain(s, waiters[1..])
    else Retain(s, waiters[1..])
  }

  function Without(waiters: seq<ObserverId>, o: ObserverId): (r: seq<ObserverId>)
    ensures forall p :: p in r <==> p in waiters && p != o
  {
    if waiters == [] then []
    else if waiters[0] == o then Without(waiters[1..], o)
    else [waiters[0]] + Without(waiters[1..], o)
  }

  /** When a step may happen. */
  predicate Enabled(s: State, a: Action) {
    match a
    case Push(_, _, _) => true
    case PutSorted(key, members) => members != [] && (key in s.store ==> s.store[key].SortedSet?)
    case Create(o, _, _) => o !in s.observers
    case TimeOut(o) => o in s.observers
    case Unblock(session, _) => session in s.sessions && s.sessions[session] in s.observers
    case Dispose(session) => session in s.sessions && s.sessions[session] in s.observers
    case Disconnect(o) => o in s.observers
    case Send(o) => o in s.observers && s.observers[o].outbox.Some?
    case Receive(o) => o in s.observers && s.observers[o].channel.Some? && s.observers[o].returned.None?
    case ReturnResult(o) => o in s.observers && !s.observers[o].status.Waiting? && s.observers[o].returned.None?
    case AssignHead(key) => key in s.queues && s.queues[key].waiters != [] && NoEmptyCollections(s.store)
    case NotifyHead(key) => key in s.queues && s.queues[key].waiters != []
    case AddPending(key, _) => key in s.queues && s.queues[key].waiters == [] && s.hint
    case Collect(key) => key in s.queues && s.queues[key] == Queue([], 0)
    case Compress(key) => key in s.queues
    case ProbeData(o, key) => o in s.observers && s.NoWaiters(key) && NoEmptyCollections(s.store)
    case ProbeSignal(o, key) => o in s.observers && key in s.queues && s.NoWaiters(key) && s.queues[key].pending > 0
    case OpenEntry(key) => key !in s.queues
    case ProbeHint(o, key) => o in s.observers && s.NoWaiters(key) && s.hint
    case Mount(o, key) =>
      && o in s.observers
      && (s.Receptive(o) && key in s.queues ==> s.queues[key].pending == 0)
    case Deregister(o, key) => key in s.queues && o in s.observers && !s.observers[o].status.Waiting?
    case CleanSessions => true
  }

  /** The one result a locked step may hand out, and the store after handing it out. */
  datatype Delivery = Nothing | Deliver(o: ObserverId, result: ItemResult, after: Store)

  /** One provider attempt for an observer, made only while it can still be finished. */
  function Attempted(s: State, o: ObserverId, key: Key, failOnMismatch: bool): (d: Delivery)
    requires NoEmptyCollections(s.store)
    ensures d.Deliver? ==> d.o == o && s.Receptive(o)
  {
    if !s.Receptive(o) then Nothing
    else
      match TryServe(s.store, key, s.observers[o].command, failOnMismatch)
      case Miss => Nothing
      case Hit(r, after) => Deliver(o, r, after)
  }

  function Signalled(s: State, o: ObserverId, key: Key): Delivery {
    if s.Receptive(o) then Deliver(o, KeyUpdate(key), s.store) else Nothing
  }

  /** Only a receptive observer is ever finished by a locked step. */
  function Delivered(s: State, a: Action): (d: Delivery)
    requires Enabled(s, a)
    ensures d.Deliver? ==> s.Receptive(d.o)
  {
    match a
    case AssignHead(key) => Attempted(s, s.queues[key].waiters[0], key, false)
    case ProbeData(o, key) => Attempted(s, o, key, true)
    case NotifyHead(key) => Signalled(s, s.queues[key].waiters[0], key)
    case ProbeSignal(o, key) => Signalled(s, o, key)
    case ProbeHint(o, key) => Signalled(s, o, key)
    case _ => Nothing
  }

  /** What an unlocked step does to the observer it concerns. */
  function Unaided(s: State, a: Action): Option<(ObserverId, Observer)>
    requires Enabled(s, a)
  {
    match a
    case Create(o, session, command) => Some((o, Observer(session, command, Waiting, Empty, true, None, None, None)))
    case TimeOut(o) => Some((o, s.observers[o].SetResult(Empty)))
    case Unblock(session, throwError) =>
      var o := s.sessions[session];
      Some((o, s.observers[o].SetResult(if throwError then ForceUnblocked else Empty)))
    case Dispose(session) => Some((s.sessions[session], s.observers[s.sessions[session]].Disposed()))
    case Disconnect(o) => Some((o, s.observers[o].(connected := false)))
    case Send(o) =>
      var obs := s.observers[o];
      Some((o, obs.(outbox := None, channel := if obs.connected then obs.outbox else obs.channel)))
    case Receive(o) => Some((o, s.observers[o].(returned := s.observers[o].channel, connected := false)))
    case ReturnResult(o) => Some((o, s.observers[o].(returned := Some(s.observers[o].result), connected := false)))
    case _ => None
  }

  /** The one observer a step may change. */
  function Changed(s: State, a: Action): Option<(ObserverId, Observer)>
    requires Enabled(s, a)
  {
    match Delivered(s, a)
    case Deliver(o, r, _) => Some((o, s.observers[o].Finish(r)))
    case Nothing => Unaided(s, a)
  }

  function NextObservers(s: State, a: Action): map<ObserverId, Observer>
    requires Enabled(s, a)
  {
    match Changed(s, a)
    case None => s.observers
    case Some((o, obs)) => s.observers[o := obs]
  }

  function Tail(q: Queue): Queue
    requires q.waiters != []
  {
    q.(waiters := q.waiters[1..])
  }

  function NextQueues(s: State, a: Action): map<Key, Queue>
    requires Enabled(s, a)
  {
    match a
    case AssignHead(key) =>
      // a receptive head that cannot be served stays first in line
      if s.Receptive(s.queues[key].waiters[0]) && Delivered(s, a).Nothing? then s.queues
      else s.queues[key := Tail(s.queues[key])]
    case NotifyHead(key) => s.queues[key := Tail(s.queues[key])]
    case AddPending(key, n) => s.queues[key := s.queues[key].(pending := Min(s.queues[key].pending + n, MAX_SIGNALS))]
    case Collect(key) => s.queues - {key}
    case Compress(key) => s.queues[key := s.queues[key].(waiters := Retain(s, s.queues[key].waiters))]
    case ProbeSignal(o, key) =>
      if s.Receptive(o) then s.queues[key := s.queues[key].(pending := s.queues[key].pending - 1)] else s.queues
    case OpenEntry(key) => s.queues[key := Queue([], 0)]
    case Mount(o, key) =>
      var q := if key in s.queues then s.queues[key] else Queue([], 0);
      s.queues[key := q.(waiters := q.waiters + [o])]
    case Deregister(o, key) => s.queues[key := s.queues[key].(waiters := Without(s.queues[key].waiters, o))]
    case _ => s.queues
  }

  function NextSessions(s: State, a: Action): map<SessionId, ObserverId>
    requires Enabled(s, a)
  {
    match Delivered(s, a)
    case Deliver(o, _, _) => s.sessions - {s.observers[o].session}
    case Nothing =>
      match a
      case Create(o, session, _) => s.sessions[session := o]
      case Unblock(session, _) => s.sessions - {session}
      case Dispose(session) => s.sessions - {session}
      case Receive(o) => s.sessions - {s.observers[o].session}
      case ReturnResult(o) => s.sessions - {s.observers[o].session}
      case CleanSessions => map x | x in s.sessions && s.Receptive(s.sessions[x]) :: s.sessions[x]
      case _ => s.sessions
  }

  function NextStore(s: State, a: Action): Store
    requires Enabled(s, a)
  {
    match a
    case Push(key, value, dir) =>
      (match Pushed(s.store, key, value, dir)
       case Some(after) => after
       case None => s.store)
    case PutSorted(key, members) => s.store[key := SortedSet(members)]
    case _ =>
      match Delivered(s, a)
      case Nothing => s.store
      case Deliver(_, _, after) => after
  }

  function Copies(key: Key, n: nat): multiset<Key> {
    multiset{}[key := n]
  }

  function NewlyPushed(s: State, a: Action): multiset<Elem> {
    if a.Push? && Pushed(s.store, a.key, a.value, a.dir).Some? then multiset{a.value} else multiset{}
  }

  function NewlyAnnounced(s: State, a: Action): multiset<Key>
    requires Enabled(s, a)
  {
    if a.NotifyHead? && Delivered(s, a).Deliver? then multiset{a.key}
    else if a.AddPending? then Copies(a.key, a.n)
    else multiset{}
  }

  function NewlyHinted(s: State, a: Action): multiset<Key>
    requires Enabled(s, a)
  {
    if a.ProbeHint? && Delivered(s, a).Deliver? then multiset{a.key} else multiset{}
  }

  function NewlyLost(s: State, a: Action): multiset<Key>
    requires Enabled(s, a)
  {
    if a.AddPending? && s.queues[a.key].pending + a.n > MAX_SIGNALS
    then Copies(a.key, s.queues[a.key].pending + a.n - Min(s.queues[a.key].pending + a.n, MAX_SIGNALS))
    else multiset{}
  }

  function Apply(s: State, a: Action): State
    requires Enabled(s, a)
  {
    State(s.hint,
          NextQueues(s, a),
          NextSessions(s, a),
          NextObservers(s, a),
          NextStore(s, a),
          s.pushed + NewlyPushed(s, a),
          s.announced + NewlyAnnounced(s, a),
          s.hinted + NewlyHinted(s, a),
          s.lost + NewlyLost(s, a))
  }

  // ----- Runs --------------------------------------------------------------

  predicate ValidRun(s: State, run: seq<Action>)
    decreases |run|
  {
    run == [] || (Enabled(s, run[0]) && ValidRun(Apply(s, run[0]), run[1..]))
  }

  function After(s: State, run: seq<Action>): State
    requires ValidRun(s, run)
    decreases |run|
  {
    if run == [] then s else After(Apply(s, run[0]), run[1..])
  }

  lemma {:induction false} RunAppend(s: State, first: seq<Action>, second: seq<Action>)
    requires ValidRun(s, first) && ValidRun(After(s, first), second)
    ensures ValidRun(s, first + second) && After(s, first + second) == After(After(s, first), second)
    decreases |first|
  {
    hide Apply, Enabled;
    if first == [] {
      assert first + second == second;
    } else {
      RunAppend(Apply(s, first[0]), first[1..], second);
      assert (first + second)[1..] == first[1..] + second;
    }
  }

  /** A run can be cut at any point. */
  lemma {:induction false} RunSplit(s: State, first: seq<Action>, second: seq<Action>)
    requires ValidRun(s, first + second)
    ensures ValidRun(s, first) && ValidRun(After(s, first), second)
    ensures After(s, first + second) == After(After(s, first), second)
    decreases |first|
  {
    hide Apply, Enabled;
    if first == [] {
      assert first + second == second;
    } else {
      assert (first + second)[1..] == first[1..] + second;
      RunSplit(Apply(s, first[0]), first[1..], second);
    }
  }
}
