# Verified model of wedb

A Dafny model of the parts of wedb, a Redis-compatible server, whose behaviour
is hardest to see from the code, with proofs of what they promise.
`dafny verify dfyconfig.toml` checks everything.

- **Blocking commands** (`Blocking*.dfy`). BLPOP, BLMOVE and their relatives wait
  in per-key queues while pushes, time-outs, CLIENT UNBLOCK and disconnects race.
  `BrokerMachine` gives the protocol as guarded steps: a step under the
  assignment lock is atomic, unlocked steps interleave freely, and one provider
  call is one step. `BrokerSafety` and `BrokerLaws` prove what holds over all
  runs, `StoreLaws` what each command takes and leaves. `Broker` is the code
  itself, loops over queues with arbitrary interference from unlocked steps, and
  from all steps where the lock is not held; it keeps a log of machine steps and
  is proved to do nothing the machine does not allow.
- **Cluster configuration** (`Cluster*.dfy`). The slot table, the worker table
  and every administrative command as a change of one configuration value, gossip
  merging with epoch arbitration, routing, and the two saved forms.
  `ClusterManager` changes the tables in place and is proved to compute those
  values; `ClusterEffects` says what each command does to the tables, when it
  succeeds and why it is refused.
- **HyperLogLog** (`Hll*.dfy`, `HyperLogLog.dfy`). A run-length stream and packed
  six-bit registers stand for one array of 16384 registers, which is a function
  of the set of hashes fed. The floating-point estimator is a parameter.
- **Paged list** (`List*.dfy`, `PagedList.dfy`). Pages of at most 64 elements,
  split, merged and drained from both ends, against plain sequences.
- **Glob matching** (`Glob*.dfy`). Backtracking to the last star against a
  declarative relation between tokens and keys, and what patterns say.
- **Hash fields with expiry** (`HashTtl.dfy`, `HashCodec.dfy`). A heap that is
  never cleaned of stale entries, and a table of expiries, against one map.
- **Replication backlog** (`Backlog.dfy`) and **BITPOS** (`BitPos.dfy`). A ring
  against the tail of a log, and word and vector searches against a scan of bits.

Conventions. Clocks, new node identifiers, hash values and the estimator are
parameters. Integers are unbounded except where a width shows: the saturating
pending counter, sixteen-bit worker indices, length fields, six-bit registers.
Node identifiers are canonical and of one length, so they are numbers here; an
empty identifier is an absent one. The ban list is the set of nodes banned at
the fixed time.

What turned out not to hold as one might expect:

- The signal ledger of blocked keys balances only while the pending counter does
  not saturate (`BrokerSafety.SignalsNeverLost`, `SaturationWitness`).
- A claim with epoch 0 skips arbitration and takes any slot
  (`ClusterSafety.OwnSlotChangesWhen`, `EpochZeroTakesSlots`).
- A replica whose primary has no entry of its own in the table answers MOVED with
  its own address (`ClusterSafety.ReplicaNamesItselfWhen`, and a run that gets
  there, `ClusterLaws.ReplicaNamesItself`).
- A session that blocks again before its earlier command has its answer can lose
  its place in the session table (`BrokerLaws.BlockedStaysKnown`, `SessionLost`).
- A primary gives way to a sender with its own epoch even when it does not accept
  the packet, for instance from a banned node (`ClusterLaws.CollisionResolved`,
  `BannedStillFelt`).
- The comment at `wedb_cluster/src/config.rs:526` says claims are skipped when the
  sender's epoch is at least the owner's; the code skips them when the owner's is
  at least the sender's, and the model follows the code.
- A hash key of 2^31 bytes or more does not survive its saved form, because its
  length uses the bit that announces an expiry (`HashCodec.ImageRoundTrip`,
  `LongKeyLost`).
- The comment at `wedb_list/src/list.rs:804` promises repeated LMOVE for a list
  moved to itself as well; the code stops after one full rotation, which is the
  same exactly under the condition of `ListSpec.OneTurnSuffices`
  (`FourthMoveLost` is an input where it is not).
- `process_negative_offset` maps a negative multiple of the length to the length,
  so a BITPOS from there finds nothing and a BITPOS up to there searches
  everything; other negative offsets above minus the length count from the end
  (`BitPos.NegativeOffset`, `NegativeStart`, `NegativeEnd`, with the inputs
  `LastByteMissed` and `FirstByteOverrun`).
- `update_register` does not apply the size cap of the sparse form, so it keeps a
  sketch valid exactly under the condition of
  `HyperLogLogs.HyperLogLog.UpdateRegister`; `HyperLogLogs.CapOutgrown` is a
  sketch it breaks.
- The comment at `wedb_hll/src/lib.rs:454` promises that counting sketches together
  is always merging and counting them; with a wrong cached count read from outside
  bytes it is not (`HyperLogLogs.CountBothWays`, `StaleCacheDisagrees`).

## Model

| member | source | states |
|---|---|---|
| `BrokerSafety.ElementsNeverLost` | wedb_blocking/src/broker.rs:240-292 | In every interleaving, the list elements pushed are exactly those still stored plus those recorded in results of pop-type observers. |
| `BrokerSafety.ResultsAreFinal` | wedb_blocking/src/observer.rs:112-183 | An observer finishes at most once: its status and result never change after it left the waiting state, whatever runs later. |
| `BrokerSafety.RunProgress` | wedb_blocking/src/observer.rs:112-183 | Over any run observers are never forgotten, keep their command, never become receptive again, and finished ones keep their result. |
| `BrokerSafety.ReturnedIsTheResult` | wedb_blocking/src/broker.rs:262-292 | Whatever a waiter returns to its client is the recorded result of its finished observer. |
| `BrokerLaws.EveryResultHasACause` | wedb_blocking/src/broker.rs:240-292 | In every run, the status and result of each finished observer were given by one step: a time-out or an unblocking or a closed session with its own result, a signal on its key, or a provider call whose answer it is. |
| `BrokerLaws.ResultsExplained` | wedb_blocking/src/broker.rs:240-292 | Read by result: the unblocking error only from CLIENT UNBLOCK ERROR, an empty answer only from a time-out, an unblocking or a closed session, a key update only from a signal on that key, items only from a provider call on their key. |
| `BrokerLaws.StepEnds` | wedb_blocking/src/observer.rs:112-183 | A step ends an observer's wait exactly in these ways. |
| `BrokerLaws.AnswerHandedOver` | wedb_blocking/src/broker.rs:262-292 | A result sent reaches a connected client, and a client that picks up its answer gets the recorded result. |
| `BrokerLaws.BlockedStaysKnown` | wedb_blocking/src/broker.rs:161-183 | While an observer stays receptive its session leads to it, until the session blocks again; it is lost exactly when an older observer of the same session leaves. |
| `BrokerLaws.SessionLost` | wedb_blocking/src/broker.rs:288-292 | A run in which a session blocks again after a time-out, and picking up the first answer loses the waiting observer. |
| `BrokerLaws.RunKeepsSessions` | wedb_blocking/src/broker.rs:248-292 | Over any run a session leads to an observer of its own. |
| `BrokerLaws.NeverRefused` | wedb_blocking/src/broker.rs:240-292 | In every sound state a client can block, time out, be unblocked, close or go away, and a finished one can pick up its answer. |
| `BrokerLaws.ClientBlocks` | wedb_blocking/src/broker.rs:340-364 | A run in which a client blocks on a key nobody has pushed to. |
| `BrokerLaws.PushServes` | wedb_blocking/src/broker.rs:131-140 | A run from there in which a push is handed to that client, its answer is the element, and the list is gone. |
| `BrokerSafety.PendingNeverWatched` | wedb_blocking/src/broker.rs:403-448 | In every reachable state a key with pending signals has no receptive waiter queued. |
| `BrokerSafety.SignalsNeverLost` | wedb_blocking/src/broker.rs:403-448 | Announced arrivals plus first-registration hints equal delivered key updates plus pending units, exactly when no announcement of the run saturates the pending counter. |
| `BrokerSafety.SaturationWitness` | wedb_blocking/src/broker.rs:434-441 | A concrete run that saturates the counter, so the ledger law does fail there. |
| `BrokerSafety.PendingUnitsAccounted` | wedb_blocking/src/broker.rs:522-594 | A step takes at most one pending unit, only by delivering one key update, and never removes an entry that holds units. |
| `BrokerSafety.FirstComeFirstServed` | wedb_blocking/src/broker.rs:458-516 | While an observer queued on a key stays receptive, nobody queued behind it or later is served from that key, over any run. |
| `BrokerSafety.StepServesInOrder` | wedb_blocking/src/broker.rs:458-516 | No single step serves an observer from a key while an earlier receptive one is queued there. |
| `BrokerSafety.StepKeepsInv` | wedb_blocking/src/broker.rs:318-364 | Each of the 22 steps keeps the state invariant (observers, queues, sessions, store, pending counts). |
| `BrokerSafety.RunKeepsInv` | wedb_blocking/src/broker.rs:318-364 | Every run from a state with the invariant ends in one. |
| `BrokerSafety.StepKeepsElements` | wedb_blocking/src/broker.rs:458-594 | One step conserves list elements between pushes, store and results. |
| `BrokerSafety.StepKeepsSignals` | wedb_blocking/src/broker.rs:403-448 | One step keeps the signal ledger of every key balanced, saturation losses included. |
| `BrokerSafety.StepKeepsOrder` | wedb_blocking/src/broker.rs:318-364 | One step keeps the order of two waiters of a key while the first stays receptive. |
| `BrokerSafety.StepLoses` | wedb_blocking/src/broker.rs:434-441 | Units are lost in a step exactly when an announcement exceeds the largest word. |
| `BrokerMachine.RunAppend` | wedb_blocking/src/broker.rs:240-292 | Runs compose: a step appended to a run is the run followed by the step. |
| `Provider.ServeConserves` | wedb_blocking/src/provider.rs:295-400 | A provider call moves out of the store exactly the list elements its result carries. |
| `Provider.PopConserves` | wedb_blocking/src/provider.rs:295-400 | The same for every pop command, type mismatches and empty keys included. |
| `Provider.MoveConserves` | wedb_blocking/src/provider.rs:421-505 | A move between two lists or within one neither creates nor destroys elements. |
| `Provider.PushConserves` | wedb_blocking/src/provider.rs:159-171 | A push adds exactly one element or is refused. |
| `Provider.ServeReaps` | wedb_blocking/src/provider.rs:123-133 | No provider call leaves an empty collection behind. |
| `StoreLaws.PushEnds` | wedb_blocking/src/provider.rs:159-181 | LPUSH puts the element first and RPUSH last, only a sorted set refuses it, and no other key is touched. |
| `StoreLaws.PushThenPop` | wedb_blocking/src/provider.rs:159-205 | A pop at the end of a push gives the element back and leaves the store as before. |
| `StoreLaws.ListPopEnds` | wedb_blocking/src/provider.rs:295-400 | List pops give the items nearest the end named, nearest first, as many as asked for and there, and leave the rest; the exact cases of nothing and of a type error. |
| `StoreLaws.ScoredPopEnds` | wedb_blocking/src/provider.rs:295-400 | Sorted-set pops give the lowest or highest members with their scores in the same way. |
| `StoreLaws.MoveEnds` | wedb_blocking/src/provider.rs:421-505 | A move takes the element at one end and makes it the first or last of the target, for one list or two, with every error case. |
| `Provider.MemoryCollectionStore.PushListSide` | wedb_blocking/src/provider.rs:159-171 | Pushes on one end and returns the new length; a sorted set under the key refuses and nothing changes. |
| `Provider.MemoryCollectionStore.PopSide` | wedb_blocking/src/provider.rs:295-400 | The popping loop takes the items nearest an end in order and leaves the rest. |
| `Provider.MemoryCollectionStore.TryPopItem` | wedb_blocking/src/provider.rs:404-419 | The stateful pop does what the attempt on the store value says. |
| `Provider.MemoryCollectionStore.TryMoveItem` | wedb_blocking/src/provider.rs:421-505 | The stateful move does what the attempt says, for the same key, a missing or mistyped destination, and an emptied source. |
| `Broker.CollectionItemBroker.HandleTimeOut` | wedb_blocking/src/broker.rs:262-292 | A time-out finishes a waiting observer with an empty result, leaves a finished one as it was, and touches no other. |
| `Broker.CollectionItemBroker.TryUnblock` | wedb_blocking/src/broker.rs:168-175 | CLIENT UNBLOCK succeeds exactly for a session whose observer still waits, and then its result is final. |
| `Broker.CollectionItemBroker.HandleSessionDisposed` | wedb_blocking/src/broker.rs:178-183 | The session is forgotten; its observer, if still waiting, ends as disposed with an empty result; no other changes. |
| `Broker.CollectionItemBroker.AssignTurn` | wedb_blocking/src/broker.rs:466-505 | One turn drops a dead head, serves a receptive head atomically, or leaves an unservable head first in line. |
| `Provider.ServeAnswers` | wedb_blocking/src/provider.rs:295-505 | A provider call on a key answers with items of that key or a type error, never with a signal or an unblocking. |
| `Broker.CollectionItemBroker.AssignFirst` | wedb_blocking/src/broker.rs:458-506 | The loop over the queue hands out one result, to a receptive waiter of the key, and names the key a served move put its element on; or it hands out none and nobody there can be served. |
| `Broker.CollectionItemBroker.TryAssignLocked` | wedb_blocking/src/broker.rs:458-516 | Terminates through forwarded moves with the number of queued waiters as measure. A success gave a receptive waiter of the key items of that key or a type error, and an element it moved on was offered to the waiters of its new key; a failure handed out nothing and leaves nobody who could be served. No entry without waiters and signals is left. |
| `Broker.CollectionItemBroker.HandleCollectionUpdateAll` | wedb_blocking/src/broker.rs:384-394 | Terminates and returns with no receptive waiter on the key, or with a first one the collection cannot serve, whatever unlocked steps interfere; the count is bounded by the results handed out and zero only if none was. |
| `Broker.CollectionItemBroker.HandleCollectionUpdate` | wedb_blocking/src/broker.rs:367-381 | A look at the queues without the lock, then at most one waiter served under it: if true, one queued when the lock was taken got items of the key or a type error, and an element it moved on was offered; if false, nobody there can be served. |
| `Broker.CollectionItemBroker.NotifyTurn` | wedb_blocking/src/broker.rs:417-433 | One turn pops the head and wakes it exactly if it is receptive. |
| `Broker.CollectionItemBroker.NotifyWaiters` | wedb_blocking/src/broker.rs:403-448 | Every announced arrival on an existing entry is booked as one key update or one pending unit; unknown keys and a zero count change nothing. |
| `Broker.CollectionItemBroker.CompressQueue` | wedb_blocking/src/broker.rs:525-532 | Dropping dead waiters keeps the order of the live ones, and a queue with waiters has no pending units. |
| `Broker.CollectionItemBroker.ProbeKey` | wedb_blocking/src/broker.rs:522-594 | A newcomer is served from a key only when none of the waiters queued there on entry was receptive; a miss leaves no pending unit it could have taken and queues nobody. |
| `Broker.CollectionItemBroker.InitializeObserver` | wedb_blocking/src/broker.rs:340-364 | The observer is finished by the first of its keys, in order, that had anything, every earlier one having had nothing for it, and an element it moved was offered at its new key; or it is queued on every one of its keys; or it is no longer receptive and queued nowhere new. |
| `Broker.CollectionItemBroker.DeregisterObserver` | wedb_blocking/src/broker.rs:318-337 | A finished observer is in none of its keys' queues afterwards. |
| `Broker.CollectionItemBroker.PushAndNotify` | wedb_blocking/src/broker.rs:131-140 | Answers the new length. Whatever other tasks do between an accepted push and the assignment, a waiter queued when the lock is taken is given items of that key or a type error, or nobody queued there can be served from what is stored; a refused push changes nothing. |
| `Broker.CollectionItemBroker.Interfere` | wedb_blocking/src/broker.rs:240-292 | Before each action of a lock holder that looks at an observer or the store, arbitrary unlocked steps may run; queues and ledgers stay, observers only stop being receptive. |
| `Broker.CollectionItemBroker.Yield` | wedb_blocking/src/broker.rs:367-374 | While nobody holds the lock any steps of other tasks may run, locked ones included; the state stays one the machine reaches. |
| `ClusterSafety.SlotTableSound` | wedb_cluster/src/manager.rs:92-529 | In every state reached from a fresh configuration a slot names a worker in the table, is offline exactly when it names nobody, and names a remote worker with an identifier while migrating or importing; identifiers stay distinct. |
| `ClusterSafety.StepKeepsInv` | wedb_cluster/src/manager.rs:92-597 | Each command and each gossip merge keeps that invariant. |
| `ClusterSafety.RunKeepsInv` | wedb_cluster/src/manager.rs:92-597 | Every run whose tables stay within sixteen-bit indices keeps it. |
| `ClusterSafety.ForgetKeeps` | wedb_cluster/src/config.rs:375-402 | Forgetting a node renumbers all slots without breaking the invariant. |
| `ClusterSafety.ImportKeeps` | wedb_cluster/src/manager.rs:194-235 | An import can only name the remote owner. |
| `ClusterSafety.MigrateKeeps` | wedb_cluster/src/manager.rs:154-191 | A migration can only name a known remote primary. |
| `ClusterSafety.GiveToKeeps` | wedb_cluster/src/manager.rs:238-278 | Completing a move in any slot state keeps the invariant. |
| `ClusterSafety.ReplicateKeeps` | wedb_cluster/src/manager.rs:452-479 | Handing over every slot served here keeps the invariant. |
| `ClusterSafety.FailoverKeeps` | wedb_cluster/src/manager.rs:413-448 | Taking over the former primary's slots keeps the invariant. |
| `ClusterSafety.MeetKeeps` | wedb_cluster/src/manager.rs:306-345 | Meeting a node, known, at a known address or new, keeps identifiers distinct. |
| `ClusterSafety.ProcessedKeeps` | wedb_cluster/src/gossip.rs:184-263 | Processing a packet keeps the invariant. |
| `ClusterSafety.PrimaryNeverNamesItself` | wedb_cluster/src/migration.rs:41-86 | A node that is not a replica never answers MOVED or ASK with its own entry, and names the address of an entry in the table. |
| `ClusterSafety.PrimaryRoutes` | wedb_cluster/src/migration.rs:41-86 | A node that is no replica serves exactly its own slots, present keys of a slot on its way out and asking clients of one on its way in; ASK names the target of a move and MOVED the recorded owner; it is down exactly for a free slot or a named node without an endpoint. |
| `ClusterSafety.ReplicaRoutes` | wedb_cluster/src/migration.rs:41-86 | The same for a replica: read-only clients are served its primary's slots and those recorded for itself, others of the latter are sent to its primary; down also for a read-only client of a slot being imported from the primary. |
| `ClusterSafety.NoSuchSlot` | wedb_cluster/src/migration.rs:41-86 | A slot number past the end is down. |
| `ClusterSafety.ReplicaNamesItselfWhen` | wedb_cluster/src/migration.rs:41-86 | A replica answers MOVED with its own entry exactly when the slot is stably its own, the session is not read-only, it has an endpoint and no other entry for its primary; its ASK never does. |
| `ClusterSafety.ReachableRoutes` | wedb_cluster/src/migration.rs:41-86 | In every state a run can reach, a primary serves, asks, moves or is down exactly as PrimaryRoutes says, and never sends a client to itself. |
| `ClusterSafety.OwnSlotChangesWhen` | wedb_cluster/src/config.rs:530-589 | One gossip merge changes a slot we own exactly when an accepted primary claims it with epoch 0 or with an epoch above ours. |
| `ClusterSafety.OwnSlotSurvives` | wedb_cluster/src/gossip.rs:184-221 | Over any packets with epochs that are not 0 and do not exceed ours, an owned slot stays and the local epoch never falls. |
| `ClusterSafety.TakeoverIsPermanent` | wedb_cluster/src/manager.rs:413-448 | A slot gained by failover or a completed import is kept through any gossip with epochs from 1 to the largest known at the takeover. |
| `ClusterSafety.TakeoverOutranks` | wedb_cluster/src/manager.rs:257-271 | Either takeover leaves the local epoch as the largest in the table, one above the former largest. |
| `ClusterSafety.EpochNeverFalls` | wedb_cluster/src/config.rs:406-421 | A merge with arbitration never lowers the local epoch. |
| `ClusterSafety.EpochZeroTakesSlots` | wedb_cluster/src/config.rs:568-570 | A claim with epoch 0 takes an owned slot whatever the local epoch. |
| `ClusterGossip.ProcessedTwice` | wedb_cluster/src/gossip.rs:184-263 | A packet processed a second time leaves the configuration as it is and reports no change. |
| `ClusterGossip.GossipTwice` | wedb_cluster/src/manager.rs:590-597 | The same with epoch arbitration included. |
| `ClusterGossip.EpochsAreMaxima` | wedb_cluster/src/gossip.rs:184-263 | After any list of packets each node is recorded with the largest of its starting epoch and all epochs believed about it, and the local entry is unchanged. |
| `ClusterGossip.LatestIsMax` | wedb_cluster/src/config.rs:456-521 | That value bounds every epoch believed about the node and is attained. |
| `ClusterGossip.ProcessedSparesLocal` | wedb_cluster/src/gossip.rs:190-194 | Gossip never alters the local worker's entry or the reserved one. |
| `ClusterGossip.MergeEpoch` | wedb_cluster/src/config.rs:456-521 | Merging news of a node raises its recorded epoch to the maximum and leaves every other node's epoch. |
| `ClusterGossip.NewsOfKnown` | wedb_cluster/src/config.rs:456-521 | News is taken exactly with a higher epoch or as the answer to a handshake; then the entry says what the news says, keeps what only we know, and a change is reported exactly when it said something else before. |
| `ClusterGossip.NewsOfStranger` | wedb_cluster/src/config.rs:475-491 | A stranger gets an entry that says what the news says, in handshake unless it is the node itself. |
| `ClusterGossip.HeardIs` | wedb_cluster/src/gossip.rs:229-238 | The sections believed are exactly those that name a node other than us, the sender and the banned. |
| `ClusterGossip.NewsOfNobody` | wedb_cluster/src/config.rs:466-468 | News without an identifier changes and reports nothing. |
| `ClusterGossip.NewsArrives` | wedb_cluster/src/gossip.rs:224-254 | Every relevant section among the first 1024 leaves an entry for its node with an epoch no lower. |
| `ClusterGossip.LateSectionsIgnored` | wedb_cluster/src/gossip.rs:224-228 | Sections after the first 1024 change nothing and report nothing. |
| `ClusterGossip.ReportMeans` | wedb_cluster/src/gossip.rs:184-262 | A packet reports a change exactly when a slot changes or what gossip tells of some node does; a handshake alone is none. |
| `ClusterGossip.SlotsSettle` | wedb_cluster/src/config.rs:530-589 | Merging the same claims again, after the table has only grown, changes no slot. |
| `ClusterGossip.SettledKept` | wedb_cluster/src/config.rs:456-521 | Once news of a node is settled, news of any node leaves it settled. |
| `ClusterManager.Manager.constructor` | wedb_cluster/src/config.rs:36-53 | A new manager holds the fresh configuration with its local worker. |
| `ClusterManager.Manager.GetWorkerId` | wedb_cluster/src/config.rs:230-239 | The scan finds the first worker with an identifier, or 0. |
| `ClusterManager.Manager.GetMaxConfigEpoch` | wedb_cluster/src/config.rs:313-321 | The scan finds the largest epoch in the table. |
| `ClusterManager.Manager.TryAddSlots` | wedb_cluster/src/manager.rs:92-117 | All slots are checked before any is taken; the first bad one decides the error. |
| `ClusterManager.Manager.TryRemoveSlots` | wedb_cluster/src/manager.rs:121-151 | All or none go offline, and then the local epoch passes every known one. |
| `ClusterManager.Manager.TryPrepareSlotForMigration` | wedb_cluster/src/manager.rs:154-191 | Marks a stable local slot as migrating, or gives the first of six refusals. |
| `ClusterManager.Manager.TryPrepareSlotForImport` | wedb_cluster/src/manager.rs:194-235 | Marks a slot of the named source as importing, or refuses. |
| `ClusterManager.Manager.TryPrepareSlotForOwnershipChange` | wedb_cluster/src/manager.rs:238-278 | Completes a move: a migrating slot goes to its owner, an importing one becomes ours with a new epoch. |
| `ClusterManager.Manager.TryPrepareSlotForStable` | wedb_cluster/src/manager.rs:282-300 | Undoes a started move: a migrating slot comes back, an importing one stays with its source. |
| `ClusterManager.Manager.TryMeet` | wedb_cluster/src/manager.rs:306-345 | Repeated meetings update the existing entry; only an unknown node at an unknown address is added. |
| `ClusterManager.Manager.RemoveWorker` | wedb_cluster/src/config.rs:375-402 | The in-place loop renumbers every slot and removes the entry. |
| `ClusterManager.Manager.TryRemoveWorker` | wedb_cluster/src/manager.rs:349-372 | Forgets and bans a node, or refuses itself, its primary and unknown nodes. |
| `ClusterManager.Manager.TryReset` | wedb_cluster/src/manager.rs:376-408 | Leaves a fresh table with the local worker, or refuses while keys are in owned slots. |
| `ClusterManager.Manager.TryFailover` | wedb_cluster/src/manager.rs:413-448 | Takes over every slot of the former primary and promotes the local worker with a new epoch. |
| `ClusterManager.Manager.TryReplicaOf` | wedb_cluster/src/manager.rs:452-479 | Hands every slot served here to the new primary and becomes its replica. |
| `ClusterManager.Manager.TryReplicaOfNoOne` | wedb_cluster/src/manager.rs:484-497 | Promotes a replica with a new epoch; a primary is left alone. |
| `ClusterManager.Manager.TrySetLocalConfigEpoch` | wedb_cluster/src/manager.rs:501-517 | Succeeds exactly for a node without peers, with no epoch yet and given a positive one; then its own epoch is that one and nothing else changes. |
| `ClusterManager.Manager.TryBumpClusterEpoch` | wedb_cluster/src/manager.rs:520-529 | The local epoch passes every known one. |
| `ClusterManager.Manager.CreatePacket` | wedb_cluster/src/gossip.rs:115-163 | The packet carries the local entry, exactly the slots served stably, exactly those being given away, and news of the remote nodes picked. |
| `ClusterManager.Manager.MergeWorkerRef` | wedb_cluster/src/config.rs:456-521 | Adds, updates or ignores one node's news and reports a change exactly when a carried field differs. |
| `ClusterManager.Manager.ClaimSlots` | wedb_cluster/src/config.rs:555-575 | The claim loop acts on each slot by itself however often it is listed, and reports exactly whether some slot changed. |
| `ClusterManager.Manager.ReclaimSlots` | wedb_cluster/src/config.rs:577-588 | The reclaim loop takes offline exactly the slots the sender held or was giving us but no longer speaks for. |
| `ClusterManager.Manager.MergeSenderSlots` | wedb_cluster/src/config.rs:530-589 | The two in-place passes together compute the slot-by-slot merge, and report exactly whether the table changed. |
| `ClusterManager.Manager.ProcessPacket` | wedb_cluster/src/gossip.rs:184-263 | The in-place merge of sender, slots and at most 1024 sections computes the packet's effect and its change report. |
| `ClusterManager.Manager.ResolveEpochCollision` | wedb_cluster/src/config.rs:406-421 | Of two primaries with one epoch the one with the smaller identifier moves past every known epoch. |
| `ClusterManager.Manager.TryMergeGossip` | wedb_cluster/src/manager.rs:590-597 | Merge and arbitration together, with the combined report. |
| `ClusterLaws.MoveCalledOff` | wedb_cluster/src/manager.rs:282-300 | Calling off a started migration or import gives back the configuration as it was. |
| `ClusterEffects.BadSlotOrNode` | wedb_cluster/src/manager.rs:154-300 | Every form of SETSLOT refuses slot numbers past the end, and those that name a node refuse strangers. |
| `ClusterEffects.MigrationBegins` | wedb_cluster/src/manager.rs:154-191 | Succeeds exactly for a slot of ours and another primary; then the slot names that node and is migrating, and nothing else changes; each refusal with its exact condition. |
| `ClusterEffects.ImportBegins` | wedb_cluster/src/manager.rs:194-235 | Succeeds exactly on a primary for a slot recorded as stable for the other node named; then the slot is importing from it and nothing else changes. |
| `ClusterEffects.OwnershipGiven` | wedb_cluster/src/manager.rs:238-278 | The slot goes to the node named; one being imported can only become ours, and then our epoch exceeds every other. |
| `ClusterEffects.MoveStopped` | wedb_cluster/src/manager.rs:282-300 | A slot on its way out is ours again, one on its way in stays with its owner, any other is left alone. |
| `ClusterEffects.SlotsAdded` | wedb_cluster/src/manager.rs:92-118 | Takes exactly free slots, all of those named or none; the first bad one decides the refusal. |
| `ClusterEffects.SlotsRemoved` | wedb_cluster/src/manager.rs:122-151 | Frees exactly slots that have an owner, all or none, and raises the local epoch above every other. |
| `ClusterEffects.NodeMet` | wedb_cluster/src/manager.rs:306-344 | One entry ends with the address, port and identifier: the node's own, else the first at that address, else a new one in handshake; no other entry and no slot changes. |
| `ClusterEffects.NodeForgotten` | wedb_cluster/src/manager.rs:348-372 | Takes out the node's entry, or refuses for exactly one of three reasons. |
| `ClusterEffects.NodeReset` | wedb_cluster/src/manager.rs:376-408 | Keeps address, port and host name and frees every slot; soft keeps identifier and epoch, hard takes the new identifier and epoch 0; refused exactly to a node with keys that serves a slot. |
| `ClusterEffects.BecomesReplica` | wedb_cluster/src/manager.rs:450-481 | Every slot served here goes to the new primary, the local entry becomes its replica, nothing else changes; each refusal with its exact condition. |
| `ClusterEffects.StrangerNotFollowed` | wedb_cluster/src/manager.rs:450-481 | An unknown node cannot be replicated. |
| `ClusterEffects.TakesOver` | wedb_cluster/src/manager.rs:413-446 | A replica becomes a primary that outranks every node and owns exactly the slots recorded for its former primary besides those it had; refused exactly without one. |
| `ClusterLaws.MigrationCompleted` | wedb_cluster/src/manager.rs:238-256 | A completed migration gives the slot to its target and changes nothing else. |
| `ClusterLaws.AddThenRemove` | wedb_cluster/src/manager.rs:92-151 | Slots added and then removed are as they were before. |
| `ClusterLaws.MeetTwice` | wedb_cluster/src/manager.rs:304-345 | Meeting a node again changes nothing and answers the same entry. |
| `ClusterLaws.ForgetKeepsOwners` | wedb_cluster/src/config.rs:375-402 | After the renumbering every slot keeps its owner by name; only the forgotten node's slots go offline or come back. |
| `ClusterLaws.ReplicaServesNothing` | wedb_cluster/src/manager.rs:452-479 | A node that becomes a replica holds no slot any more. |
| `ClusterLaws.FailoverTakesBack` | wedb_cluster/src/manager.rs:413-448 | Failing over takes back every slot handed over, with all the primary's own, and no other. |
| `ClusterLaws.EpochSetOnce` | wedb_cluster/src/manager.rs:501-517 | The exact success condition; after a success the epoch is the largest known, slots and other entries are as before, and every second attempt is refused. |
| `ClusterLaws.BumpOutranks` | wedb_cluster/src/manager.rs:520-529 | Only the local epoch changes, and it exceeds every epoch there was. |
| `ClusterLaws.LeavesReplication` | wedb_cluster/src/manager.rs:484-497 | Leaving replication keeps every slot and every other entry and leaves a primary that outranks them all; a node that is no replica is left alone. |
| `ClusterLaws.ReplicaNamesItself` | wedb_cluster/src/migration.rs:41-86 | A run of four commands after which a replica answers MOVED with its own address. |
| `ClusterLaws.ReceiverAgrees` | wedb_cluster/src/gossip.rs:115-163 | After merging the packet of a primary that outranks the other nodes it knows, a node names that primary for a slot exactly when the primary serves it, or when it named it before and one of the two has the slot migrating. |
| `ClusterLaws.OutrankingClaims` | wedb_cluster/src/config.rs:530-589 | A primary whose epoch exceeds every other is recorded for every slot it claims. |
| `ClusterLaws.ClaimsDecided` | wedb_cluster/src/config.rs:530-589 | What every slot becomes when a primary's packet is accepted, by the epochs and names recorded: taken, freed or left alone. |
| `ClusterLaws.NoClaims` | wedb_cluster/src/config.rs:530-589 | A packet that is not accepted, or whose sender is no primary, moves no slot. |
| `ClusterLaws.OneGivesWay` | wedb_cluster/src/config.rs:406-421 | Of two primaries with the same epoch exactly the one with the smaller name gives way on hearing of the other. |
| `ClusterLaws.CollisionResolved` | wedb_cluster/src/config.rs:406-421 | Giving way lifts the local epoch above every known one and changes nothing else, under the exact condition. |
| `ClusterLaws.BannedStillFelt` | wedb_cluster/src/manager.rs:590-597 | A packet from a banned node is not accepted, and still the local epoch moves on. |
| `ClusterCodec.ToPayload` | wedb_cluster/src/config.rs:900-931 | The segments expand to the slot table, are maximal, and their counts fit in sixteen bits. |
| `ClusterCodec.FromPayload` | wedb_cluster/src/config.rs:934-969 | Loading checks version, worker count and owners, and fills, cuts or pads the table. |
| `ClusterCodec.LoadChecks` | wedb_cluster/src/config.rs:934-969 | Each of the three load errors with its exact condition, in their order. |
| `ClusterCodec.PayloadRoundTrip` | wedb_cluster/src/config.rs:900-969 | A payload made from a configuration loads it back exactly when it has 1 to 16384 workers and every owner is in the table. |
| `ClusterText.AppendSlotRanges` | wedb_cluster/src/config.rs:696-716 | The printed ranges cover exactly the worker's effective slots and are maximal. |
| `ClusterText.AppendSpecialStates` | wedb_cluster/src/config.rs:719-739 | One marker for every slot on the move whose other end has an identifier, and no others. |
| `ClusterText.MarkersMean` | wedb_cluster/src/config.rs:719-739 | A slot on its way out is marked with its target, one on its way in with its source, no other. |
| `ClusterText.Export` | wedb_cluster/src/serializer.rs:64-105 | Every worker is written with its lasting fields, its ranges and, for the local one, the markers. |
| `ClusterText.Import` | wedb_cluster/src/serializer.rs:108-236 | The two passes of the reader compute each slot from the ranges and then the markers, with the local node moved to the front. |
| `ClusterText.FileRoundTrip` | wedb_cluster/src/serializer.rs:64-236 | Reading back what was printed rebuilds the same slot table and workers, although migrating slots print under the local node and importing ones under their source. |
| `ClusterText.LocalChosen` | wedb_cluster/src/serializer.rs:108-236 | The local node is the first with the name asked for, else saved, else the first of all; the others follow in order; it takes the file's epoch if saved without one. |
| `ClusterText.LastingKeeps` | wedb_cluster/src/serializer.rs:64-104 | Saving keeps every field gossip tells of and drops the running state. |
| `ClusterText.SaveAndLoad` | wedb_cluster/src/serializer.rs:64-236 | Saving and loading any configuration that keeps the invariant returns its slot table. |
| `HllSketch.ReplayIsSketch` | wedb_hll/src/lib.rs:321-438 | For every history of feeding and merging, each register is the largest rank fed to it. |
| `HllSketch.OnlyTheSetMatters` | wedb_hll/src/lib.rs:321-438 | Histories that feed the same set of hashes leave the same registers; order, duplicates and merge shape do not matter. |
| `HllSketch.SketchUnique` | wedb_hll/src/lib.rs:321-340 | A set of hashes has exactly one sketch. |
| `HllSketch.SketchAdd` | wedb_hll/src/lib.rs:321-340 | Raising one register to the hash's rank is the sketch of the set with the hash. |
| `HllSketch.SketchUnion` | wedb_hll/src/lib.rs:415-438 | The pointwise maximum of two sketches is the sketch of the union. |
| `HllSketch.Rank` | wedb_hll/src/lib.rs:321-330 | Ranks run from 1 to 51; RankMeans says which. |
| `HllSketch.RankMeans` | wedb_hll/src/lib.rs:321-330 | The rank is the place of the first one bit from the top; 51 exactly for hashes below 2^14. |
| `HllSketch.IndexMeans` | wedb_hll/src/lib.rs:321-330 | The index is the low fourteen bits. |
| `HllSketch.LeadingZeros` | wedb_hll/src/lib.rs:321-330 | The count of leading zeros bounds the hash from both sides. |
| `HllRegisters.UnpackPack` | wedb_hll/src/lib.rs:68-87 | Four six-bit registers survive packing into three bytes. |
| `HllRegisters.RegOfUnpack` | wedb_hll/src/lib.rs:90-98 | Reading one register from the bytes agrees with unpacking the block. |
| `HllRegisters.RepackReads` | wedb_hll/src/lib.rs:101-112 | Replacing a register in a block changes that one and no other. |
| `HllRegisters.RegSetReads` | wedb_hll/src/lib.rs:115-165 | Writing one register of the packed area changes exactly that register. |
| `HllSparse.Locate` | wedb_hll/src/sparse.rs:105-119 | The scan finds the opcode that covers a register. |
| `HllSparse.SparseGet` | wedb_hll/src/sparse.rs:122-128 | Reads the register the stream stands for. |
| `HllSparse.SplitRunExpands` | wedb_hll/src/sparse.rs:146-163 | Splitting a zero run around a value stands for the same registers with that one set. |
| `HllSparse.SparseUpdate` | wedb_hll/src/sparse.rs:133-166 | Raises one register exactly when it was lower, keeps the stream legal, and grows it by exactly the bytes the run around the register is cut into. |
| `HllSparse.GrowthAt` | wedb_hll/src/sparse.rs:133-166 | What a stream grows by is decided by the opcode covering the register: nothing at a value, one byte for each end of a run cut off. |
| `HllMerging.MergeSparseIntoDense` | wedb_hll/src/lib.rs:383-412 | A sparse stream merged into packed registers gives their pointwise maximum. |
| `HllMerging.UnpackSparse` | wedb_hll/src/sparse.rs:182-191 | The upgraded packed area holds the registers of the stream. |
| `HllMerging.MergeSparse` | wedb_hll/src/lib.rs:383-412 | Two sparse streams merge into a stream of their pointwise maximum, reporting a change exactly when there is one. |
| `HllMerging.MergeDense` | wedb_hll/src/lib.rs:415-438 | The block loop with its shortcuts computes the pointwise maximum and reports changes exactly. |
| `HllMerging.SparseHistogram` | wedb_hll/src/sparse.rs:169-179 | The histogram of a stream is the histogram of its registers. |
| `HllMerging.DenseHistogram` | wedb_hll/src/estimate.rs:20-33 | The block histogram with its zero shortcut is the histogram of the registers. |
| `HllMerging.MergeAllIsRowMax` | wedb_hll/src/lib.rs:455-485 | Merging sketches one by one gives the maximum over all of them. |
| `HllMerging.MergedHistogram` | wedb_hll/src/lib.rs:455-485 | The cross-sketch histogram is the histogram of the merged registers. |
| `HyperLogLogs.CheckValid` | wedb_hll/src/lib.rs:195-203 | The byte check accepts exactly well-formed dense strings and sparse ones that cover 16384 registers with values 1 to 51, match their length field and respect the size cap. |
| `HyperLogLogs.CardWrite` | wedb_hll/src/lib.rs:170-172 | The cache field reads back what was written, and a set sign bit reads as no cache. |
| `HyperLogLogs.HyperLogLog.New` | wedb_hll/src/sparse.rs:93-101 | A new sketch is valid, coherent and has seen nothing. |
| `HyperLogLogs.HyperLogLog.Parse` | wedb_hll/src/lib.rs:206-213 | Accepts exactly the valid byte strings, as they are, and refuses all others. |
| `HyperLogLogs.HyperLogLog.UpgradeDense` | wedb_hll/src/sparse.rs:182-191 | Changing representation keeps every register and drops the cache. |
| `HyperLogLogs.HyperLogLog.SetRegister` | wedb_hll/src/lib.rs:257-265 | Sets one register, stays valid and keeps the cache honest. |
| `HyperLogLogs.HyperLogLog.AddHash` | wedb_hll/src/lib.rs:321-340 | Raises one register, reports a change exactly when there is one, and keeps the sketch of the fed set, validity and the cache. |
| `HyperLogLogs.HyperLogLog.UpdateRegister` | wedb_hll/src/lib.rs:270-289 | Raises one register; the result is valid exactly when the sketch was dense, the value fits no opcode, or the stream with its growth is within the size cap. |
| `HyperLogLogs.CapOutgrown` | wedb_hll/src/lib.rs:270-289 | A valid sketch of exactly the largest sparse size, raised inside a run, is no longer valid and is refused when read back. |
| `HyperLogLogs.HyperLogLog.MergeValid` | wedb_hll/src/lib.rs:383-412 | All four representation pairs give the pointwise maximum and keep validity; the cache is dropped exactly when a register changes or a dense source meets a sparse target. |
| `HyperLogLogs.HyperLogLog.Merge` | wedb_hll/src/lib.rs:368-370 | Merging tracks the union of what both have seen. |
| `HyperLogLogs.HyperLogLog.MergeRaw` | wedb_hll/src/lib.rs:373-380 | Merges raw bytes exactly when they are valid and changes nothing otherwise. |
| `HyperLogLogs.HyperLogLog.CountReadonly` | wedb_hll/src/lib.rs:354-365 | The answer is the estimate of the current registers exactly when a cached value, if there is one, is; every run from an empty sketch keeps it so. |
| `HyperLogLogs.HyperLogLog.Count` | wedb_hll/src/lib.rs:344-351 | Counting leaves a cached answer, changes no register and keeps the cache as honest as it was. |
| `HyperLogLogs.HyperLogLog.PackedData` | wedb_hll/src/lib.rs:441-452 | The packed view holds the sketch's registers in either representation. |
| `HyperLogLogs.CountMultiple` | wedb_hll/src/lib.rs:455-485 | Two or more sketches are estimated from their merged registers, a single one is answered from its honest cache, and none counts as 0. |
| `HyperLogLogs.CountBothWays` | wedb_hll/src/lib.rs:453-485 | Counting together equals merging and counting exactly when there is one sketch, the first cache is honest, or merging drops it. |
| `HyperLogLogs.StaleCacheDisagrees` | wedb_hll/src/lib.rs:453-485 | Two empty sketches, the first read from bytes with a wrong cached count, are counted differently in the two ways. |
| `HyperLogLogs.SameHashesSameRegisters` | wedb_hll/src/lib.rs:321-438 | Sketches that have seen the same hashes hold the same registers, whatever their forms and histories. |
| `HyperLogLogs.HyperLogLog.GetRegister` | wedb_hll/src/lib.rs:245-252 | Reads one register in either representation. |
| `HyperLogLogs.MergeAndCount` | wedb_hll/src/lib.rs:455-485 | Merging one by one and counting gives the estimate of the merged registers exactly when the first cache was honest or merging dropped it; otherwise it gives that cache. |
| `PagedList.ListObject.PushFrontInner` | wedb_list/src/list.rs:201-213 | Prepends on the concatenation, opening a page when the first is full. |
| `PagedList.ListObject.PushBackInner` | wedb_list/src/list.rs:216-228 | Appends on the concatenation. |
| `PagedList.ListObject.PopFrontInner` | wedb_list/src/list.rs:233-243 | Takes the first element, or none from an empty list. |
| `PagedList.ListObject.PopBackInner` | wedb_list/src/list.rs:246-256 | Takes the last element, or none. |
| `PagedList.ListObject.Locate` | wedb_list/src/list.rs:174-198 | The scan from the nearer end finds the place of an index, and its fall-through is never reached. |
| `PagedList.ListObject.RemoveAt` | wedb_list/src/list.rs:259-270 | Removes one index of the sequence, or nothing out of range. |
| `PagedList.ListObject.InsertIntoPage` | wedb_list/src/list.rs:275-292 | Inserts at one index of the sequence, splitting a full page in halves. |
| `PagedList.ListObject.Reclaim` | wedb_list/src/list.rs:298-322 | Keeps the sequence, drops empty pages and leaves no two neighbours that could still be merged. |
| `PagedList.ListObject.LRange` | wedb_list/src/list.rs:441-449 | Returns the elements between the two resolved ends. |
| `ListLaws.RangeSelects` | wedb_list/src/list.rs:441-449 | The range is the items between the two ends, each counted from the back when negative, within the list. |
| `PagedList.ListObject.LIndex` | wedb_list/src/list.rs:477-481 | Returns the element at a resolved index, or none. |
| `PagedList.ListObject.LSet` | wedb_list/src/list.rs:491-494 | Replaces the element at a resolved index, or fails without a change. |
| `PagedList.ListObject.LTrim` | wedb_list/src/list.rs:497-550 | Keeps exactly the elements between the two resolved ends. |
| `PagedList.ListObject.RemoveFromPageHead` | wedb_list/src/list.rs:553-564 | Removes the first matches of a page up to a quota. |
| `PagedList.ListObject.RemoveFromPageTail` | wedb_list/src/list.rs:569-592 | Removes the last matches of a page up to a quota through a 64-bit mask that never overflows. |
| `PagedList.ListObject.LRem` | wedb_list/src/list.rs:611-655 | All three count modes remove what the sequence operation removes and return how many. |
| `ListLaws.RemovedWhere` | wedb_list/src/list.rs:611-655 | A positive count removes the first so many and leaves everything behind them, a negative one the last so many and leaves everything before them, zero all. |
| `ListLaws.AllRemoved` | wedb_list/src/list.rs:611-655 | Removing all leaves exactly the other items. |
| `PagedList.ListObject.LInsert` | wedb_list/src/list.rs:660-678 | Inserts before or after the first match and returns the length, or -1 without a change. |
| `PagedList.ListObject.LPos` | wedb_list/src/list.rs:685-742 | Returns the matches from either end after skipping, limited in number and in elements compared. |
| `ListSpec.NormalizeIndex` | wedb_list/src/list.rs:127-142 | Negative indices count from the end; only indices inside the list resolve. |
| `ListSpec.NormalizeRange` | wedb_list/src/list.rs:149-171 | The clamped range selects exactly the indices between the two resolved ends. |
| `ListSpec.RemLastMirrors` | wedb_list/src/list.rs:553-655 | Removing from the tail is removing from the head of the mirror image. |
| `ListSpec.RemFirstCounts` | wedb_list/src/list.rs:553-655 | A removal takes the smaller of its quota and the number of matches, and a large quota takes all. |
| `ListSpec.RemLastAll` | wedb_list/src/list.rs:625-630 | With a quota of at least the length, tail removal removes every match. |
| `ListSpec.HitsAreMatches` | wedb_list/src/list.rs:685-742 | The scanned matches are all indices that hold the value, in increasing order. |
| `ListSpec.PositionsAreMatches` | wedb_list/src/list.rs:685-742 | Every position answered holds the value and is the right one counted from the chosen end. |
| `ListLaws.PositionsCount` | wedb_list/src/list.rs:685-742 | How many positions come back, by count, rank and length limit, from the number of matches in reach. |
| `ListSlices.Slices.Next` | wedb_list/src/list.rs:1006-1021 | Yields the first element of what is left. |
| `ListSlices.Slices.NextBack` | wedb_list/src/list.rs:1028-1038 | Yields the last element of what is left. |
| `ListSlices.Slices.Consume` | wedb_list/src/list.rs:969-1038 | Under any interleaving of the two ends each element of the range is yielded exactly once, in order from both ends. |
| `ListMoves.Drain.Next` | wedb_list/src/list.rs:1058-1076 | Pops the first element of the region and touches nothing around it. |
| `ListMoves.Drain.NextBack` | wedb_list/src/list.rs:1080-1097 | Pops the last element of the region and touches nothing around it. |
| `ListMoves.Drain.Consume` | wedb_list/src/list.rs:1046-1097 | Under any interleaving the region is popped from both ends and everything else stays in order. |
| `ListMoves.LPush` | wedb_list/src/list.rs:349-354 | The last value pushed comes first. |
| `ListMoves.RPush` | wedb_list/src/list.rs:359-364 | The values follow in order. |
| `ListMoves.LPop` | wedb_list/src/list.rs:401-406 | Pops up to a count from the head, in order. |
| `ListMoves.RPop` | wedb_list/src/list.rs:409-414 | Pops up to a count from the tail, in the order popped. |
| `ListMoves.LMove` | wedb_list/src/list.rs:748-765 | Moves one element between two lists in all four directions, or nothing from an empty one. |
| `ListMoves.Rotate` | wedb_list/src/list.rs:776-800 | Moves an element from one end of a list to the other and shows it. |
| `ListMoves.TransferTo` | wedb_list/src/list.rs:806-868 | Between two lists equals that many repetitions of LMOVE in all four directions; a list moved to itself is rotated at most once round, with the exact condition for that to be repeated LMOVE. |
| `ListSpec.MoveTimesIs` | wedb_list/src/list.rs:748-765 | Repeated LMOVE in closed form: a block changes lists, turned round when both ends are the same. |
| `ListSpec.RotatedTimesIs` | wedb_list/src/list.rs:776-800 | Repeated rotation in closed form; a full turn changes nothing. |
| `ListSpec.OneTurnSuffices` | wedb_list/src/list.rs:802-844 | Stopping after one full turn is rotating all the way exactly when the ends are equal, the count is within the length, or the remainder turns the list into itself. |
| `ListSpec.FourthMoveLost` | wedb_list/src/list.rs:802-844 | Three items, the first two different, moved to themselves four times: the code stops one move short. |
| `ListSpec.MoveClamped` | wedb_list/src/list.rs:806-817 | Repetitions beyond the length do nothing. |
| `HashTtl.HashObject.DeleteExpired` | wedb_hash/src/hash.rs:179-203 | Removes exactly the fields whose current expiry has come and counts them; stale heap entries remove nothing. |
| `HashTtl.HashObject.PopEntry` | wedb_hash/src/hash.rs:184-199 | A heap entry removes its field only if it is still the field's expiry. |
| `HashTtl.HashObject.CheckAndPurgeExpired` | wedb_hash/src/hash.rs:207-218 | Drops one field exactly if it has expired. |
| `HashTtl.HashObject.HSet` | wedb_hash/src/hash.rs:224-240 | Stores the value without an expiry and reports new exactly when the field was not live. |
| `HashTtl.HashObject.HSetNx` | wedb_hash/src/hash.rs:245-259 | Stores only when the field is not live, over an expired one too. |
| `HashTtl.HashObject.HGet` | wedb_hash/src/hash.rs:288-293 | Returns the value of a live field; the only entry it may drop is the one read, and only if that has expired. |
| `HashTtl.HashObject.HDel` | wedb_hash/src/hash.rs:408-423 | Removes the named fields and counts each live one once. |
| `HashTtl.HashObject.HExpire` | wedb_hash/src/hash.rs:632-687 | Missing or expired fields, unmet conditions, times in the past and new expiries each have their answer and effect, as ExpireAnswers spells out. |
| `HashTtl.ExpireAnswers` | wedb_hash/src/hash.rs:632-687 | The condition fails exactly when NX meets an expiry, XX none, GT none or one not earlier, LT one not later; the other answers and every effect with their exact conditions. |
| `HashTtl.PersistAnswers` | wedb_hash/src/hash.rs:790-802 | The three answers of HPERSIST and their effects, with their exact conditions. |
| `HashTtl.HashObject.HPersist` | wedb_hash/src/hash.rs:790-802 | Removes the expiry of a live field, or says why not. |
| `HashTtl.ExpiryTakesEffect` | wedb_hash/src/hash.rs:632-687 | A field given an expiry is live exactly before that time, other fields as before, and HPERSIST takes the expiry back. |
| `HashTtl.HashObject.LenRefAt` | wedb_hash/src/hash.rs:94-101 | Counts exactly the live fields without a change. |
| `HashTtl.HashObject.ShrinkToFit` | wedb_hash/src/hash.rs:126-142 | Keeps exactly the live fields and their expiries, and leaves a heap of at most twice as many pairs as there are expiries. |
| `HashTtl.HashObject.CleanupExpirationIfEmpty` | wedb_hash/src/hash.rs:155-170 | Drops the expiry structures exactly when there are no fields or no expiries, and changes no entry. |
| `HashCodec.SerializeRef` | wedb_hash/src/hash.rs:875-925 | Appends the image of exactly the live fields, each once, in whatever order they come. |
| `HashCodec.Deserialize` | wedb_hash/src/hash.rs:948-1017 | Rebuilds the table its records replay to, later ones winning and expired ones removing their field, or reports the first error. |
| `HashCodec.ApplyRecord` | wedb_hash/src/hash.rs:984-1012 | One record changes the table as it should and keeps the heap covering the expiries. |
| `HashCodec.ImageRoundTrip` | wedb_hash/src/hash.rs:875-1017 | An image parses back to its records exactly when keys are under 2^31 bytes, values under 2^32, expiries under 2^64 and the records fewer than 2^32. |
| `HashCodec.RecordLayout` | wedb_hash/src/hash.rs:900-925 | Where key length with its expiry bit, key, value length, value and expiry lie in a record. |
| `HashCodec.ParseErrors` | wedb_hash/src/hash.rs:948-1017 | Each error of a damaged image with its condition, in order. |
| `HashCodec.RecordCutOff` | wedb_hash/src/hash.rs:960-983 | A record is read exactly when all its parts are in the buffer. |
| `HashCodec.LongKeyLost` | wedb_hash/src/hash.rs:875-1017 | A record whose key is 2^31 bytes long is not read back. |
| `HashCodec.ReplayLists` | wedb_hash/src/hash.rs:948-1017 | Replaying a table's records at a time leaves what is live then. |
| `HashCodec.SaveAndLoad` | wedb_hash/src/hash.rs:875-1017 | A hash whose live fields the format has room for, saved at one time and loaded at another, holds exactly the fields live at both. |
| `Glob.GlobMatch` | wedb_pubsub/src/glob.rs:63-145 | The cursor loop with one remembered star terminates and answers true exactly when the key matches the tokenised pattern. |
| `Glob.LastStarSuffices` | wedb_pubsub/src/glob.rs:129-136 | A match through an earlier star is also one through the latest, so remembering only that loses nothing. |
| `Glob.NoLaterStart` | wedb_pubsub/src/glob.rs:129-136 | When the key is used up, no later start of the last segment can match. |
| `Glob.SegmentConsumes` | wedb_pubsub/src/glob.rs:63-145 | A star-free segment matches exactly at its position and leaves the rest to be matched. |
| `Glob.MatchBracket` | wedb_pubsub/src/glob.rs:151-225 | The bracket scan agrees with the parsed class, and an unclosed bracket is a literal. |
| `Glob.MatchOne` | wedb_pubsub/src/glob.rs:81-126 | One step consumes a byte exactly when the next token accepts it. |
| `Glob.NextToken` | wedb_pubsub/src/glob.rs:25-42 | Tokenising advances, stays in the pattern, and yields a star exactly for an asterisk, whatever the key. |
| `GlobLaws.PatternRoundTrip` | wedb_pubsub/src/glob.rs:25-225 | Every list of tokens can be written as a pattern that reads back as that list. |
| `GlobLaws.HexPair` | wedb_pubsub/src/glob.rs:3-20 | Two hexadecimal digits in either case are a byte, the high digit first. |
| `GlobLaws.OnlyHexPairs` | wedb_pubsub/src/glob.rs:3-20 | Nothing else is a hexadecimal pair. |
| `GlobLaws.PlainBytes` | wedb_pubsub/src/glob.rs:25-42 | Bytes that are not special, and bytes after a backslash, stand for themselves. |
| `GlobLaws.PlainRange` | wedb_pubsub/src/glob.rs:151-225 | A range between brackets, and its opposite after an exclamation mark. |
| `GlobLaws.PlainClasses` | wedb_pubsub/src/glob.rs:151-225 | Two bytes, a byte and a trailing dash, and a bracket that never closes. |
| `GlobLaws.SameLetter` | wedb_pubsub/src/glob.rs:63-145 | A byte matches a byte exactly if they are equal, or one letter in two cases when case is ignored. |
| `GlobLaws.ClassMeans` | wedb_pubsub/src/glob.rs:151-225 | A class holds exactly the bytes between the ends of one of its ranges, in either order. |
| `GlobLaws.CaseIgnored` | wedb_pubsub/src/glob.rs:151-225 | Ignoring case, a range of letters holds both cases. |
| `Glob.OnlyStarsLeft` | wedb_pubsub/src/glob.rs:139-145 | At the end of the key the rest matches exactly if it is all stars. |
| `Backlog.ReplicationBacklog.constructor` | wedb_repl/src/backlog.rs:31-40 | An empty ring of at least 1024 bytes. |
| `Backlog.ReplicationBacklog.Feed` | wedb_repl/src/backlog.rs:83-115 | The ring holds the last bytes of the log after straight, wrapping and oversized feeds. |
| `Backlog.ReplicationBacklog.Clear` | wedb_repl/src/backlog.rs:157-160 | Empties the log; offsets go on. |
| `Backlog.ReplicationBacklog.SetMasterOffset` | wedb_repl/src/backlog.rs:62-65 | Renumbers the log to end at an offset. |
| `Backlog.ReplicationBacklog.Slices` | wedb_repl/src/backlog.rs:119-141 | At most two slices that together are the log from an in-range offset to the limit or the end. |
| `Backlog.ReplicationBacklog.ReadBytes` | wedb_repl/src/backlog.rs:144-154 | Exactly the log bytes from an in-range offset, and nothing for any other. |
| `Backlog.FeedStraight` | wedb_repl/src/backlog.rs:99-114 | A feed that fits before the end keeps the ring a suffix of the log. |
| `Backlog.FeedWrapped` | wedb_repl/src/backlog.rs:106-114 | A feed that wraps keeps the ring a suffix of the log. |
| `Backlog.FeedOversized` | wedb_repl/src/backlog.rs:89-97 | A feed longer than the ring leaves its newest bytes. |
| `Backlog.ReadRing` | wedb_repl/src/backlog.rs:119-141 | A stretch of the ring is the stretch of the log that far back. |
| `BitPos.BitPosDriver` | wedb_redis/src/bitmap_simd.rs:1647-1763 | For every input, offsets in bytes or bits, it answers the first position in the resolved range that holds the bit, the total length for a clear bit searched to the end, or -1. |
| `BitPos.ByteSearchScalar` | wedb_redis/src/bitmap_simd.rs:1364-1421 | The 8/4/2/1-byte ladder finds the first wanted bit of the byte range. |
| `BitPos.ByteSearchSimd` | wedb_redis/src/bitmap_simd.rs:1440-1505 | The 128-byte batches, vectors and scalar tail find the first wanted bit. |
| `BitPos.Scan32` | wedb_redis/src/bitmap_simd.rs:1348-1361 | A vector known to hold the bit yields its first position, and its fall-through is never reached. |
| `BitPos.PickVector` | wedb_redis/src/bitmap_simd.rs:1440-1505 | Of a batch known to hold the bit, the first vector that does is picked. |
| `BitPos.BatchMeans` | wedb_redis/src/bitmap_simd.rs:1440-1505 | The combined batch test is blank exactly when all 128 bytes are. |
| `BitPos.ByteSearch` | wedb_redis/src/bitmap_simd.rs:1509-1531 | Both kernels agree with the scan of the range. |
| `BitPos.MaskedSearch` | wedb_redis/src/bitmap_simd.rs:1302-1316 | The mask table restricts the search to the bits of one byte in range. |
| `BitPos.BitSearch` | wedb_redis/src/bitmap_simd.rs:1550-1613 | Edge bytes by mask and whole bytes by the kernels find the first wanted bit of a bit range. |
| `BitPos.NegativeOffset` | wedb_redis/src/bitmap_simd.rs:1338-1344 | A negative offset counts from the end exactly when it is above minus the length, and lands past the data exactly when it is a multiple of the length. |
| `BitPos.NegativeStart` | wedb_redis/src/bitmap_simd.rs:1647-1763 | A negative start above minus the length answers as the start that many units from the end; a negative multiple of the length answers -1 whatever the data. |
| `BitPos.LastByteMissed` | wedb_redis/src/bitmap_simd.rs:1338-1344 | A byte of ones searched for a one from its last byte on answers -1, though bit 0 is set. |
| `BitPos.NegativeEnd` | wedb_redis/src/bitmap_simd.rs:1647-1763 | An end of -1 is the whole data with what follows it; one above minus the length counts from the end; a negative multiple of the length below -1 is the last unit. |
| `BitPos.FirstByteOverrun` | wedb_redis/src/bitmap_simd.rs:1338-1344 | Bytes 0x00 and 0xFF searched for a one up to minus two answer 8, where an end of 0 answers -1. |

## Left out

- Socket, connection, session and command-parsing code, Lua, ACL, pub/sub registries, benchmarks and demos.
- Wake-up liveness of blocked clients.
- The periodic sweep over all keys of the blocking broker as a loop; its steps (compress, collect, forget sessions) are steps of the machine.
- Observers of the blocking broker are entries of a table, not objects of their own, so nothing is said about sharing them.
- Provider.MemoryCollectionStore.PutSorted: takes the members ZADD leaves behind as given, because score ordering and score updates are floating-point matters.
- Parsing of counts and directions in blocking commands: commands are modelled with their arguments already parsed.
- Failure reports and PFAIL and FAIL voting; which nodes an outgoing packet tells of is chosen at random in the code and a parameter here.
- Re-initialising the local worker after start-up, which can duplicate an identifier, and the test-only configuration override.
- CRC16 key hashing and multi-key CROSSSLOT checks; routing starts from a slot number.
- The word layout of the slot bitmap; a set of slot numbers stands for it.
- The decimal and bracket text of slot tokens and addresses, and file saving and recovery; a saved file is a list of nodes with typed tokens.
- Case-insensitive comparison of node identifiers, since they are canonical.
- Floating-point estimation of HyperLogLog cardinalities, and hashing of elements.
- Memory accounting, capacities and shrinking of buffers.
- The serialized forms of lists and sketches, HINCRBY and HINCRBYFLOAT, HSCAN and random fields: easy members beside the ones modelled.
- Pages are values in the page directory rather than objects; the directory owns them, so there is no sharing to model. The deletion mask of a page is 64 booleans.
- Overflow of the 64-bit replication offset.
- BITOP and BITCOUNT kernels and CPU dispatch; a vector load is a slice of the bytes.
