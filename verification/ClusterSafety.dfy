/**
  Every run of administrative commands and gossip: what stays true of the slot
  table, where clients are sent, and what gossip cannot take away.
 */
module ClusterSafety {
  import opened Common
  import opened ClusterConfig
  import opened ClusterGossip

  datatype Op =
    | OpAddSlots(named: seq<nat>)
    | OpDelSlots(named: seq<nat>)
    | OpMigrate(slot: nat, node: NodeId)
    | OpImport(slot: nat, node: NodeId)
    | OpGiveTo(slot: nat, node: NodeId)
    | OpStabilize(slot: nat)
    | OpMeet(address: string, port: nat, who: Option<NodeId>)
    | OpForget(node: NodeId)
    | OpReset(soft: bool, hasKeys: bool, newId: NodeId)
    | OpFailover
    | OpReplicate(node: NodeId)
    | OpReplicateNoOne
    | OpSetEpoch(epoch: int)
    | OpBumpEpoch
    | OpGossip(banned: set<NodeId>, packet: Packet)

  function Next(c: Config, op: Op): (r: Config)
    requires |c.slots| == SLOTS
    ensures |r.slots| == SLOTS
  {
    match op
    case OpAddSlots(named) => AddSlots(c, named).1
    case OpDelSlots(named) => DelSlots(c, named).1
    case OpMigrate(slot, node) => Migrate(c, slot, node).1
    case OpImport(slot, node) => Import(c, slot, node).1
    case OpGiveTo(slot, node) => GiveTo(c, slot, node).1
    case OpStabilize(slot) => Stabilize(c, slot).1
    case OpMeet(address, port, who) => Meet(c, address, port, who).1
    case OpForget(node) => Forget(c, node).1
    case OpReset(soft, hasKeys, newId) => Reset(c, soft, hasKeys, newId).1
    case OpFailover => Failover(c).1
    case OpReplicate(node) => Replicate(c, node).1
    case OpReplicateNoOne => ReplicateNoOne(c).1
    case OpSetEpoch(epoch) => SetEpoch(c, epoch).1
    case OpBumpEpoch => BumpEpoch(c).1
    case OpGossip(banned, packet) => GossipMerged(c, banned, packet)
  }

  // ----- The invariant -----------------------------------------------------

  /** Table indices fit in sixteen bits. */
  predicate Fits(c: Config) {
    |c.workers| <= 65536
  }

  /** A slot names a worker in the table, nobody exactly when offline, and a known remote node while moving. */
  predicate SlotOk(workers: seq<Worker>, s: HashSlot) {
    && s.worker < |workers|
    && (s.state == Offline <==> s.worker == 0)
    && s.state in {Offline, Stable, Migrating, Importing}
    && (s.state in {Migrating, Importing} ==> s.worker >= 2 && workers[s.worker].id.Some?)
  }

  ghost predicate SlotsOk(c: Config) {
    forall s :: 0 <= s < |c.slots| ==> SlotOk(c.workers, c.slots[s])
  }

  ghost predicate DistinctIds(workers: seq<Worker>) {
    forall i, j :: 1 <= i < j < |workers| && workers[i].id.Some? ==> workers[i].id != workers[j].id
  }

  ghost predicate TableOk(workers: seq<Worker>) {
    |workers| >= 2 && workers[0] == NOBODY && workers[LOCAL].id.Some? && DistinctIds(workers)
  }

  ghost predicate Inv(c: Config) {
    |c.slots| == SLOTS && TableOk(c.workers) && SlotsOk(c)
  }

  lemma {:induction false} InitialInv(local: Worker)
    requires local.id.Some?
    ensures Inv(Initial(local))
  {
  }

  /** Workers may change as long as no entry loses its identifier or its place. */
  lemma {:induction false} SlotsOkKept(slots: seq<HashSlot>, before: seq<Worker>, after: seq<Worker>)
    requires SlotsOk(Config(slots, before)) && |before| <= |after|
    requires forall i :: 0 <= i < |before| && before[i].id.Some? ==> after[i].id.Some?
    ensures SlotsOk(Config(slots, after))
  {
    forall s | 0 <= s < |slots|
      ensures SlotOk(after, slots[s])
    {
      assert SlotOk(before, Config(slots, before).slots[s]);
    }
  }

  lemma {:induction false} LocalChanged(c: Config, w: Worker)
    requires Inv(c) && w.id == c.workers[LOCAL].id
    ensures Inv(c.(workers := c.workers[LOCAL := w]))
  {
    SlotsOkKept(c.slots, c.workers, c.workers[LOCAL := w]);
  }

  lemma {:induction false} OneSlotChanged(c: Config, slot: nat, s: HashSlot)
    requires Inv(c) && slot < SLOTS && SlotOk(c.workers, s)
    ensures Inv(c.(slots := c.slots[slot := s]))
  {
  }

  /** Looking up another node's identifier finds a remote entry. */
  lemma {:induction false} FindRemote(workers: seq<Worker>, id: NodeId)
    requires TableOk(workers) && workers[LOCAL].id != Some(id)
    ensures Find(workers, id) == 0 || Find(workers, id) >= 2
  {
  }

  lemma {:induction false} FindUnique(workers: seq<Worker>, id: NodeId, at: nat)
    requires DistinctIds(workers) && 1 <= at < |workers| && workers[at].id == Some(id)
    ensures Find(workers, id) == at
  {
    FindIs(workers, id, at);
  }

  // ----- Each command keeps it ---------------------------------------------

  lemma {:induction false} AddKeeps(c: Config, named: seq<nat>)
    requires Inv(c)
    ensures Inv(AddSlots(c, named).1)
  {
    assert SlotOk(c.workers, OWN);
  }

  lemma {:induction false} DelKeeps(c: Config, named: seq<nat>)
    requires Inv(c)
    ensures Inv(DelSlots(c, named).1)
  {
    var cleared := c.(slots := Assigned(c.slots, named, UNCLAIMED));
    assert SlotOk(c.workers, UNCLAIMED);
    assert Inv(cleared);
    LocalChanged(cleared, c.workers[LOCAL].(epoch := MaxEpoch(cleared) + 1));
  }

  lemma {:induction false} MigrateKeeps(c: Config, slot: nat, node: NodeId)
    requires Inv(c) && Fits(c)
    ensures Inv(Migrate(c, slot, node).1)
  {
    if Migrate(c, slot, node).0.Done? {
      FindRemote(c.workers, node);
      OneSlotChanged(c, slot, HashSlot(Find(c.workers, node), Migrating));
    }
  }

  lemma {:induction false} ImportKeeps(c: Config, slot: nat, node: NodeId)
    requires Inv(c) && Fits(c)
    ensures Inv(Import(c, slot, node).1)
  {
    if Import(c, slot, node).0.Done? {
      var owner := c.slots[slot].worker;
      assert SlotOk(c.workers, c.slots[slot]);
      FindUnique(c.workers, node, owner);
      OneSlotChanged(c, slot, HashSlot(owner, Importing));
    }
  }

  lemma {:induction false} GiveToKeeps(c: Config, slot: nat, node: NodeId)
    requires Inv(c) && Fits(c)
    ensures Inv(GiveTo(c, slot, node).1)
  {
    if GiveTo(c, slot, node).0.Done? {
      if c.slots[slot].state == Importing {
        OneSlotChanged(c, slot, OWN);
        var given := SetSlot(c, slot, LOCAL, Stable);
        LocalChanged(given, c.workers[LOCAL].(epoch := MaxEpoch(given) + 1));
      } else {
        OneSlotChanged(c, slot, HashSlot(Find(c.workers, node), Stable));
      }
    }
  }

  lemma {:induction false} StabilizeKeeps(c: Config, slot: nat)
    requires Inv(c)
    ensures Inv(Stabilize(c, slot).1)
  {
    if slot < SLOTS {
      assert SlotOk(c.workers, c.slots[slot]);
      OneSlotChanged(c, slot, OWN);
      if c.slots[slot].state == Importing {
        OneSlotChanged(c, slot, HashSlot(c.slots[slot].worker, Stable));
      }
    }
  }

  lemma {:induction false} MeetKeeps(c: Config, address: string, port: nat, id: Option<NodeId>)
    requires Inv(c)
    ensures Inv(Meet(c, address, port, id).1)
  {
    var after := Meet(c, address, port, id).1;
    assert TableOk(after.workers);
    SlotsOkKept(c.slots, c.workers, after.workers);
  }

  lemma {:induction false} ForgetKeeps(c: Config, node: NodeId)
    requires Inv(c) && Fits(c)
    ensures Inv(Forget(c, node).1)
  {
    if Forget(c, node).0.Done? {
      var at := Find(c.workers, node);
      FindRemote(c.workers, node);
      var after := Forget(c, node).1;
      assert TableOk(after.workers);
      forall s | 0 <= s < |after.slots|
        ensures SlotOk(after.workers, after.slots[s])
      {
        assert SlotOk(c.workers, c.slots[s]);
      }
    }
  }

  lemma {:induction false} FailoverKeeps(c: Config)
    requires Inv(c)
    ensures Inv(Failover(c).1)
  {
    if Failover(c).0.Done? {
      var former := Find(c.workers, LocalPrimary(c).value);
      var taken := if former > 0 then c.(slots := TakenOver(c.slots, U16(former))) else c;
      assert SlotOk(c.workers, OWN);
      assert Inv(taken);
      LocalChanged(taken, c.workers[LOCAL].(role := Primary, replicaOf := None, epoch := MaxEpoch(c) + 1));
    }
  }

  lemma {:induction false} ReplicateKeeps(c: Config, node: NodeId)
    requires Inv(c) && Fits(c)
    ensures Inv(Replicate(c, node).1)
  {
    if Replicate(c, node).0.Done? {
      var at := Find(c.workers, node);
      var handed := c.(slots := HandedOver(c.slots, at));
      assert SlotOk(c.workers, HashSlot(at, Stable));
      assert Inv(handed);
      LocalChanged(handed, c.workers[LOCAL].(role := Replica, replicaOf := Some(node)));
    }
  }

  lemma {:induction false} EpochOpsKeep(c: Config, epoch: int)
    requires Inv(c)
    ensures Inv(SetEpoch(c, epoch).1) && Inv(BumpEpoch(c).1) && Inv(ReplicateNoOne(c).1) && Inv(Bumped(c))
  {
    LocalChanged(c, c.workers[LOCAL].(epoch := epoch));
    LocalChanged(c, c.workers[LOCAL].(epoch := MaxEpoch(c) + 1));
    LocalChanged(c, c.workers[LOCAL].(role := Primary, replicaOf := None, epoch := MaxEpoch(c) + 1));
  }

  lemma {:induction false} ResetKeeps(c: Config, soft: bool, hasKeys: bool, newId: NodeId)
    requires Inv(c)
    ensures Inv(Reset(c, soft, hasKeys, newId).1)
  {
    InitialInv(ResetWorker(c, soft, newId));
  }

  // ----- Gossip keeps it ---------------------------------------------------

  lemma {:induction false} MergeKeepsTable(workers: seq<Worker>, m: Meta, direct: bool)
    requires TableOk(workers) && m.id != workers[LOCAL].id
    ensures TableOk(MergedWorkers(workers, m, direct))
  {
  }

  lemma {:induction false} MergeAllKeepsTable(workers: seq<Worker>, heard: seq<Meta>)
    requires TableOk(workers) && forall m :: m in heard ==> m.id != workers[LOCAL].id
    ensures TableOk(MergedAll(workers, heard)) && MergedAll(workers, heard)[LOCAL] == workers[LOCAL]
  {
    MergeAllSpares(workers, heard, LOCAL);
    if heard != [] {
      var front, last := heard[..|heard| - 1], heard[|heard| - 1];
      MergeAllKeepsTable(workers, front);
      assert last in heard;
      MergeKeepsTable(MergedAll(workers, front), last, false);
    }
  }

  lemma {:induction false} MergedSlotOk(
      workers: seq<Worker>, cur: HashSlot, sender: nat, epoch: int, claims: bool, spoken: bool)
    requires SlotOk(workers, cur) && 2 <= sender < |workers|
    ensures SlotOk(workers, MergedSlot(workers, cur, sender, epoch, claims, spoken))
  {
  }

  lemma {:induction false} SlotsMergedKeeps(c: Config, p: Packet)
    requires Inv(c) && Fits(c) && p.sender.id != LocalId(c)
    ensures Inv(SlotsMerged(c, p))
  {
    if p.sender.id.Some? && Find(c.workers, p.sender.id.value) != 0 {
      var at := Find(c.workers, p.sender.id.value);
      FindRemote(c.workers, p.sender.id.value);
      hide TableOk, FindFrom, SlotOk, MergedSlot;
      forall s | 0 <= s < |c.slots|
        ensures SlotOk(c.workers, MergedSlots(c, at, p)[s])
      {
        MergedSlotOk(c.workers, c.slots[s], at, p.sender.epoch, s in p.claimed, s in p.claimed || s in p.migrating);
      }
    }
  }

  lemma {:induction false} ProcessedKeeps(c: Config, banned: set<NodeId>, p: Packet)
    requires Inv(c) && Fits(Processed(c, banned, p))
    ensures Inv(Processed(c, banned, p))
  {
    if Accepts(c, banned, p) {
      var greeted := c.(workers := MergedWorkers(c.workers, p.sender, true));
      var heard := Heard(LocalId(c), banned, p.sender.id, Considered(p));
      MergeKeepsTable(c.workers, p.sender, true);
      MergeGrows(c.workers, p.sender, true);
      SlotsOkKept(c.slots, c.workers, greeted.workers);
      HeardRelevant(LocalId(c), banned, p.sender.id, Considered(p));
      MergeSpares(c.workers, p.sender, true, LOCAL);
      MergeAllGrows(greeted.workers, heard);
      SlotsMergedKeeps(greeted, p);
      var first := AfterSender(c, p);
      MergeAllKeepsTable(first.workers, heard);
      SlotsOkKept(first.slots, first.workers, MergedAll(first.workers, heard));
    }
  }

  lemma {:induction false} GossipKeeps(c: Config, banned: set<NodeId>, p: Packet)
    requires Inv(c) && Fits(GossipMerged(c, banned, p))
    ensures Inv(GossipMerged(c, banned, p))
  {
    hide Processed;
    ProcessedKeeps(c, banned, p);
    EpochOpsKeep(Processed(c, banned, p), 0);
  }

  // ----- Runs --------------------------------------------------------------

  lemma {:induction false} StepKeepsInv(c: Config, op: Op)
    requires Inv(c) && Fits(c) && Fits(Next(c, op))
    ensures Inv(Next(c, op))
  {
    hide Inv, Fits, AddSlots, DelSlots, Migrate, Import, GiveTo, Stabilize, Meet, Forget, Reset, Failover,
      Replicate, ReplicateNoOne, SetEpoch, BumpEpoch, GossipMerged;
    match op
    case OpAddSlots(named) => AddKeeps(c, named);
    case OpDelSlots(named) => DelKeeps(c, named);
    case OpMigrate(slot, node) => MigrateKeeps(c, slot, node);
    case OpImport(slot, node) => ImportKeeps(c, slot, node);
    case OpGiveTo(slot, node) => GiveToKeeps(c, slot, node);
    case OpStabilize(slot) => StabilizeKeeps(c, slot);
    case OpMeet(address, port, who) => MeetKeeps(c, address, port, who);
    case OpForget(node) => ForgetKeeps(c, node);
    case OpReset(soft, hasKeys, newId) => ResetKeeps(c, soft, hasKeys, newId);
    case OpFailover => FailoverKeeps(c);
    case OpReplicate(node) => ReplicateKeeps(c, node);
    case OpReplicateNoOne => EpochOpsKeep(c, 0);
    case OpSetEpoch(epoch) => EpochOpsKeep(c, epoch);
    case OpBumpEpoch => EpochOpsKeep(c, 0);
    case OpGossip(banned, packet) => GossipKeeps(c, banned, packet);
  }

  /** A run: each step leaves a table whose indices fit. */
  ghost predicate Runs(c: Config, ops: seq<Op>)
    requires |c.slots| == SLOTS
    decreases |ops|
  {
    Fits(c) && (ops != [] ==> Runs(Next(c, ops[0]), ops[1..]))
  }

  ghost function After(c: Config, ops: seq<Op>): Config
    requires |c.slots| == SLOTS && Runs(c, ops)
    decreases |ops|
  {
    if ops == [] then c else After(Next(c, ops[0]), ops[1..])
  }

  lemma {:induction false} RunKeepsInv(c: Config, ops: seq<Op>)
    requires Inv(c) && Runs(c, ops)
    ensures Inv(After(c, ops))
    decreases |ops|
  {
    assert |c.slots| == SLOTS;
    hide Inv, Next;
    if ops != [] {
      assert Fits(Next(c, ops[0]));
      StepKeepsInv(c, ops[0]);
      RunKeepsInv(Next(c, ops[0]), ops[1..]);
    }
  }

  /**
    In every state reached from a fresh configuration, a slot names a worker in the
    table, is offline exactly when it names nobody, and names a remote worker with
    an identifier while it is moving.
   */
  lemma {:induction false} SlotTableSound(local: Worker, ops: seq<Op>, slot: nat)
    requires local.id.Some? && Runs(Initial(local), ops) && slot < SLOTS
    ensures var c := After(Initial(local), ops);
            |c.slots| == SLOTS && SlotOk(c.workers, c.slots[slot]) && DistinctIds(c.workers)
  {
    InitialInv(local);
    RunKeepsInv(Initial(local), ops);
  }

  // ----- Where clients are sent --------------------------------------------

  datatype Route =
    | Serve(slot: nat)
    | Moved(slot: nat, worker: nat, address: string, port: nat)
    | Ask(slot: nat, worker: nat, address: string, port: nat)
    | Down

  function Endpoint(c: Config, worker: nat): Option<(string, nat)> {
    if worker == 0 || worker >= |c.workers| then None
    else
      var w := c.workers[worker];
      if w.address == "unassigned" || w.port == 0 then None else Some((w.address, w.port))
  }

  function StateOf(c: Config, slot: nat): SlotState {
    if slot < |c.slots| then c.slots[slot].state else Invalid
  }

  /** The owner to send a client to: a replica sends clients of its own entry to its primary. */
  function OwnerFor(c: Config, slot: nat): nat
    requires slot < |c.slots|
  {
    var owner := c.slots[slot].Effective();
    if owner == LOCAL && LocalRole(c) == Replica && LocalPrimary(c).Some?
       && Find(c.workers, LocalPrimary(c).value) > 0
    then Find(c.workers, LocalPrimary(c).value)
    else owner
  }

  function RouteSlot(c: Config, slot: nat, asking: bool, keyExists: bool, readOnly: bool): Route
    requires |c.slots| == SLOTS
  {
    var state := StateOf(c, slot);
    if IsLocal(c, slot, readOnly) then
      if state == Stable then Serve(slot)
      else if state == Migrating then
        if keyExists then Serve(slot)
        else
          var target := c.slots[slot].worker;
          var e := Endpoint(c, target);
          if e.None? then Down else Ask(slot, target, e.value.0, e.value.1)
      else Down
    else if state == Importing && asking then Serve(slot)
    else if state == Importing || state == Stable then
      var owner := OwnerFor(c, slot);
      var e := Endpoint(c, owner);
      if e.None? then Down else Moved(slot, owner, e.value.0, e.value.1)
    else Down
  }

  /** Clients can be sent to the entry. */
  predicate HasEndpoint(c: Config, worker: nat) {
    1 <= worker < |c.workers| && c.workers[worker].address != "unassigned" && c.workers[worker].port != 0
  }

  /** The answer sends the client to an entry, at its own address. */
  predicate SendsTo(c: Config, r: Route, slot: nat, worker: nat) {
    && (r.Moved? || r.Ask?) && r.slot == slot && r.worker == worker < |c.workers|
    && r.address == c.workers[worker].address && r.port == c.workers[worker].port
  }

  /**
    What a node that is no replica answers: it serves its own slots, keys still here of a slot on its
    way out, and asking clients of a slot on its way in; it says ASK for the target of a move and
    MOVED for the recorded owner; it is down for a free slot and when there is nowhere to send to.
   */
  predicate PrimaryAnswer(c: Config, slot: nat, asking: bool, keyExists: bool, r: Route)
    requires slot < |c.slots|
  {
    var s := c.slots[slot];
    var served := s == OWN || (s.state == Migrating && keyExists) || (s.state == Importing && asking);
    && (r == Serve(slot) <==> served)
    && (r.Ask? <==> s.state == Migrating && !served && HasEndpoint(c, s.worker))
    && (r.Moved? <==> (s.state == Stable || s.state == Importing) && !served && HasEndpoint(c, s.worker))
    && (r.Ask? || r.Moved? ==> SendsTo(c, r, slot, s.worker))
    && (r == Down <==> !served && (s.state == Offline || !HasEndpoint(c, s.worker)))
  }

  lemma {:induction false} PrimaryRoutes(c: Config, slot: nat, asking: bool, keyExists: bool, readOnly: bool)
    requires Inv(c) && LocalRole(c) != Replica && slot < SLOTS
    ensures PrimaryAnswer(c, slot, asking, keyExists, RouteSlot(c, slot, asking, keyExists, readOnly))
  {
    assert SlotOk(c.workers, c.slots[slot]);
    hide SlotsOk, DistinctIds;
  }

  /**
    A replica serves read-only clients its primary's slots, and slots recorded for itself; other
    clients of the latter it sends to its primary if that has an entry.  `p` is that entry.
   */
  lemma {:induction false} ReplicaRoutes(
      c: Config, slot: nat, asking: bool, keyExists: bool, readOnly: bool, p: nat)
    requires Inv(c) && LocalRole(c) == Replica && slot < SLOTS
    requires LocalPrimary(c).Some? && (exists i :: 1 <= i < |c.workers| && c.workers[i].id == LocalPrimary(c)) ==>
               1 <= p < |c.workers| && c.workers[p].id == LocalPrimary(c)
    ensures
      var r, s := RouteSlot(c, slot, asking, keyExists, readOnly), c.slots[slot];
      var primarys := s.worker >= 2 && LocalPrimary(c).Some? && c.workers[s.worker].id == LocalPrimary(c);
      var served :=
        || (s.state == Stable && readOnly && (s == OWN || primarys))
        || (s.state == Migrating && keyExists)
        || (s.state == Importing && asking && !(readOnly && primarys));
      var stuck := s.state == Offline || (s.state == Importing && readOnly && primarys);
      var known := 1 <= p < |c.workers| && LocalPrimary(c).Some? && c.workers[p].id == LocalPrimary(c);
      var owner := if s == OWN && known then p else s.worker;
      && (r == Serve(slot) <==> served)
      && (r.Ask? <==> s.state == Migrating && !served && HasEndpoint(c, owner))
      && (r.Moved? <==> s.state != Migrating && !served && !stuck && HasEndpoint(c, owner))
      && (r.Ask? || r.Moved? ==> SendsTo(c, r, slot, owner))
      && (r == Down <==> stuck || (!served && !HasEndpoint(c, owner)))
  {
    assert SlotOk(c.workers, c.slots[slot]);
    if LocalPrimary(c).Some? && 1 <= p < |c.workers| && c.workers[p].id == LocalPrimary(c) {
      FindUnique(c.workers, LocalPrimary(c).value, p);
    }
    hide SlotsOk, DistinctIds, FindFrom;
  }

  lemma {:induction false} NoSuchSlot(c: Config, slot: nat, asking: bool, keyExists: bool, readOnly: bool)
    requires |c.slots| == SLOTS <= slot
    ensures RouteSlot(c, slot, asking, keyExists, readOnly) == Down
  {
  }

  /** A node that is not a replica never sends a client to itself. */
  lemma {:induction false} PrimaryNeverNamesItself(c: Config, slot: nat, asking: bool, keyExists: bool, readOnly: bool)
    requires Inv(c) && LocalRole(c) != Replica
    ensures var r := RouteSlot(c, slot, asking, keyExists, readOnly);
            r.Moved? || r.Ask? ==>
              && 2 <= r.worker < |c.workers|
              && r.address == c.workers[r.worker].address && r.port == c.workers[r.worker].port
  {
    if slot < SLOTS {
      assert SlotOk(c.workers, c.slots[slot]);
    }
  }

  /** No answer to ASK names the local entry, and a replica's MOVED does exactly when it cannot name its primary. */
  lemma {:induction false} ReplicaNamesItselfWhen(c: Config, slot: nat, asking: bool, keyExists: bool, readOnly: bool)
    requires Inv(c) && LocalRole(c) == Replica && slot < SLOTS
    ensures var r := RouteSlot(c, slot, asking, keyExists, readOnly);
            && (r.Ask? ==> r.worker >= 2)
            && ((r.Moved? && r.worker == LOCAL) <==>
                  && c.slots[slot] == OWN && !readOnly && Endpoint(c, LOCAL).Some?
                  && (LocalPrimary(c).None? || Find(c.workers, LocalPrimary(c).value) <= LOCAL))
  {
    assert SlotOk(c.workers, c.slots[slot]);
  }

  /** The routing guarantee over every run. */
  lemma {:induction false} ReachableRoutes(
      local: Worker, ops: seq<Op>, slot: nat, asking: bool, keyExists: bool, readOnly: bool)
    requires local.id.Some? && Runs(Initial(local), ops)
    ensures var c := After(Initial(local), ops);
            LocalRole(c) == Primary ==>
              && |c.slots| == SLOTS
              && var r := RouteSlot(c, slot, asking, keyExists, readOnly);
                 && (r.Moved? || r.Ask? ==> 2 <= r.worker < |c.workers|)
                 && (slot < SLOTS ==> PrimaryAnswer(c, slot, asking, keyExists, r))
  {
    InitialInv(local);
    RunKeepsInv(Initial(local), ops);
    var c := After(Initial(local), ops);
    hide After, Runs, RouteSlot, PrimaryAnswer;
    if LocalRole(c) == Primary {
      PrimaryNeverNamesItself(c, slot, asking, keyExists, readOnly);
      if slot < SLOTS {
        PrimaryRoutes(c, slot, asking, keyExists, readOnly);
      }
    }
  }

  // ----- What gossip cannot take away --------------------------------------

  /**
    One merge and a slot we own: it changes hands exactly when an accepted primary outranks us or
    claims with epoch 0.
   */
  lemma {:induction false} OwnSlotChangesWhen(c: Config, banned: set<NodeId>, p: Packet, slot: nat)
    requires Inv(c) && Fits(Processed(c, banned, p)) && slot < SLOTS && c.slots[slot] == OWN
    ensures GossipMerged(c, banned, p).slots[slot] != OWN <==>
              && Accepts(c, banned, p) && p.sender.role == Primary && slot in p.claimed
              && (p.sender.epoch == 0 || p.sender.epoch > LocalEpoch(c))
  {
    if Accepts(c, banned, p) {
      MergeAllGrows(AfterSender(c, p).workers, Heard(LocalId(c), banned, p.sender.id, Considered(p)));
      SameSlots(c, banned, p);
      hide Processed, GossipMerged, AfterSender, Inv;
      SenderAgainstOwn(c, p, slot);
    }
  }

  lemma {:induction false} SameSlots(c: Config, banned: set<NodeId>, p: Packet)
    ensures GossipMerged(c, banned, p).slots == if Accepts(c, banned, p) then AfterSender(c, p).slots else c.slots
  {
    hide AfterSender, MergedAll, Heard, MaxEpochTo;
  }

  lemma {:induction false} SenderAgainstOwn(c: Config, p: Packet, slot: nat)
    requires Inv(c) && Fits(AfterSender(c, p)) && slot < SLOTS && c.slots[slot] == OWN
    requires p.sender.id.Some? && LocalId(c) != p.sender.id
    ensures |AfterSender(c, p).slots| == SLOTS
    ensures AfterSender(c, p).slots[slot] != OWN <==>
              && p.sender.role == Primary && slot in p.claimed
              && (p.sender.epoch == 0 || p.sender.epoch > LocalEpoch(c))
  {
    Greeted(c, p);
    hide Inv, MergedWorkers, Find;
    var greeted := c.(workers := MergedWorkers(c.workers, p.sender, true));
    if p.sender.role == Primary {
      OwnYields(greeted, p, slot);
    }
  }

  /** Once greeted, a remote sender has its own entry, and ours is what it was. */
  lemma {:induction false} Greeted(c: Config, p: Packet)
    requires Inv(c) && Fits(AfterSender(c, p)) && p.sender.id.Some? && LocalId(c) != p.sender.id
    ensures
      var greeted := MergedWorkers(c.workers, p.sender, true);
      && LOCAL < |c.workers| && |c.slots| == SLOTS && |c.workers| <= |greeted| <= 65536
      && greeted[LOCAL] == c.workers[LOCAL]
      && 2 <= Find(greeted, p.sender.id.value) < |greeted|
  {
    var greeted := MergedWorkers(c.workers, p.sender, true);
    MergeKeepsTable(c.workers, p.sender, true);
    MergeSpares(c.workers, p.sender, true, LOCAL);
    MergeGrows(c.workers, p.sender, true);
    SettledByMerge(c.workers, p.sender, true);
    FindRemote(greeted, p.sender.id.value);
    assert |greeted| <= 65536;
    hide MergedWorkers, FindFrom, SlotsOk, DistinctIds;
  }

  lemma {:induction false} OwnYields(c: Config, p: Packet, slot: nat)
    requires |c.slots| == SLOTS && slot < SLOTS && c.slots[slot] == OWN && LOCAL < |c.workers| <= 65536
    requires p.sender.id.Some? && 2 <= Find(c.workers, p.sender.id.value) < |c.workers|
    ensures |SlotsMerged(c, p).slots| == SLOTS
    ensures SlotsMerged(c, p).slots[slot] != OWN <==>
              slot in p.claimed && (p.sender.epoch == 0 || p.sender.epoch > LocalEpoch(c))
  {
    hide Find;
  }

  /** The local epoch never falls. */
  lemma {:induction false} EpochNeverFalls(c: Config, banned: set<NodeId>, p: Packet)
    requires |c.workers| > LOCAL
    ensures LocalEpoch(GossipMerged(c, banned, p)) >= LocalEpoch(c)
    ensures |GossipMerged(c, banned, p).workers| > LOCAL
  {
    ProcessedSparesLocal(c, banned, p, LOCAL);
    hide Processed;
  }

  function GossipAll(c: Config, banned: set<NodeId>, ps: seq<Packet>): Config
    decreases |ps|
  {
    if ps == [] then c else GossipAll(GossipMerged(c, banned, ps[0]), banned, ps[1..])
  }

  ghost predicate GossipFits(c: Config, banned: set<NodeId>, ps: seq<Packet>)
    decreases |ps|
  {
    Fits(c) && (ps != [] ==> GossipFits(GossipMerged(c, banned, ps[0]), banned, ps[1..]))
  }

  /** A slot we own survives any packets whose epochs are not 0 and do not exceed ours. */
  lemma {:induction false} OwnSlotSurvives(c: Config, banned: set<NodeId>, ps: seq<Packet>, slot: nat, epoch: int)
    requires Inv(c) && GossipFits(c, banned, ps) && slot < SLOTS && c.slots[slot] == OWN
    requires epoch <= LocalEpoch(c)
    requires forall p :: p in ps ==> p.sender.epoch != 0 && p.sender.epoch <= epoch
    ensures var after := GossipAll(c, banned, ps);
            |after.slots| == SLOTS && after.slots[slot] == OWN && LocalEpoch(after) >= LocalEpoch(c)
    decreases |ps|
  {
    if ps != [] {
      var next := GossipMerged(c, banned, ps[0]);
      SameSize(c, banned, ps[0]);
      hide GossipMerged, Processed;
      assert Fits(next);
      GossipKeeps(c, banned, ps[0]);
      OwnSlotChangesWhen(c, banned, ps[0], slot);
      EpochNeverFalls(c, banned, ps[0]);
      OwnSlotSurvives(next, banned, ps[1..], slot, epoch);
    }
  }

  lemma {:induction false} SameSize(c: Config, banned: set<NodeId>, p: Packet)
    ensures |GossipMerged(c, banned, p).workers| == |Processed(c, banned, p).workers|
  {
    hide Processed;
  }

  /**
    A slot taken by failover or by completing an import stays ours through any
    gossip whose epochs run from 1 up to the largest known at the takeover.
   */
  lemma {:induction false} TakeoverIsPermanent(c: Config, op: Op, banned: set<NodeId>, ps: seq<Packet>, slot: nat)
    requires Inv(c) && Fits(c) && slot < SLOTS
    requires op.OpFailover? || op.OpGiveTo?
    requires op.OpFailover? ==> Failover(c).0.Done?
    requires op.OpGiveTo? ==>
      op.slot < SLOTS && c.slots[op.slot].state == Importing && GiveTo(c, op.slot, op.node).0.Done?
    requires Next(c, op).slots[slot] == OWN && GossipFits(Next(c, op), banned, ps)
    requires forall p :: p in ps ==> 1 <= p.sender.epoch <= MaxEpoch(Next(c, op))
    ensures var after := GossipAll(Next(c, op), banned, ps);
            && |after.slots| == SLOTS && after.slots[slot] == OWN
            && LocalEpoch(after) >= LocalEpoch(Next(c, op)) == MaxEpoch(c) + 1
  {
    var taken := Next(c, op);
    TakeoverOutranks(c, op);
    StepKeepsInv(c, op);
    hide Next, Inv, MaxEpochTo;
    OwnSlotSurvives(taken, banned, ps, slot, LocalEpoch(taken));
  }

  /** Taking over leaves the local epoch above every other in the table. */
  lemma {:induction false} TakeoverOutranks(c: Config, op: Op)
    requires Inv(c) && Fits(c)
    requires op.OpFailover? || op.OpGiveTo?
    requires op.OpFailover? ==> Failover(c).0.Done?
    requires op.OpGiveTo? ==>
      op.slot < SLOTS && c.slots[op.slot].state == Importing && GiveTo(c, op.slot, op.node).0.Done?
    ensures Fits(Next(c, op)) && LocalEpoch(Next(c, op)) == MaxEpoch(Next(c, op)) == MaxEpoch(c) + 1
  {
    hide MaxEpochTo, SlotsOk, DistinctIds, FindFrom;
    RaisedIsMax(c, Next(c, op));
  }

  lemma {:induction false} RaisedIsMax(before: Config, after: Config)
    requires |after.workers| == |before.workers| > LOCAL
    requires forall i :: 2 <= i < |before.workers| ==> after.workers[i] == before.workers[i]
    requires LocalEpoch(after) == MaxEpoch(before) + 1
    ensures MaxEpoch(after) == LocalEpoch(after)
  {
    hide MaxEpochTo;
  }

  /** With epoch 0 the guarantee fails: such a packet takes an owned slot from any node. */
  lemma {:induction false} EpochZeroTakesSlots(c: Config, p: Packet, slot: nat)
    requires Inv(c) && Fits(Processed(c, {}, p)) && slot < SLOTS && c.slots[slot] == OWN
    requires p.sender.id.Some? && p.sender.id != LocalId(c) && p.sender.role == Primary
    requires p.sender.epoch == 0 && p.claimed == [slot]
    ensures GossipMerged(c, {}, p).slots[slot] != OWN
  {
    OwnSlotChangesWhen(c, {}, p, slot);
  }
}
