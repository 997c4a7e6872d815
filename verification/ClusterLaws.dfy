/** What the administrative commands mean beside one another: undoing, repeating, and what they leave alone. */
module ClusterLaws {
  import opened Common
  import opened ClusterConfig
  import opened ClusterGossip
  import opened ClusterSafety

  /** Calling off a migration or an import leaves everything as it was. */
  lemma {:induction false} MoveCalledOff(c: Config, slot: nat, node: NodeId)
    requires Inv(c) && Fits(c)
    ensures Migrate(c, slot, node).0.Done? ==> Stabilize(Migrate(c, slot, node).1, slot).1 == c
    ensures Import(c, slot, node).0.Done? ==> Stabilize(Import(c, slot, node).1, slot).1 == c
  {
    if slot < SLOTS {
      assert SlotOk(c.workers, c.slots[slot]);
      assert c.slots[slot := c.slots[slot]] == c.slots;
      if Import(c, slot, node).0.Done? {
        FindUnique(c.workers, node, c.slots[slot].worker);
      }
    }
  }

  /** A migration that is completed gives the slot to its target, and nothing else changes. */
  lemma {:induction false} MigrationCompleted(c: Config, slot: nat, node: NodeId)
    requires Inv(c) && Fits(c) && Migrate(c, slot, node).0.Done?
    ensures var after := GiveTo(Migrate(c, slot, node).1, slot, node).1;
            && after.workers == c.workers
            && after.slots == c.slots[slot := HashSlot(Find(c.workers, node), Stable)]
  {
  }

  /** Slots added and then removed are as they were before. */
  lemma {:induction false} AddThenRemove(c: Config, named: seq<nat>)
    requires Inv(c) && AddSlots(c, named).0.Done?
    ensures DelSlots(AddSlots(c, named).1, named).0.Done?
    ensures DelSlots(AddSlots(c, named).1, named).1.slots == c.slots
  {
    var added := AddSlots(c, named).1;
    AddedWereOffline(c, named);
    NoneRefused(added, named);
    forall s | 0 <= s < SLOTS
      ensures Assigned(added.slots, named, UNCLAIMED)[s] == c.slots[s]
    {
      assert SlotOk(c.workers, c.slots[s]);
    }
    assert Assigned(added.slots, named, UNCLAIMED) == c.slots;
  }

  lemma {:induction false} AddedWereOffline(c: Config, named: seq<nat>)
    requires AddRefusal(c, named).None?
    ensures forall k :: k in named ==> k < |c.slots| && c.slots[k].state == Offline
  {
    if named != [] {
      AddedWereOffline(c, named[1..]);
      assert named == [named[0]] + named[1..];
    }
  }

  lemma {:induction false} NoneRefused(c: Config, named: seq<nat>)
    requires forall k :: k in named ==> k < |c.slots| && c.slots[k].worker != 0
    ensures DelRefusal(c, named).None?
  {
    if named != [] {
      assert named[0] in named && forall k :: k in named[1..] ==> k in named;
      NoneRefused(c, named[1..]);
    }
  }

  /** Meeting a node again changes nothing and finds the same entry. */
  lemma {:induction false} MeetTwice(c: Config, address: string, port: nat, id: Option<NodeId>)
    requires c.workers != []
    ensures Meet(Meet(c, address, port, id).1, address, port, id) == Meet(c, address, port, id)
  {
    var (reply, met) := Meet(c, address, port, id);
    hide FindFrom, FindAddress;
    if id.Some? {
      FindIs(met.workers, id.value, reply.value);
      assert met.workers[reply.value := met.workers[reply.value]] == met.workers;
    } else {
      FirstAddress(met.workers, address, port, reply.value, 1);
    }
  }

  lemma {:induction false} FirstAddress(workers: seq<Worker>, address: string, port: nat, at: nat, from: nat)
    requires 1 <= from <= at < |workers| && workers[at].address == address && workers[at].port == port
    requires forall i :: from <= i < at ==> !(workers[i].address == address && workers[i].port == port)
    ensures FindAddress(workers, address, port, from) == at
    decreases at - from
  {
    if from < at {
      FirstAddress(workers, address, port, at, from + 1);
    }
  }

  /**
    Forgetting a node renumbers the table, but every slot keeps its owner by name:
    only the forgotten node's own slots go offline, and slots that were moving to
    it come back.
   */
  lemma {:induction false} ForgetKeepsOwners(c: Config, node: NodeId, slot: nat)
    requires Inv(c) && Fits(c) && slot < SLOTS && Forget(c, node).0.Done?
    ensures var after := Forget(c, node).1; var at := Find(c.workers, node);
            var was, now := c.slots[slot], after.slots[slot];
            && Find(after.workers, node) == 0
            && (was.worker == at ==> now == if was.state == Migrating then OWN else UNCLAIMED)
            && (was.worker != at ==>
                  && now.state == was.state && now.worker < |after.workers|
                  && after.workers[now.worker] == c.workers[was.worker])
  {
    var at := Find(c.workers, node);
    FindRemote(c.workers, node);
    assert SlotOk(c.workers, c.slots[slot]);
    hide FindFrom, SlotsOk;
    NotFound(Without(c.workers, at), node);
  }

  lemma {:induction false} NotFound(workers: seq<Worker>, id: NodeId)
    requires forall i :: 1 <= i < |workers| ==> workers[i].id != Some(id)
    ensures Find(workers, id) == 0
  {
    hide FindFrom;
  }

  /** A node that becomes a replica serves no slot any more. */
  lemma {:induction false} ReplicaServesNothing(c: Config, node: NodeId)
    requires Inv(c) && Fits(c) && Replicate(c, node).0.Done?
    ensures var after := Replicate(c, node).1;
            LocalRole(after) == Replica && LocalPrimary(after) == Some(node) && !HoldsSlots(after, LOCAL)
  {
    FindRemote(c.workers, node);
    hide FindFrom, SlotsOk;
  }

  /** And by failing over it takes back everything it gave up, together with all that its primary had. */
  lemma {:induction false} FailoverTakesBack(c: Config, node: NodeId, slot: nat)
    requires Inv(c) && Fits(c) && slot < SLOTS && Replicate(c, node).0.Done?
    ensures var back := Failover(Replicate(c, node).1);
            && back.0.Done? && LocalRole(back.1) == Primary
            && back.1.slots[slot] ==
                 if c.slots[slot].Effective() == LOCAL || c.slots[slot].worker == Find(c.workers, node) then OWN
                 else c.slots[slot]
  {
    var replica := Replicate(c, node).1;
    FindRemote(c.workers, node);
    FindKept(c.workers, replica.workers, node);
    hide FindFrom, SlotsOk, MaxEpochTo;
  }

  /**
    A primary whose epoch exceeds every other in the receiver's table is recorded for
    every slot it claims; a slot it was already recorded for keeps its state.
   */
  lemma {:induction false} OutrankingClaims(c: Config, banned: set<NodeId>, p: Packet, slot: nat)
    requires Inv(c) && Fits(Processed(c, banned, p)) && Accepts(c, banned, p) && p.sender.role == Primary
    requires slot < SLOTS && slot in p.claimed && p.sender.epoch != 0
    requires forall i :: 0 <= i < |c.workers| ==> c.workers[i].epoch < p.sender.epoch
    ensures var after := GossipMerged(c, banned, p);
            && |after.slots| == SLOTS && after.slots[slot].worker < |after.workers|
            && after.workers[after.slots[slot].worker].id == p.sender.id
            && (c.workers[c.slots[slot].worker].id != p.sender.id ==> after.slots[slot].state == Stable)
            && (c.workers[c.slots[slot].worker].id == p.sender.id ==> after.slots[slot] == c.slots[slot])
  {
    MergeAllGrows(AfterSender(c, p).workers, Heard(LocalId(c), banned, p.sender.id, Considered(p)));
    SameSlots(c, banned, p);
    GossipGrows(c, banned, p);
    hide Processed, GossipMerged, AfterSender, Inv;
    ClaimRecorded(c, p, slot);
  }

  lemma {:induction false} GossipGrows(c: Config, banned: set<NodeId>, p: Packet)
    requires Accepts(c, banned, p)
    ensures |AfterSender(c, p).workers| <= |Processed(c, banned, p).workers|
    ensures Grown(AfterSender(c, p).workers, GossipMerged(c, banned, p).workers)
  {
    MergeAllGrows(AfterSender(c, p).workers, Heard(LocalId(c), banned, p.sender.id, Considered(p)));
    hide AfterSender, MergedAll, Heard, MaxEpochTo;
  }

  lemma {:induction false} ClaimRecorded(c: Config, p: Packet, slot: nat)
    requires Inv(c) && Fits(AfterSender(c, p)) && p.sender.id.Some? && p.sender.role == Primary
    requires LocalId(c) != p.sender.id && slot < SLOTS && slot in p.claimed && p.sender.epoch != 0
    requires forall i :: 0 <= i < |c.workers| ==> c.workers[i].epoch < p.sender.epoch
    ensures var after := AfterSender(c, p);
            && |after.slots| == SLOTS && after.slots[slot].worker < |after.workers|
            && after.workers[after.slots[slot].worker].id == p.sender.id
            && (c.workers[c.slots[slot].worker].id != p.sender.id ==> after.slots[slot].state == Stable)
            && (c.workers[c.slots[slot].worker].id == p.sender.id ==> after.slots[slot] == c.slots[slot])
  {
    assert SlotOk(c.workers, c.slots[slot]);
    MergeGrows(c.workers, p.sender, true);
    SettledByMerge(c.workers, p.sender, true);
    OwnerUnlessSender(c, p, slot);
    MergedAt(c, p, slot);
    hide AfterSender, MergedWorkers, FindFrom, SlotsOk, DistinctIds;
  }

  /** The slot's owner keeps its epoch while the sender is greeted, unless the sender is the owner. */
  lemma {:induction false} OwnerUnlessSender(c: Config, p: Packet, slot: nat)
    requires Inv(c) && slot < SLOTS && p.sender.id.Some?
    ensures var greeted := MergedWorkers(c.workers, p.sender, true); var owner := c.slots[slot].worker;
            && owner < |greeted|
            && (c.workers[owner].id == p.sender.id ==> owner == Find(greeted, p.sender.id.value))
            && (c.workers[owner].id != p.sender.id ==> greeted[owner] == c.workers[owner])
  {
    assert SlotOk(c.workers, c.slots[slot]);
    var owner := c.slots[slot].worker;
    MergeGrows(c.workers, p.sender, true);
    if owner != 0 && c.workers[owner].id == p.sender.id {
      FindUnique(c.workers, p.sender.id.value, owner);
      FindKept(c.workers, MergedWorkers(c.workers, p.sender, true), p.sender.id.value);
    } else {
      MergeSpares(c.workers, p.sender, true, owner);
    }
  }

  // ----- Epochs ------------------------------------------------------------

  /**
    SET-CONFIG-EPOCH succeeds exactly for a node without peers that has no epoch yet and is
    given a positive one; then only its epoch changes, and it cannot be set again.
   */
  lemma {:induction false} EpochSetOnce(c: Config, epoch: int, again: int)
    requires Inv(c)
    ensures SetEpoch(c, epoch).0.Done? <==> |c.workers| == 2 && LocalEpoch(c) == 0 && epoch > 0
    ensures SetEpoch(c, epoch).0.Done? ==>
              var after := SetEpoch(c, epoch).1;
              && LocalEpoch(after) == epoch == MaxEpoch(after) && after.slots == c.slots
              && after.workers == [c.workers[0], c.workers[LOCAL].(epoch := epoch)]
              && SetEpoch(after, again) == (Refused(EpochCollision), after)
    ensures SetEpoch(c, epoch).0.Refused? ==> SetEpoch(c, epoch).1 == c
  {
  }

  /** BUMPEPOCH changes the local epoch only, and that exceeds every epoch there was. */
  lemma {:induction false} BumpOutranks(c: Config)
    requires Inv(c)
    ensures var after := BumpEpoch(c).1;
            && after.slots == c.slots && |after.workers| == |c.workers|
            && (forall i :: 0 <= i < |c.workers| && i != LOCAL ==> after.workers[i] == c.workers[i])
            && (forall i :: 1 <= i < |c.workers| ==> c.workers[i].epoch < LocalEpoch(after))
            && BumpEpoch(c).0 == Done(LocalEpoch(after))
  {
    hide MaxEpochTo;
  }

  /**
    Leaving replication keeps every slot and every other entry, and the new primary outranks
    them all; a node that is no replica is left as it is.
   */
  lemma {:induction false} LeavesReplication(c: Config)
    requires Inv(c)
    ensures var (reply, after) := ReplicateNoOne(c);
            && reply == Done(LocalEpoch(after)) && after.slots == c.slots && |after.workers| == |c.workers|
            && (forall i :: 0 <= i < |c.workers| && i != LOCAL ==> after.workers[i] == c.workers[i])
            && LocalRole(after) != Replica
            && (LocalRole(c) != Replica ==> after == c)
            && (LocalRole(c) == Replica ==>
                  && LocalRole(after) == Primary && LocalPrimary(after).None?
                  && forall i :: 1 <= i < |c.workers| ==> c.workers[i].epoch < LocalEpoch(after))
  {
    hide MaxEpochTo;
  }

  // ----- A replica that names itself ---------------------------------------

  /**
    Such a state can be reached: a replica is given a slot, and its primary's address is met
    again under another name.
   */
  lemma {:induction false} ReplicaNamesItself(local: Worker)
    requires local == NOBODY.(id := Some(1), address := "a", port := 1, role := Primary)
    ensures var ops := [OpMeet("b", 2, Some(5)), OpReplicate(5), OpAddSlots([0]), OpMeet("b", 2, Some(7))];
            && Runs(Initial(local), ops)
            && |After(Initial(local), ops).slots| == SLOTS
            && LocalRole(After(Initial(local), ops)) == Replica
            && RouteSlot(After(Initial(local), ops), 0, false, false, false) == Moved(0, LOCAL, "a", 1)
  {
    var o1, o2, o3, o4 := OpMeet("b", 2, Some(5)), OpReplicate(5), OpAddSlots([0]), OpMeet("b", 2, Some(7));
    var c0 := Initial(local);
    var seed := Seed("b", 2, Some(5));
    var c1 := c0.(workers := [NOBODY, local, seed]);
    assert Next(c0, o1) == c1 by { assert c0.workers + [seed] == c1.workers; }
    var replica := local.(role := Replica, replicaOf := Some(5));
    var c2 := c1.(workers := [NOBODY, replica, seed]);
    assert Next(c1, o2) == c2 by {
      FindIs(c1.workers, 5, 2);
      assert HandedOver(c1.slots, 2) == c1.slots;
      assert c1.workers[LOCAL := replica] == c2.workers;
    }
    var c3 := c2.(slots := c2.slots[0 := OWN]);
    assert Next(c2, o3) == c3 by {
      assert AddRefusal(c2, [0]).None?;
      assert Assigned(c2.slots, [0], OWN) == c3.slots;
    }
    var renamed := seed.(id := Some(7));
    var c4 := c3.(workers := [NOBODY, replica, renamed]);
    assert Next(c3, o4) == c4 by {
      NotFound(c3.workers, 7);
      FirstAddress(c3.workers, "b", 2, 2, 1);
      assert c3.workers[2 := renamed] == c4.workers;
    }
    FourSteps(c0, o1, o2, o3, o4);
    NotFound(c4.workers, 5);
    assert c4.slots[0] == OWN;
  }

  lemma {:induction false} FourSteps(c: Config, o1: Op, o2: Op, o3: Op, o4: Op)
    requires |c.slots| == SLOTS
    requires var c1 := Next(c, o1); var c2 := Next(c1, o2); var c3 := Next(c2, o3);
             Fits(c) && Fits(c1) && Fits(c2) && Fits(c3) && Fits(Next(c3, o4))
    ensures Runs(c, [o1, o2, o3, o4])
    ensures After(c, [o1, o2, o3, o4]) == Next(Next(Next(Next(c, o1), o2), o3), o4)
  {
    hide Next, Fits;
    var c1 := Next(c, o1);
    var c2 := Next(c1, o2);
    var c3 := Next(c2, o3);
    RunsMore(c3, o4, []);
    RunsMore(c2, o3, [o4]);
    RunsMore(c1, o2, [o3, o4]);
    RunsMore(c, o1, [o2, o3, o4]);
  }

  lemma {:induction false} RunsMore(c: Config, op: Op, ops: seq<Op>)
    requires |c.slots| == SLOTS && Fits(c)
    requires ops == [] ==> Fits(Next(c, op))
    requires ops != [] ==> Runs(Next(c, op), ops)
    ensures Runs(Next(c, op), ops)
    ensures var all := [op] + ops; Runs(c, all) && After(c, all) == After(Next(c, op), ops)
  {
    hide Next, Fits;
    assert ([op] + ops)[1..] == ops;
  }

  // ----- Two nodes ---------------------------------------------------------

  /** The configuration names a node for a slot. */
  predicate Names(c: Config, slot: nat, id: NodeId) {
    slot < |c.slots| && c.slots[slot].worker < |c.workers| && c.workers[c.slots[slot].worker].id == Some(id)
  }

  /** Every other node the receiver knows has a smaller epoch than the sender. */
  predicate Outranks(sender: Config, receiver: Config) {
    forall i :: 0 <= i < |receiver.workers| && receiver.workers[i].id != LocalId(sender) ==>
      receiver.workers[i].epoch < LocalEpoch(sender)
  }

  /**
    After a node merges the packet of a primary that outranks all others it knows, it names that
    primary for exactly the slots the primary serves, besides slots on the move between the two
    or away from the primary, which it leaves as it had them.
   */
  lemma {:induction false} ReceiverAgrees(a: Config, b: Config, banned: set<NodeId>, p: Packet, slot: nat)
    requires Inv(a) && Inv(b) && slot < SLOTS && SentBy(a, p) && LocalRole(a) == Primary && Outranks(a, b)
    requires Accepts(b, banned, p) && Fits(Processed(b, banned, p))
    ensures var id := LocalId(a).value;
            Names(GossipMerged(b, banned, p), slot, id) <==>
              || a.slots[slot] == OWN
              || (Names(b, slot, id) && (a.slots[slot].state == Migrating || b.slots[slot].state == Migrating))
  {
    SameSlots(b, banned, p);
    GossipGrows(b, banned, p);
    MergeAllGrows(AfterSender(b, p).workers, Heard(LocalId(b), banned, p.sender.id, Considered(p)));
    hide Processed, GossipMerged, AfterSender;
    SenderNamed(a, b, p, slot);
  }

  lemma {:induction false} SenderNamed(a: Config, b: Config, p: Packet, slot: nat)
    requires Inv(a) && Inv(b) && slot < SLOTS && SentBy(a, p) && LocalRole(a) == Primary && Outranks(a, b)
    requires LocalId(b) != p.sender.id && Fits(AfterSender(b, p))
    ensures var id := LocalId(a).value; var after := AfterSender(b, p);
            && |after.slots| == SLOTS && after.slots[slot].worker < |after.workers|
            && (Names(after, slot, id) <==>
                  || a.slots[slot] == OWN
                  || (Names(b, slot, id) && (a.slots[slot].state == Migrating || b.slots[slot].state == Migrating)))
  {
    var greeted := MergedWorkers(b.workers, p.sender, true);
    var id, cur := p.sender.id.value, b.slots[slot];
    assert SlotOk(b.workers, cur);
    assert slot in p.claimed <==> a.slots[slot] == OWN;
    assert slot in p.migrating <==> a.slots[slot].state == Migrating;
    MergedAt(b, p, slot);
    OwnerUnlessSender(b, p, slot);
    MergeGrows(b.workers, p.sender, true);
    hide AfterSender, MergedWorkers, FindFrom, SlotsOk, DistinctIds, SentBy;
    OneSlotNamed(greeted, cur, Find(greeted, id), p.sender.epoch, slot in p.claimed, slot in p.migrating, id);
  }

  /** The sender's part of a merge, seen at one slot. */
  lemma {:induction false} MergedAt(b: Config, p: Packet, slot: nat)
    requires Inv(b) && slot < SLOTS && p.sender.id.Some? && p.sender.role == Primary
    requires LocalId(b) != p.sender.id && Fits(AfterSender(b, p))
    ensures var greeted := MergedWorkers(b.workers, p.sender, true); var after := AfterSender(b, p);
            var at := Find(greeted, p.sender.id.value);
            && after.workers == greeted && |after.slots| == SLOTS
            && greeted[0].id.None? && 2 <= at < |greeted| && greeted[at].id == p.sender.id
            && after.slots[slot] ==
                 MergedSlot(greeted, b.slots[slot], at, p.sender.epoch,
                            slot in p.claimed, slot in p.claimed || slot in p.migrating)
  {
    var greeted := MergedWorkers(b.workers, p.sender, true);
    hide MergedWorkers, FindFrom, SlotsOk, DistinctIds, MergedSlot;
    SettledByMerge(b.workers, p.sender, true);
    MergeKeepsTable(b.workers, p.sender, true);
    MergeSpares(b.workers, p.sender, true, LOCAL);
    FindRemote(greeted, p.sender.id.value);
    assert |greeted| <= 65536;
  }

  /**
    What becomes of each slot when a primary's packet is accepted.  A claim takes the slot if it comes
    with epoch 0 or if the recorded owner is another node with a lower epoch, and else changes
    nothing; a slot recorded for the sender that it no longer speaks for goes free.
   */
  lemma {:induction false} ClaimsDecided(c: Config, banned: set<NodeId>, p: Packet, slot: nat)
    requires Inv(c) && Fits(Processed(c, banned, p)) && Accepts(c, banned, p) && slot < SLOTS
    requires p.sender.role == Primary
    ensures
      var after, was := GossipMerged(c, banned, p), c.slots[slot];
      && |after.slots| == SLOTS && was.worker < |c.workers|
      && var now, his, ranks := after.slots[slot], c.workers[was.worker].id == p.sender.id, c.workers[was.worker].epoch;
         if slot in p.claimed && (p.sender.epoch == 0 || (!his && ranks < p.sender.epoch)) then
           now.worker < |after.workers| && after.workers[now.worker].id == p.sender.id && now.state == Stable
         else if slot !in p.claimed && his && was.state in {Stable, Importing} && slot !in p.migrating then
           now == UNCLAIMED
         else now == was
  {
    assert SlotOk(c.workers, c.slots[slot]);
    SameSlots(c, banned, p);
    GossipGrows(c, banned, p);
    hide Processed, GossipMerged, AfterSender, SlotsOk, DistinctIds;
    MergedAt(c, p, slot);
    OwnerUnlessSender(c, p, slot);
    SettledByMerge(c.workers, p.sender, true);
    MergeGrows(c.workers, p.sender, true);
    hide MergedWorkers, FindFrom;
  }

  /** A packet that is not accepted, or whose sender is no primary, moves no slot. */
  lemma {:induction false} NoClaims(c: Config, banned: set<NodeId>, p: Packet)
    requires !Accepts(c, banned, p) || p.sender.role != Primary
    ensures GossipMerged(c, banned, p).slots == c.slots
  {
    SameSlots(c, banned, p);
    hide GossipMerged;
  }

  // ----- Two primaries with one epoch --------------------------------------

  /** Of two primaries with the same epoch exactly the one with the smaller name gives way on hearing of the other. */
  lemma {:induction false} OneGivesWay(a: Config, b: Config, fromA: Packet, fromB: Packet)
    requires Inv(a) && Inv(b) && SentBy(a, fromA) && SentBy(b, fromB) && LocalId(a) != LocalId(b)
    requires LocalRole(a) == Primary == LocalRole(b) && LocalEpoch(a) == LocalEpoch(b) > 0
    ensures Collides(a, fromB) <==> LocalId(a).value < LocalId(b).value
    ensures Collides(a, fromB) <==> !Collides(b, fromA)
  {
  }

  /**
    A primary gives way to a sender with its own positive epoch and a larger name, even one whose packet
    is not accepted: its epoch rises above every other known after the packet.  Else it stays.
   */
  lemma {:induction false} CollisionResolved(c: Config, banned: set<NodeId>, p: Packet)
    requires |c.workers| > LOCAL
    ensures
      var heard, after := Processed(c, banned, p), GossipMerged(c, banned, p);
      var collision :=
        && LocalRole(c) == Primary && LocalEpoch(c) == p.sender.epoch > 0
        && LocalId(c).Some? && p.sender.id.Some? && LocalId(c).value < p.sender.id.value;
      && |after.workers| == |heard.workers| > LOCAL && after.slots == heard.slots
      && (forall i :: 0 <= i < |heard.workers| && i != LOCAL ==> after.workers[i] == heard.workers[i])
      && (collision ==> forall i :: 1 <= i < |heard.workers| ==> heard.workers[i].epoch < LocalEpoch(after))
      && (!collision ==> LocalEpoch(after) == LocalEpoch(c))
  {
    ProcessedSparesLocal(c, banned, p, LOCAL);
    hide Processed, MaxEpochTo;
  }

  /** The failing input: a packet from a banned node is not accepted, and still the local epoch moves on. */
  lemma {:induction false} BannedStillFelt(local: Worker, p: Packet)
    requires local == NOBODY.(id := Some(1), epoch := 1, role := Primary)
    requires p.sender.id == Some(2) && p.sender.epoch == 1
    ensures
      var c, banned := Initial(local), {2};
      !Accepts(c, banned, p) && GossipMerged(c, banned, p) == c.(workers := [NOBODY, local.(epoch := 2)])
  {
    var c := Initial(local);
    assert MaxEpochTo(c.workers, 2) == 1;
    assert c.workers[LOCAL := local.(epoch := 2)] == [NOBODY, local.(epoch := 2)];
  }

  lemma {:induction false} OneSlotNamed(
      workers: seq<Worker>, cur: HashSlot, at: nat, epoch: int, claims: bool, moving: bool, id: NodeId)
    requires SlotOk(workers, cur) && 2 <= at < |workers| && workers[0].id.None? && workers[at].id == Some(id)
    requires workers[cur.worker].id == Some(id) ==> cur.worker == at
    requires workers[cur.worker].id != Some(id) ==> workers[cur.worker].epoch < epoch
    ensures var next := MergedSlot(workers, cur, at, epoch, claims, claims || moving);
            && next.worker < |workers|
            && (workers[next.worker].id == Some(id) <==>
                  claims || (workers[cur.worker].id == Some(id) && (moving || cur.state == Migrating)))
  {
  }
}
