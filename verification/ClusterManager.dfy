/**
  The cluster manager: the configuration kept in place, a slot array and a worker
  list, and changed step by step.  Every operation is proved to do what the
  corresponding change of the configuration value says.
 */
module ClusterManager {
  import opened Common
  import opened ClusterConfig
  import opened ClusterGossip

  class Manager {
    var slotMap: array<HashSlot>
    var workers: seq<Worker>
    var banned: set<NodeId>

    ghost predicate Valid()
      reads this
    {
      slotMap.Length == SLOTS
    }

    ghost function View(): Config
      reads this, slotMap
    {
      Config(slotMap[..], workers)
    }

    constructor (local: Worker)
      ensures Valid() && fresh(slotMap) && View() == Initial(local) && banned == {}
    {
      slotMap := new HashSlot[SLOTS](_ => UNCLAIMED);
      workers := [NOBODY, local];
      banned := {};
      new;
      assert slotMap[..] == FreshSlots();
    }

    // ----- Lookups ---------------------------------------------------------

    method GetWorkerId(id: NodeId) returns (r: nat)
      ensures r == Find(workers, id)
    {
      r := 0;
      if |workers| <= 1 {
        return;
      }
      for i := 1 to |workers|
        invariant Find(workers, id) == FindFrom(workers, id, i)
      {
        if workers[i].id == Some(id) {
          return i;
        }
      }
    }

    method GetMaxConfigEpoch() returns (r: int)
      ensures r == MaxEpoch(View())
    {
      r := 0;
      if |workers| <= 1 {
        return;
      }
      r := workers[1].epoch;
      for i := 2 to |workers|
        invariant r == MaxEpochTo(workers, i)
      {
        if workers[i].epoch > r {
          r := workers[i].epoch;
        }
      }
    }

    method FindByAddress(address: string, port: nat) returns (r: nat)
      ensures r == FindAddress(workers, address, port, 1)
    {
      r := 0;
      if |workers| <= 1 {
        return;
      }
      for i := 1 to |workers|
        invariant FindAddress(workers, address, port, 1) == FindAddress(workers, address, port, i)
      {
        if workers[i].address == address && workers[i].port == port {
          return i;
        }
      }
    }

    method HasAssignedSlots(worker: nat) returns (r: bool)
      ensures r == HoldsSlots(View(), worker)
    {
      for i := 0 to slotMap.Length
        invariant forall k :: 0 <= k < i ==> slotMap[k].Effective() != worker
      {
        if slotMap[i].Effective() == worker {
          assert View().slots[i] == slotMap[i];
          return true;
        }
      }
      r := false;
    }

    // ----- Slots -----------------------------------------------------------

    /** Sets every named slot alike, one after another. */
    method AssignAll(named: seq<nat>, to: HashSlot)
      requires forall k :: k in named ==> k < slotMap.Length
      modifies slotMap
      ensures slotMap[..] == Assigned(old(slotMap[..]), named, to)
    {
      for i := 0 to |named|
        invariant forall s :: 0 <= s < slotMap.Length ==>
                    slotMap[s] == if s in named[..i] then to else old(slotMap[s])
      {
        assert forall s :: s in named[..i + 1] <==> s in named[..i] || s == named[i];
        assert named[i] in named;
        slotMap[named[i]] := to;
      }
      assert named[..|named|] == named;
    }

    method SetLocalEpoch(epoch: int)
      modifies this`workers
      ensures workers == WithEpoch(old(View()), epoch).workers
    {
      if |workers| > LOCAL {
        workers := workers[LOCAL := workers[LOCAL].(epoch := epoch)];
      }
    }

    method TryAddSlots(named: seq<nat>) returns (r: Reply)
      requires Valid()
      modifies slotMap
      ensures (r, View()) == AddSlots(old(View()), named)
    {
      if |workers| <= 1 {
        return Refused(InvalidParam);
      }
      ghost var c := View();
      for i := 0 to |named|
        invariant AddRefusal(c, named) == AddRefusal(c, named[i..])
        invariant forall k :: k in named[..i] ==> k < SLOTS
      {
        assert named[i..][1..] == named[i + 1..];
        assert named[..i + 1] == named[..i] + [named[i]];
        if named[i] >= slotMap.Length {
          return Refused(SlotOutOfRange);
        }
        if slotMap[named[i]].state != Offline {
          return Refused(InvalidParam);
        }
      }
      assert named[..|named|] == named;
      AssignAll(named, OWN);
      r := Done(|named|);
    }

    method TryRemoveSlots(named: seq<nat>) returns (r: Reply)
      requires Valid()
      modifies slotMap, this`workers
      ensures (r, View()) == DelSlots(old(View()), named)
    {
      if |workers| <= 1 {
        return Refused(InvalidParam);
      }
      ghost var c := View();
      for i := 0 to |named|
        invariant DelRefusal(c, named) == DelRefusal(c, named[i..])
        invariant forall k :: k in named[..i] ==> k < SLOTS
      {
        assert named[i..][1..] == named[i + 1..];
        assert named[..i + 1] == named[..i] + [named[i]];
        if named[i] >= slotMap.Length {
          return Refused(SlotOutOfRange);
        }
        if slotMap[named[i]].worker == 0 {
          return Refused(NotSlotOwner);
        }
      }
      assert named[..|named|] == named;
      AssignAll(named, UNCLAIMED);
      var max := GetMaxConfigEpoch();
      SetLocalEpoch(max + 1);
      r := Done(|named|);
    }

    method UpdateSlotState(slot: nat, worker: nat, state: SlotState)
      modifies slotMap
      ensures View() == SetSlot(old(View()), slot, worker, state)
    {
      if slot < slotMap.Length {
        slotMap[slot] := HashSlot(worker, state);
      }
      assert View().slots == SetSlot(old(View()), slot, worker, state).slots;
    }

    method TryPrepareSlotForMigration(slot: nat, target: NodeId) returns (r: Reply)
      requires Valid()
      modifies slotMap
      ensures (r, View()) == Migrate(old(View()), slot, target)
    {
      if slot >= SLOTS {
        return Refused(SlotOutOfRange);
      }
      var at := GetWorkerId(target);
      if at == 0 {
        return Refused(UnknownNode);
      }
      var conf := Config(slotMap[..], workers);
      if LocalId(conf) == Some(target) {
        return Refused(MigrateToMyself);
      }
      if workers[at].role != Primary {
        return Refused(TargetNotMaster);
      }
      if !IsLocal(conf, slot, false) {
        return Refused(NotSlotOwner);
      }
      if slotMap[slot].state != Stable {
        return Refused(SlotNotStable);
      }
      UpdateSlotState(slot, U16(at), Migrating);
      r := Done(0);
    }

    method TryPrepareSlotForImport(slot: nat, source: NodeId) returns (r: Reply)
      requires Valid()
      modifies slotMap
      ensures (r, View()) == Import(old(View()), slot, source)
    {
      if slot >= SLOTS {
        return Refused(SlotOutOfRange);
      }
      var at := GetWorkerId(source);
      if at == 0 {
        return Refused(UnknownNode);
      }
      var conf := Config(slotMap[..], workers);
      if LocalRole(conf) != Primary || IsLocal(conf, slot, false) {
        return Refused(InvalidParam);
      }
      var owner := slotMap[slot].worker;
      if !(owner < |workers| && workers[owner].id == Some(source)) {
        return Refused(InvalidParam);
      }
      if slotMap[slot].state != Stable {
        return Refused(SlotAlreadyImporting);
      }
      UpdateSlotState(slot, U16(at), Importing);
      r := Done(0);
    }

    method TryPrepareSlotForOwnershipChange(slot: nat, owner: NodeId) returns (r: Reply)
      requires Valid()
      modifies slotMap, this`workers
      ensures (r, View()) == GiveTo(old(View()), slot, owner)
    {
      if slot >= SLOTS {
        return Refused(SlotOutOfRange);
      }
      var at := GetWorkerId(owner);
      if at == 0 {
        return Refused(UnknownNode);
      }
      if slotMap[slot].state == Importing {
        var local := LocalId(Config(slotMap[..], workers));
        if local.Some? && local != Some(owner) {
          return Refused(InvalidParam);
        }
        UpdateSlotState(slot, LOCAL, Stable);
        var max := GetMaxConfigEpoch();
        SetLocalEpoch(max + 1);
      } else {
        UpdateSlotState(slot, U16(at), Stable);
      }
      r := Done(0);
    }

    method TryPrepareSlotForStable(slot: nat) returns (r: Reply)
      requires Valid()
      modifies slotMap
      ensures (r, View()) == Stabilize(old(View()), slot)
    {
      if slot >= SLOTS {
        return Refused(SlotOutOfRange);
      }
      var cur := slotMap[slot];
      if cur.state == Migrating {
        UpdateSlotState(slot, LOCAL, Stable);
      } else if cur.state == Importing {
        UpdateSlotState(slot, cur.worker, Stable);
      }
      r := Done(0);
    }

    // ----- Membership ------------------------------------------------------

    method TryMeet(address: string, port: nat, id: Option<NodeId>) returns (r: Reply)
      modifies this`workers
      ensures (r, View()) == Meet(old(View()), address, port, id)
    {
      if id.Some? {
        var known := GetWorkerId(id.value);
        if known > 0 {
          workers := workers[known := workers[known].(address := address, port := port)];
          return Done(known);
        }
      }
      var at := FindByAddress(address, port);
      if at > 0 {
        if id.Some? {
          workers := workers[at := workers[at].(id := id)];
        }
        return Done(at);
      }
      workers := workers + [Seed(address, port, id)];
      r := Done(|workers| - 1);
    }

    /** Takes a worker out of the table and renumbers every slot. */
    method RemoveWorker(at: nat)
      requires 0 < at < |workers|
      modifies slotMap, this`workers
      ensures View() == Config(ForgottenAll(old(slotMap[..]), U16(at)), Without(old(workers), at))
    {
      var removed := U16(at);
      for i := 0 to slotMap.Length
        invariant workers == old(workers)
        invariant forall s :: 0 <= s < i ==> slotMap[s] == Forgotten(old(slotMap[s]), removed)
        invariant forall s :: i <= s < slotMap.Length ==> slotMap[s] == old(slotMap[s])
      {
        var slot := slotMap[i];
        if slot.worker > removed {
          slotMap[i] := slot.(worker := slot.worker - 1);
        } else if slot.worker == removed {
          if slot.state == Migrating {
            slotMap[i] := OWN;
          } else {
            slotMap[i] := UNCLAIMED;
          }
        }
      }
      workers := workers[..at] + workers[at + 1..];
      assert slotMap[..] == ForgottenAll(old(slotMap[..]), removed);
    }

    /** Forgets a node and bans it for the given time, so that gossip does not bring it back. */
    method TryRemoveWorker(id: NodeId, seconds: nat) returns (r: Reply)
      requires Valid()
      modifies slotMap, this`workers, this`banned
      ensures (r, View()) == Forget(old(View()), id)
      ensures banned == if r.Refused? then old(banned)
                        else if seconds > 0 then old(banned) + {id} else old(banned) - {id}
    {
      var conf := Config(slotMap[..], workers);
      if LocalId(conf) == Some(id) {
        return Refused(CannotForgetMyself);
      }
      var at := GetWorkerId(id);
      if at == 0 || workers[at].role == Unassigned {
        return Refused(UnknownNode);
      }
      if LocalRole(conf) == Replica && LocalPrimary(conf) == Some(id) {
        return Refused(CannotForgetMyPrimary);
      }
      RemoveWorker(at);
      banned := if seconds > 0 then banned + {id} else banned - {id};
      r := Done(0);
    }

    method TryReset(soft: bool, hasKeys: bool, newId: NodeId) returns (r: Reply)
      requires Valid()
      modifies this`slotMap, this`workers
      ensures Valid() && (fresh(slotMap) || slotMap == old(slotMap))
      ensures (r, View()) == Reset(old(View()), soft, hasKeys, newId)
    {
      var held := HasAssignedSlots(LOCAL);
      if hasKeys && held {
        return Refused(ResetWithKeysAssigned);
      }
      var local := ResetWorker(Config(slotMap[..], workers), soft, newId);
      slotMap := new HashSlot[SLOTS](_ => UNCLAIMED);
      workers := [NOBODY, local];
      assert slotMap[..] == FreshSlots();
      r := Done(0);
    }

    // ----- Replication -----------------------------------------------------

    /** Takes over every slot a worker is recorded for. */
    method TakeOver(from: nat)
      modifies slotMap
      ensures slotMap[..] == TakenOver(old(slotMap[..]), from)
    {
      for i := 0 to slotMap.Length
        invariant forall s :: 0 <= s < i ==>
                    slotMap[s] == if old(slotMap[s]).worker == from then OWN else old(slotMap[s])
        invariant forall s :: i <= s < slotMap.Length ==> slotMap[s] == old(slotMap[s])
      {
        if slotMap[i].worker == from {
          slotMap[i] := OWN;
        }
      }
      assert slotMap[..] == TakenOver(old(slotMap[..]), from);
    }

    method TryFailover() returns (r: Reply)
      requires Valid()
      modifies slotMap, this`workers
      ensures (r, View()) == Failover(old(View()))
    {
      var conf := Config(slotMap[..], workers);
      if LocalRole(conf) != Replica || LocalPrimary(conf).None? {
        return Refused(InvalidParam);
      }
      var former := GetWorkerId(LocalPrimary(conf).value);
      if former > 0 {
        TakeOver(U16(former));
      }
      var max := GetMaxConfigEpoch();
      workers := workers[LOCAL := workers[LOCAL].(role := Primary, replicaOf := None, epoch := max + 1)];
      r := Done(max + 1);
    }

    /** Hands every slot served here to another worker. */
    method HandOver(to: nat)
      modifies slotMap
      ensures slotMap[..] == HandedOver(old(slotMap[..]), to)
    {
      for i := 0 to slotMap.Length
        invariant forall s :: 0 <= s < i ==>
                    slotMap[s] == if old(slotMap[s]).Effective() == LOCAL then HashSlot(to, Stable) else old(slotMap[s])
        invariant forall s :: i <= s < slotMap.Length ==> slotMap[s] == old(slotMap[s])
      {
        if slotMap[i].Effective() == LOCAL {
          slotMap[i] := HashSlot(to, Stable);
        }
      }
      assert slotMap[..] == HandedOver(old(slotMap[..]), to);
    }

    method TryReplicaOf(primary: NodeId) returns (r: Reply)
      requires Valid()
      modifies slotMap, this`workers
      ensures (r, View()) == Replicate(old(View()), primary)
    {
      var at := GetWorkerId(primary);
      if at == 0 {
        return Refused(UnknownNode);
      }
      if LocalId(Config(slotMap[..], workers)) == Some(primary) {
        return Refused(CannotReplicateSelf);
      }
      if workers[at].role != Primary {
        return Refused(TargetNotMaster);
      }
      HandOver(U16(at));
      if |workers| > LOCAL {
        workers := workers[LOCAL := workers[LOCAL].(role := Replica, replicaOf := Some(primary))];
      }
      r := Done(0);
    }

    method TryReplicaOfNoOne() returns (r: Reply)
      modifies this`workers
      ensures (r, View()) == ReplicateNoOne(old(View()))
    {
      var conf := Config(slotMap[..], workers);
      if LocalRole(conf) != Replica {
        return Done(LocalEpoch(conf));
      }
      var max := GetMaxConfigEpoch();
      workers := workers[LOCAL := workers[LOCAL].(role := Primary, replicaOf := None, epoch := max + 1)];
      r := Done(max + 1);
    }

    method TrySetLocalConfigEpoch(epoch: int) returns (r: Reply)
      modifies this`workers
      ensures (r, View()) == SetEpoch(old(View()), epoch)
      ensures r.Done? <==> |old(workers)| <= 2 && LocalEpoch(old(View())) == 0 && epoch > 0
      ensures r.Done? && |workers| > LOCAL ==> workers == old(workers)[LOCAL := old(workers)[LOCAL].(epoch := epoch)]
    {
      if |workers| > 2 {
        return Refused(InvalidParam);
      }
      if LocalEpoch(Config(slotMap[..], workers)) != 0 || epoch <= 0 {
        return Refused(EpochCollision);
      }
      SetLocalEpoch(epoch);
      r := Done(0);
    }

    method TryBumpClusterEpoch() returns (r: Reply)
      modifies this`workers
      ensures (r, View()) == BumpEpoch(old(View()))
    {
      var max := GetMaxConfigEpoch();
      SetLocalEpoch(max + 1);
      r := Done(max + 1);
    }

    // ----- Gossip ----------------------------------------------------------

    /** The packet to send, with news of the remote nodes picked for it. */
    method CreatePacket(picked: seq<nat>) returns (p: Packet)
      requires |workers| > LOCAL && forall i :: i in picked ==> 2 <= i < |workers|
      ensures SentBy(View(), p) && |p.sections| == |picked|
    {
      var claimed: seq<nat>, migrating: seq<nat> := [], [];
      for s := 0 to slotMap.Length
        invariant forall k: nat :: k in claimed <==> k < s && slotMap[k] == OWN
        invariant forall k: nat :: k in migrating <==> k < s && slotMap[k].state == Migrating
      {
        if slotMap[s].Effective() == LOCAL && slotMap[s].state == Stable {
          claimed := claimed + [s];
        } else if slotMap[s].state == Migrating {
          migrating := migrating + [s];
        }
      }
      var sections: seq<Meta> := [];
      for k := 0 to |picked|
        invariant |sections| == k
        invariant forall m :: m in sections ==> exists i :: 2 <= i < |workers| && m == MetaOf(workers[i])
      {
        assert picked[k] in picked;
        sections := sections + [MetaOf(workers[picked[k]])];
      }
      p := Packet(MetaOf(workers[LOCAL]), claimed, migrating, sections);
    }

    /** Merges what a packet says of one node; reports whether anything it carries changed. */
    method MergeWorkerRef(m: Meta, direct: bool) returns (changed: bool)
      modifies this`workers
      ensures workers == MergedWorkers(old(workers), m, direct)
      ensures changed == MergeReports(old(workers), m, direct)
    {
      if m.id.None? {
        return false;
      }
      var at := GetWorkerId(m.id.value);
      if at == 0 {
        workers := workers + [Newcomer(m, direct)];
        return true;
      }
      var stored := workers[at];
      if !(m.epoch > stored.epoch || (direct && stored.handshake && m.epoch >= stored.epoch)) {
        return false;
      }
      changed := Differs(stored, m);
      workers := workers[at := Updated(stored, m)];
    }

    /** Marks the slots a packet speaks for. */
    method Spoken(p: Packet) returns (spoken: set<nat>)
      ensures forall s :: s in spoken <==> s < SLOTS && (s in p.claimed || s in p.migrating)
    {
      spoken := {};
      for i := 0 to |p.claimed|
        invariant forall s :: s in spoken <==> s < SLOTS && s in p.claimed[..i]
      {
        assert p.claimed[..i + 1] == p.claimed[..i] + [p.claimed[i]];
        if p.claimed[i] < SLOTS {
          spoken := spoken + {p.claimed[i]};
        }
      }
      assert p.claimed[..|p.claimed|] == p.claimed;
      for i := 0 to |p.migrating|
        invariant forall s :: s in spoken <==> s < SLOTS && (s in p.claimed || s in p.migrating[..i])
      {
        assert p.migrating[..i + 1] == p.migrating[..i] + [p.migrating[i]];
        if p.migrating[i] < SLOTS {
          spoken := spoken + {p.migrating[i]};
        }
      }
      assert p.migrating[..|p.migrating|] == p.migrating;
    }

    /** What the first pass makes of a slot once some of the claims have been seen. */
    ghost function ClaimedSlot(cur: HashSlot, sender: nat, epoch: int, claims: bool): HashSlot
      reads this`workers
    {
      if claims && Yields(workers, cur, epoch) then HashSlot(sender, Stable) else cur
    }

    /** First pass: the claims, in their order; a slot may be claimed more than once. */
    method ClaimSlots(claimed: seq<nat>, sender: nat, epoch: int) returns (updated: bool)
      requires Valid()
      modifies slotMap
      ensures forall s :: 0 <= s < SLOTS ==> slotMap[s] == ClaimedSlot(old(slotMap[s]), sender, epoch, s in claimed)
      ensures updated <==> exists s :: 0 <= s < SLOTS && slotMap[s] != old(slotMap[s])
    {
      updated := false;
      for i := 0 to |claimed|
        invariant forall s :: 0 <= s < SLOTS ==>
                    slotMap[s] == ClaimedSlot(old(slotMap[s]), sender, epoch, s in claimed[..i])
        invariant updated <==> exists s :: 0 <= s < SLOTS && slotMap[s] != old(slotMap[s])
      {
        assert claimed[..i + 1] == claimed[..i] + [claimed[i]];
        var s := claimed[i];
        if s < SLOTS {
          var cur := slotMap[s];
          if !(epoch != 0 && EpochAt(workers, cur.worker) >= epoch) {
            if cur.worker != sender || cur.state != Stable {
              slotMap[s] := HashSlot(sender, Stable);
              updated := true;
            }
          }
        }
      }
      assert claimed[..|claimed|] == claimed;
    }

    /** Second pass: slots the sender no longer speaks for go offline. */
    method ReclaimSlots(spoken: set<nat>, sender: nat) returns (updated: bool)
      requires Valid()
      modifies slotMap
      ensures forall s :: 0 <= s < SLOTS ==>
                slotMap[s] == if Abandoned(old(slotMap[s]), sender, s in spoken) then UNCLAIMED else old(slotMap[s])
      ensures updated <==> exists s :: 0 <= s < SLOTS && slotMap[s] != old(slotMap[s])
    {
      updated := false;
      for i := 0 to SLOTS
        invariant forall s :: 0 <= s < i ==>
                    slotMap[s] == if Abandoned(old(slotMap[s]), sender, s in spoken) then UNCLAIMED else old(slotMap[s])
        invariant forall s :: i <= s < SLOTS ==> slotMap[s] == old(slotMap[s])
        invariant updated <==> exists s :: 0 <= s < SLOTS && slotMap[s] != old(slotMap[s])
      {
        var cur := slotMap[i];
        if cur.worker == sender && (cur.state == Stable || cur.state == Importing) && i !in spoken {
          slotMap[i] := UNCLAIMED;
          updated := true;
        }
      }
    }

    /** The two passes together act on each slot by itself. */
    method MergeSenderSlots(p: Packet) returns (updated: bool)
      requires Valid()
      modifies slotMap
      ensures View() == SlotsMerged(old(View()), p)
      ensures updated == (slotMap[..] != old(slotMap[..]))
    {
      if p.sender.id.None? {
        return false;
      }
      var at := GetWorkerId(p.sender.id.value);
      if at == 0 {
        return false;
      }
      var sender := U16(at);
      var spoken := Spoken(p);
      ghost var before := slotMap[..];
      var claims := ClaimSlots(p.claimed, sender, p.sender.epoch);
      ghost var between := slotMap[..];
      var reclaims := ReclaimSlots(spoken, sender);
      forall s | 0 <= s < SLOTS
        ensures slotMap[s] == MergedSlots(old(View()), sender, p)[s]
        ensures between[s] != before[s] ==> slotMap[s] == between[s]
      {
      }
      assert slotMap[..] == MergedSlots(old(View()), sender, p);
      updated := claims || reclaims;
      assert updated ==> exists s :: 0 <= s < SLOTS && slotMap[s] != before[s];
      assert slotMap[..] != before ==> exists s :: 0 <= s < SLOTS && slotMap[..][s] != before[s];
    }

    /** Merges a packet: the sender, its slots, and the other nodes it tells of. */
    method ProcessPacket(p: Packet) returns (changed: bool)
      requires Valid() && |workers| > LOCAL
      modifies slotMap, this`workers
      ensures View() == Processed(old(View()), banned, p)
      ensures changed == Reports(old(View()), banned, p)
    {
      hide MergedWorkers, MergeReports, SlotsMerged, FindFrom;
      ghost var c := View();
      var sender := p.sender.id;
      if sender.None? || sender.value in banned || LocalId(Config(slotMap[..], workers)) == sender {
        return false;
      }
      changed := MergeWorkerRef(p.sender, true);
      if p.sender.role == Primary {
        var moved := MergeSenderSlots(p);
        changed := changed || moved;
      }
      ghost var first := AfterSender(c, p);
      assert View() == first;
      MergeSpares(c.workers, p.sender, true, LOCAL);
      MergeGrows(c.workers, p.sender, true);
      var heard := MergeSections(Considered(p), sender);
      changed := changed || heard;
    }

    method MergeSections(sections: seq<Meta>, sender: Option<NodeId>) returns (changed: bool)
      requires Valid() && |workers| > LOCAL
      modifies this`workers
      ensures var heard := Heard(LocalId(old(View())), banned, sender, sections);
              workers == MergedAll(old(workers), heard) && changed == AnyReports(old(workers), heard)
    {
      hide MergedWorkers, MergeReports, FindFrom;
      changed := false;
      ghost var local := LocalId(View());
      for i := 0 to |sections|
        invariant var heard := Heard(local, banned, sender, sections[..i]);
                  workers == MergedAll(old(workers), heard) && changed == AnyReports(old(workers), heard)
      {
        ghost var heard := Heard(local, banned, sender, sections[..i]);
        SectionStep(local, banned, sender, sections, i);
        HeardRelevant(local, banned, sender, sections[..i]);
        MergeAllSpares(old(workers), heard, LOCAL);
        var m := sections[i];
        if m.id.None? || m.id == sender || LocalId(Config(slotMap[..], workers)) == m.id || m.id.value in banned {
        } else {
          var news := MergeWorkerRef(m, false);
          changed := changed || news;
          assert (heard + [m])[..|heard|] == heard;
        }
      }
      assert sections[..|sections|] == sections;
    }

    /** Two primaries with one epoch: the one with the smaller identifier moves past every known epoch. */
    method ResolveEpochCollision(p: Packet) returns (bumped: bool)
      modifies this`workers
      ensures View() == Arbitrated(old(View()), p) && bumped == Collides(old(View()), p)
    {
      bumped := Collides(Config(slotMap[..], workers), p);
      if bumped {
        var max := GetMaxConfigEpoch();
        SetLocalEpoch(max + 1);
      }
    }

    method TryMergeGossip(p: Packet) returns (changed: bool)
      requires Valid() && |workers| > LOCAL
      modifies slotMap, this`workers
      ensures View() == GossipMerged(old(View()), banned, p)
      ensures changed <==> Reports(old(View()), banned, p) || Collides(Processed(old(View()), banned, p), p)
    {
      hide Processed, Reports;
      changed := ProcessPacket(p);
      var bumped := ResolveEpochCollision(p);
      changed := bumped || changed;
    }
  }

  lemma {:induction false} SectionStep(
      local: Option<NodeId>, banned: set<NodeId>, sender: Option<NodeId>, sections: seq<Meta>, i: nat)
    requires i < |sections|
    ensures Heard(local, banned, sender, sections[..i + 1])
            == if Relevant(local, banned, sender, sections[i])
               then Heard(local, banned, sender, sections[..i]) + [sections[i]]
               else Heard(local, banned, sender, sections[..i])
  {
    assert sections[..i + 1][..i] == sections[..i];
  }
}
