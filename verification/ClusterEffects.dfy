/**
  What each administrative command does, read off the slot table and the worker
  table: when it succeeds, why it is refused, what it changes and what it leaves.
 */
module ClusterEffects {
  import opened Common
  import opened ClusterConfig
  import opened ClusterGossip
  import opened ClusterSafety

  /** The node's entry in the table. */
  predicate EntryAt(c: Config, node: NodeId, at: nat) {
    1 <= at < |c.workers| && c.workers[at].id == Some(node)
  }

  ghost predicate Known(c: Config, node: NodeId) {
    exists at :: EntryAt(c, node, at)
  }

  /** The slot is served here: it is ours, or ours and on its way out. */
  predicate Held(c: Config, slot: nat) {
    slot < |c.slots| && (c.slots[slot] == OWN || c.slots[slot].state == Migrating)
  }

  /** Only the local epoch changes, and it exceeds every epoch there was. */
  ghost predicate EpochRaised(before: seq<Worker>, after: seq<Worker>) {
    && LOCAL < |before| == |after| && after == before[LOCAL := before[LOCAL].(epoch := after[LOCAL].epoch)]
    && forall i :: 1 <= i < |before| ==> before[i].epoch < after[LOCAL].epoch
  }

  lemma {:induction false} EntryFound(c: Config, node: NodeId, at: nat)
    requires Inv(c) && EntryAt(c, node, at)
    ensures Find(c.workers, node) == at && (at == LOCAL <==> LocalId(c) == Some(node))
  {
    FindUnique(c.workers, node, at);
  }

  lemma {:induction false} StrangerNotFound(c: Config, node: NodeId)
    requires Inv(c) && !Known(c, node)
    ensures Find(c.workers, node) == 0 && LocalId(c) != Some(node)
  {
    hide FindFrom;
    assert EntryAt(c, node, Find(c.workers, node)) == (Find(c.workers, node) != 0);
    assert EntryAt(c, node, LOCAL) == (LocalId(c) == Some(node));
  }

  lemma {:induction false} BumpedRaises(c: Config)
    requires |c.workers| > LOCAL
    ensures Bumped(c).slots == c.slots && EpochRaised(c.workers, Bumped(c).workers)
  {
    hide MaxEpochTo;
  }

  // ----- Moving a slot -----------------------------------------------------

  /** All four forms of SETSLOT refuse slot numbers past the end; the three that name a node refuse strangers. */
  lemma {:induction false} BadSlotOrNode(c: Config, slot: nat, node: NodeId)
    requires Inv(c)
    ensures slot >= SLOTS ==>
              && Migrate(c, slot, node) == Import(c, slot, node) == GiveTo(c, slot, node)
              && Migrate(c, slot, node) == Stabilize(c, slot) == (Refused(SlotOutOfRange), c)
    ensures slot < SLOTS && !Known(c, node) ==>
              && Migrate(c, slot, node) == Import(c, slot, node) == GiveTo(c, slot, node)
              && Migrate(c, slot, node) == (Refused(UnknownNode), c)
  {
    if !Known(c, node) {
      StrangerNotFound(c, node);
    }
  }

  /** SETSLOT MIGRATING starts a move of a slot of ours to another primary, and changes nothing else. */
  lemma {:induction false} MigrationBegins(c: Config, slot: nat, node: NodeId, at: nat)
    requires Inv(c) && Fits(c) && slot < SLOTS && EntryAt(c, node, at)
    ensures
      var (r, after) := Migrate(c, slot, node);
      var target := at != LOCAL && c.workers[at].role == Primary;
      && (r == Done(0) <==> target && c.slots[slot] == OWN && LocalRole(c) != Replica)
      && (r == Refused(MigrateToMyself) <==> at == LOCAL)
      && (r == Refused(TargetNotMaster) <==> at != LOCAL && c.workers[at].role != Primary)
      && (r == Refused(SlotNotStable) <==> target && c.slots[slot].state == Migrating)
      && (r == Refused(NotSlotOwner) <==>
            target && c.slots[slot].state != Migrating && (c.slots[slot] != OWN || LocalRole(c) == Replica))
      && (r.Done? ==> after == c.(slots := c.slots[slot := HashSlot(at, Migrating)]))
      && (r.Refused? ==> after == c)
  {
    EntryFound(c, node, at);
    assert SlotOk(c.workers, c.slots[slot]);
    hide FindFrom, SlotsOk, DistinctIds;
  }

  /** SETSLOT IMPORTING starts a move to us of a slot that the node named is recorded to hold. */
  lemma {:induction false} ImportBegins(c: Config, slot: nat, node: NodeId, at: nat)
    requires Inv(c) && Fits(c) && slot < SLOTS && EntryAt(c, node, at)
    ensures
      var (r, after) := Import(c, slot, node);
      && (r == Done(0) <==> LocalRole(c) == Primary && at != LOCAL && c.slots[slot] == HashSlot(at, Stable))
      && (r == Refused(SlotAlreadyImporting) <==> LocalRole(c) == Primary && c.slots[slot] == HashSlot(at, Importing))
      && (r.Refused? && r.why != SlotAlreadyImporting ==> r == Refused(InvalidParam))
      && (r.Done? ==> after == c.(slots := c.slots[slot := HashSlot(at, Importing)]))
      && (r.Refused? ==> after == c)
  {
    EntryFound(c, node, at);
    assert SlotOk(c.workers, c.slots[slot]);
    if c.slots[slot].worker >= 1 && c.workers[c.slots[slot].worker].id == Some(node) {
      FindUnique(c.workers, node, c.slots[slot].worker);
    }
    hide FindFrom, SlotsOk, DistinctIds;
  }

  /**
    SETSLOT NODE gives the slot to the node named.  A slot being imported can only become ours, and
    then our epoch rises above every other so that gossip spreads it.
   */
  lemma {:induction false} OwnershipGiven(c: Config, slot: nat, node: NodeId, at: nat)
    requires Inv(c) && Fits(c) && slot < SLOTS && EntryAt(c, node, at)
    ensures
      var (r, after) := GiveTo(c, slot, node);
      var importing := c.slots[slot].state == Importing;
      && (r == Refused(InvalidParam) <==> importing && at != LOCAL)
      && (r == Done(0) <==> !(importing && at != LOCAL))
      && (r.Refused? ==> after == c)
      && (r.Done? && importing ==>
            after.slots == c.slots[slot := OWN] && EpochRaised(c.workers, after.workers))
      && (r.Done? && !importing ==> after == c.(slots := c.slots[slot := HashSlot(at, Stable)]))
  {
    EntryFound(c, node, at);
    BumpedRaises(SetSlot(c, slot, LOCAL, Stable));
    hide FindFrom, SlotsOk, DistinctIds, Bumped, EpochRaised;
  }

  /** SETSLOT STABLE takes a slot on its way out back and leaves one on its way in with its owner. */
  lemma {:induction false} MoveStopped(c: Config, slot: nat)
    requires Inv(c) && slot < SLOTS
    ensures
      var (r, after) := Stabilize(c, slot);
      var was := c.slots[slot];
      r == Done(0) && after.workers == c.workers
      && after.slots == c.slots[slot := if was.state == Migrating then OWN
                                        else if was.state == Importing then HashSlot(was.worker, Stable)
                                        else was]
  {
    assert c.slots[slot := c.slots[slot]] == c.slots;
  }

  // ----- Slots in bulk -----------------------------------------------------

  /** The first slot named that is out of range or fails the test decides the refusal. */
  ghost predicate FirstBad(c: Config, named: seq<nat>, free: bool, otherwise: Refusal, why: Refusal) {
    exists i :: 0 <= i < |named| && BadAt(c, named, i, free, otherwise, why)
  }

  ghost predicate BadAt(c: Config, named: seq<nat>, i: nat, free: bool, otherwise: Refusal, why: Refusal)
    requires i < |named|
  {
    && (forall j :: 0 <= j < i ==> Fine(c, named[j], free))
    && !Fine(c, named[i], free)
    && why == if named[i] >= |c.slots| then SlotOutOfRange else otherwise
  }

  /** In range, and free or taken as asked. */
  predicate Fine(c: Config, slot: nat, free: bool) {
    slot < |c.slots| && (c.slots[slot] == UNCLAIMED) == free
  }

  lemma {:induction false} AddRefusalIs(c: Config, named: seq<nat>)
    requires SlotsOk(c)
    ensures AddRefusal(c, named).None? <==> forall k :: k in named ==> Fine(c, k, true)
    ensures AddRefusal(c, named).Some? ==> FirstBad(c, named, true, InvalidParam, AddRefusal(c, named).value)
  {
    if named != [] {
      assert named[0] < |c.slots| ==> SlotOk(c.workers, c.slots[named[0]]);
      AddRefusalIs(c, named[1..]);
      assert forall k :: k in named <==> k == named[0] || k in named[1..];
      hide SlotsOk;
      if Fine(c, named[0], true) {
        if AddRefusal(c, named).Some? {
          BadLater(c, named, true, InvalidParam, AddRefusal(c, named).value);
        }
      } else {
        assert BadAt(c, named, 0, true, InvalidParam, AddRefusal(c, named).value);
      }
    }
  }

  lemma {:induction false} BadLater(c: Config, named: seq<nat>, free: bool, otherwise: Refusal, why: Refusal)
    requires named != [] && Fine(c, named[0], free) && FirstBad(c, named[1..], free, otherwise, why)
    ensures FirstBad(c, named, free, otherwise, why)
  {
    hide Fine;
    var i :| 0 <= i < |named[1..]| && BadAt(c, named[1..], i, free, otherwise, why);
    forall j | 0 <= j < i + 1
      ensures Fine(c, named[j], free)
    {
      if j > 0 {
        assert named[j] == named[1..][j - 1];
      }
    }
    assert BadAt(c, named, i + 1, free, otherwise, why);
  }

  lemma {:induction false} DelRefusalIs(c: Config, named: seq<nat>)
    requires SlotsOk(c)
    ensures DelRefusal(c, named).None? <==> forall k :: k in named ==> Fine(c, k, false)
    ensures DelRefusal(c, named).Some? ==> FirstBad(c, named, false, NotSlotOwner, DelRefusal(c, named).value)
  {
    if named != [] {
      assert named[0] < |c.slots| ==> SlotOk(c.workers, c.slots[named[0]]);
      DelRefusalIs(c, named[1..]);
      assert forall k :: k in named <==> k == named[0] || k in named[1..];
      hide SlotsOk;
      if Fine(c, named[0], false) {
        if DelRefusal(c, named).Some? {
          BadLater(c, named, false, NotSlotOwner, DelRefusal(c, named).value);
        }
      } else {
        assert BadAt(c, named, 0, false, NotSlotOwner, DelRefusal(c, named).value);
      }
    }
  }

  /** ADDSLOTS takes free slots, all of those named or none. */
  lemma {:induction false} SlotsAdded(c: Config, named: seq<nat>)
    requires Inv(c)
    ensures
      var (r, after) := AddSlots(c, named);
      && (r.Done? <==> forall k :: k in named ==> Fine(c, k, true))
      && (r.Refused? ==> after == c && FirstBad(c, named, true, InvalidParam, r.why))
      && (r.Done? ==>
            && r == Done(|named|) && after.workers == c.workers && |after.slots| == SLOTS
            && forall s :: 0 <= s < SLOTS ==> after.slots[s] == if s in named then OWN else c.slots[s])
  {
    AddRefusalIs(c, named);
    hide AddRefusal, FirstBad, Fine;
  }

  /** DELSLOTS frees slots that have an owner, whoever that is, all or none, and raises the local epoch. */
  lemma {:induction false} SlotsRemoved(c: Config, named: seq<nat>)
    requires Inv(c)
    ensures
      var (r, after) := DelSlots(c, named);
      && (r.Done? <==> forall k :: k in named ==> Fine(c, k, false))
      && (r.Refused? ==> after == c && FirstBad(c, named, false, NotSlotOwner, r.why))
      && (r.Done? ==>
            && r == Done(|named|) && EpochRaised(c.workers, after.workers) && |after.slots| == SLOTS
            && forall s :: 0 <= s < SLOTS ==> after.slots[s] == if s in named then UNCLAIMED else c.slots[s])
  {
    DelRefusalIs(c, named);
    BumpedRaises(c.(slots := Assigned(c.slots, named, UNCLAIMED)));
    hide DelRefusal, FirstBad, Fine, Bumped, EpochRaised;
  }

  // ----- Nodes -------------------------------------------------------------

  predicate Lives(w: Worker, address: string, port: nat) {
    w.address == address && w.port == port
  }

  /**
    MEET leaves one entry with the address, the port and, if given, the identifier: the node's own
    if it is known, else the first one at that address, else a new one waiting for its handshake.
    No other entry and no slot changes.
   */
  lemma {:induction false} NodeMet(c: Config, address: string, port: nat, id: Option<NodeId>)
    requires Inv(c)
    ensures
      var (r, after) := Meet(c, address, port, id);
      var at := r.value;
      && r.Done? && 1 <= at < |after.workers| && after.slots == c.slots && |c.workers| <= |after.workers|
      && Lives(after.workers[at], address, port) && (id.Some? ==> after.workers[at].id == id)
      && (forall i :: 0 <= i < |c.workers| && i != at ==> after.workers[i] == c.workers[i])
      && if id.Some? && Known(c, id.value) then
           && EntryAt(c, id.value, at) && |after.workers| == |c.workers|
           && after.workers[at] == c.workers[at].(address := address, port := port)
         else if exists i :: 1 <= i < |c.workers| && Lives(c.workers[i], address, port) then
           && at < |c.workers| == |after.workers| && Lives(c.workers[at], address, port)
           && (forall i :: 1 <= i < at ==> !Lives(c.workers[i], address, port))
           && after.workers[at] == c.workers[at].(id := if id.Some? then id else c.workers[at].id)
         else
           && at == |c.workers| == |after.workers| - 1
           && after.workers[at] ==
              NOBODY.(id := id, address := address, port := port, role := Primary, handshake := true)
  {
    if id.Some? {
      if Known(c, id.value) {
        var at :| EntryAt(c, id.value, at);
        EntryFound(c, id.value, at);
      } else {
        StrangerNotFound(c, id.value);
      }
    }
    hide FindFrom, FindAddress;
    var at := FindAddress(c.workers, address, port, 1);
    assert at != 0 ==> Lives(c.workers[at], address, port);
  }

  /** FORGET takes the entry out; the node itself, its primary and strangers are refused. */
  lemma {:induction false} NodeForgotten(c: Config, node: NodeId)
    requires Inv(c)
    ensures !Known(c, node) ==> Forget(c, node) == (Refused(UnknownNode), c)
    ensures forall at: nat :: EntryAt(c, node, at) ==>
      var (r, after) := Forget(c, node);
      && (r == Refused(CannotForgetMyself) <==> at == LOCAL)
      && (r == Refused(UnknownNode) <==> at != LOCAL && c.workers[at].role == Unassigned)
      && (r == Refused(CannotForgetMyPrimary) <==>
            && at != LOCAL && c.workers[at].role != Unassigned
            && LocalRole(c) == Replica && LocalPrimary(c) == Some(node))
      && (r.Refused? ==> after == c)
      && (r.Done? ==> r == Done(0) && after.workers == c.workers[..at] + c.workers[at + 1..])
      && (r.Refused? ==> r.why in {CannotForgetMyself, UnknownNode, CannotForgetMyPrimary})
  {
    if Known(c, node) {
      var at :| EntryAt(c, node, at);
      EntryFound(c, node, at);
      forall i: nat | EntryAt(c, node, i)
        ensures i == at
      {
        EntryFound(c, node, i);
      }
    } else {
      StrangerNotFound(c, node);
    }
    hide FindFrom;
  }

  /**
    RESET starts over with the same address, port and host name and no slot.  A soft one keeps the
    identifier and the epoch, a hard one takes the new identifier and epoch 0.  It is refused only
    to a node with keys that still serves a slot.
   */
  lemma {:induction false} NodeReset(c: Config, soft: bool, hasKeys: bool, newId: NodeId)
    requires Inv(c)
    ensures
      var (r, after) := Reset(c, soft, hasKeys, newId);
      var refused := hasKeys && exists s :: 0 <= s < SLOTS && Held(c, s);
      && r == (if refused then Refused(ResetWithKeysAssigned) else Done(0))
      && (refused ==> after == c)
      && (!refused ==>
            var me, now := c.workers[LOCAL], after.workers[LOCAL];
            && |after.workers| == 2 && after.workers[0] == NOBODY
            && now == NOBODY.(id := now.id, address := me.address, port := me.port, epoch := now.epoch,
                              role := Primary, hostname := me.hostname)
            && (soft ==> now.id == me.id && now.epoch == me.epoch)
            && (!soft ==> now.id == Some(newId) && now.epoch == 0)
            && |after.slots| == SLOTS && forall s :: 0 <= s < SLOTS ==> after.slots[s] == UNCLAIMED)
  {
    forall s | 0 <= s < SLOTS
      ensures Held(c, s) <==> c.slots[s].Effective() == LOCAL
    {
      assert SlotOk(c.workers, c.slots[s]);
    }
    if exists s :: 0 <= s < SLOTS && Held(c, s) {
      var s :| 0 <= s < SLOTS && Held(c, s);
      assert c.slots[s].Effective() == LOCAL;
    }
    hide SlotsOk;
  }

  // ----- Replication -------------------------------------------------------

  /** REPLICATE hands every slot served here to another primary; the local entry says so and nothing else changes. */
  lemma {:induction false} BecomesReplica(c: Config, node: NodeId, at: nat)
    requires Inv(c) && Fits(c) && EntryAt(c, node, at)
    ensures
      var (r, after) := Replicate(c, node);
      && (r == Done(0) <==> at != LOCAL && c.workers[at].role == Primary)
      && (r == Refused(CannotReplicateSelf) <==> at == LOCAL)
      && (r == Refused(TargetNotMaster) <==> at != LOCAL && c.workers[at].role != Primary)
      && (r.Refused? ==> after == c)
      && (r.Done? ==>
            && after.workers == c.workers[LOCAL := c.workers[LOCAL].(role := Replica, replicaOf := Some(node))]
            && |after.slots| == SLOTS
            && forall s :: 0 <= s < SLOTS ==>
                 after.slots[s] == if Held(c, s) then HashSlot(at, Stable) else c.slots[s])
  {
    EntryFound(c, node, at);
    forall s | 0 <= s < SLOTS
      ensures Held(c, s) <==> c.slots[s].Effective() == LOCAL
    {
      assert SlotOk(c.workers, c.slots[s]);
    }
    hide FindFrom, SlotsOk, Held;
  }

  lemma {:induction false} StrangerNotFollowed(c: Config, node: NodeId)
    requires Inv(c) && !Known(c, node)
    ensures Replicate(c, node) == (Refused(UnknownNode), c)
  {
    StrangerNotFound(c, node);
  }

  /**
    FAILOVER makes a replica a primary that outranks every node and owns every slot recorded for
    its former primary; a node without a primary is refused.
   */
  lemma {:induction false} TakesOver(c: Config)
    requires Inv(c) && Fits(c)
    ensures
      var (r, after) := Failover(c);
      && (r.Refused? <==> LocalRole(c) != Replica || LocalPrimary(c).None?)
      && (r.Refused? ==> r == Refused(InvalidParam) && after == c)
      && (r.Done? ==>
            var me, now := c.workers[LOCAL], after.workers[LOCAL];
            && |after.workers| == |c.workers| && r == Done(now.epoch)
            && after.workers == c.workers[LOCAL := me.(role := Primary, replicaOf := None, epoch := now.epoch)]
            && (forall i :: 1 <= i < |c.workers| ==> c.workers[i].epoch < now.epoch)
            && |after.slots| == SLOTS
            && forall s :: 0 <= s < SLOTS ==>
                 var owner := c.slots[s].worker;
                 after.slots[s] == if owner >= 1 && c.workers[owner].id == LocalPrimary(c) then OWN else c.slots[s])
  {
    if LocalRole(c) == Replica && LocalPrimary(c).Some? {
      var primary := LocalPrimary(c).value;
      forall s | 0 <= s < SLOTS
        ensures c.slots[s].worker < |c.workers|
        ensures c.slots[s].worker >= 1 && c.workers[c.slots[s].worker].id == Some(primary)
                <==> Find(c.workers, primary) > 0 && c.slots[s].worker == Find(c.workers, primary)
      {
        assert SlotOk(c.workers, c.slots[s]);
        if c.slots[s].worker >= 1 && c.workers[c.slots[s].worker].id == Some(primary) {
          FindUnique(c.workers, primary, c.slots[s].worker);
        }
      }
      hide FindFrom, SlotsOk, MaxEpochTo, DistinctIds;
    }
  }
}
