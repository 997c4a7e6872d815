/**
  The cluster configuration as one node sees it: 16384 hash slots, each naming a
  worker, and the table of workers.  Entry 0 of the table is reserved for
  "nobody" and entry 1 is the local node.
 */
module ClusterConfig {
  import opened Common

  const SLOTS := 16384
  const LOCAL := 1

  /** Node identifiers: all of one length, so their text order is the order of numbers. */
  type NodeId = nat

  datatype SlotState = Offline | Stable | Migrating | Importing | Fail | Node | Invalid

  datatype HashSlot = HashSlot(worker: nat, state: SlotState)
  {
    /** A migrating slot names its target but is still served locally. */
    function Effective(): nat {
      if state == Migrating then LOCAL else worker
    }
  }

  const UNCLAIMED := HashSlot(0, Offline)
  const OWN := HashSlot(LOCAL, Stable)

  datatype Role = Unassigned | Primary | Replica

  datatype Worker = Worker(
    id: Option<NodeId>,
    address: string,
    port: nat,
    epoch: int,
    role: Role,
    replicaOf: Option<NodeId>,
    offset: int,
    hostname: Option<string>,
    connected: bool,
    pfail: bool,
    failed: bool,
    handshake: bool)

  const NOBODY := Worker(None, "unassigned", 0, 0, Unassigned, None, 0, None, true, false, false, false)

  datatype Config = Config(slots: seq<HashSlot>, workers: seq<Worker>)

  datatype Refusal =
    | InvalidParam | SlotOutOfRange | NotSlotOwner | UnknownNode | MigrateToMyself | TargetNotMaster
    | SlotNotStable | SlotAlreadyImporting | CannotForgetMyself | CannotForgetMyPrimary
    | ResetWithKeysAssigned | CannotReplicateSelf | EpochCollision

  datatype Reply = Done(value: int) | Refused(why: Refusal)

  /** The cast of a table index to sixteen bits. */
  function U16(n: nat): nat {
    n % 65536
  }

  // ----- Lookups -----------------------------------------------------------

  /** The first worker from `from` on with an identifier, or 0. */
  function FindFrom(workers: seq<Worker>, id: NodeId, from: nat): (r: nat)
    requires from >= 1
    ensures r != 0 ==> from <= r < |workers| && workers[r].id == Some(id)
    ensures r == 0 ==> forall i :: from <= i < |workers| ==> workers[i].id != Some(id)
    ensures r != 0 ==> forall i :: from <= i < r ==> workers[i].id != Some(id)
    decreases |workers| - from
  {
    if from >= |workers| then 0
    else if workers[from].id == Some(id) then from
    else FindFrom(workers, id, from + 1)
  }

  function Find(workers: seq<Worker>, id: NodeId): nat {
    FindFrom(workers, id, 1)
  }

  /** The largest epoch in the table; an empty table counts as epoch 0. */
  function MaxEpochTo(workers: seq<Worker>, n: nat): (r: int)
    requires n <= |workers|
    ensures forall i :: 1 <= i < n ==> workers[i].epoch <= r
    ensures n > 1 ==> exists i :: 1 <= i < n && workers[i].epoch == r
    decreases n
  {
    if n <= 1 then 0
    else if n == 2 then workers[1].epoch
    else Max(MaxEpochTo(workers, n - 1), workers[n - 1].epoch)
  }

  function MaxEpoch(c: Config): int {
    MaxEpochTo(c.workers, |c.workers|)
  }

  function LocalId(c: Config): Option<NodeId> {
    if |c.workers| > LOCAL then c.workers[LOCAL].id else None
  }

  function LocalRole(c: Config): Role {
    if |c.workers| > LOCAL then c.workers[LOCAL].role else Unassigned
  }

  function LocalEpoch(c: Config): int {
    if |c.workers| > LOCAL then c.workers[LOCAL].epoch else 0
  }

  function LocalPrimary(c: Config): Option<NodeId> {
    if |c.workers| > LOCAL then c.workers[LOCAL].replicaOf else None
  }

  function RoleOf(c: Config, id: NodeId): Role {
    var i := Find(c.workers, id);
    if i == 0 then Unassigned else c.workers[i].role
  }

  function EpochAt(workers: seq<Worker>, i: nat): int {
    if i < |workers| then workers[i].epoch else 0
  }

  /** Is the slot served here?  A replica serves its primary's slots to read-only sessions. */
  predicate IsLocal(c: Config, slot: nat, readOnly: bool) {
    slot < |c.slots| &&
    var item := c.slots[slot];
    if item.worker == LOCAL then LocalRole(c) != Replica || readOnly
    else
      || item.state == Migrating
      || (readOnly && LocalRole(c) == Replica && item.worker > LOCAL && LocalPrimary(c).Some?
          && item.worker < |c.workers| && c.workers[item.worker].id == LocalPrimary(c))
  }

  // ----- Changes -----------------------------------------------------------

  function SetLocal(c: Config, w: Worker): Config {
    if |c.workers| > LOCAL then c.(workers := c.workers[LOCAL := w]) else c
  }

  function WithEpoch(c: Config, epoch: int): Config {
    if |c.workers| > LOCAL then c.(workers := c.workers[LOCAL := c.workers[LOCAL].(epoch := epoch)]) else c
  }

  /** The local epoch raised above every known one. */
  function Bumped(c: Config): Config {
    WithEpoch(c, MaxEpoch(c) + 1)
  }

  function SetSlot(c: Config, slot: nat, worker: nat, state: SlotState): Config {
    if slot < |c.slots| then c.(slots := c.slots[slot := HashSlot(worker, state)]) else c
  }

  /** The slots named, all set alike. */
  function Assigned(slots: seq<HashSlot>, named: seq<nat>, to: HashSlot): (r: seq<HashSlot>)
    ensures |r| == |slots|
  {
    seq(|slots|, i requires 0 <= i < |slots| => if i in named then to else slots[i])
  }

  /** The first reason not to add the slots, in their order. */
  function AddRefusal(c: Config, named: seq<nat>): Option<Refusal> {
    if named == [] then None
    else if named[0] >= |c.slots| then Some(SlotOutOfRange)
    else if c.slots[named[0]].state != Offline then Some(InvalidParam)
    else AddRefusal(c, named[1..])
  }

  /** CLUSTER ADDSLOTS. */
  function AddSlots(c: Config, named: seq<nat>): (Reply, Config) {
    if |c.workers| <= 1 then (Refused(InvalidParam), c)
    else
      var bad := AddRefusal(c, named);
      if bad.Some? then (Refused(bad.value), c)
      else (Done(|named|), c.(slots := Assigned(c.slots, named, OWN)))
  }

  function DelRefusal(c: Config, named: seq<nat>): Option<Refusal> {
    if named == [] then None
    else if named[0] >= |c.slots| then Some(SlotOutOfRange)
    else if c.slots[named[0]].worker == 0 then Some(NotSlotOwner)
    else DelRefusal(c, named[1..])
  }

  /** CLUSTER DELSLOTS. */
  function DelSlots(c: Config, named: seq<nat>): (Reply, Config) {
    if |c.workers| <= 1 then (Refused(InvalidParam), c)
    else
      var bad := DelRefusal(c, named);
      if bad.Some? then (Refused(bad.value), c)
      else (Done(|named|), Bumped(c.(slots := Assigned(c.slots, named, UNCLAIMED))))
  }

  /** CLUSTER SETSLOT MIGRATING. */
  function Migrate(c: Config, slot: nat, target: NodeId): (Reply, Config) {
    var at := Find(c.workers, target);
    if slot >= SLOTS then (Refused(SlotOutOfRange), c)
    else if at == 0 then (Refused(UnknownNode), c)
    else if LocalId(c) == Some(target) then (Refused(MigrateToMyself), c)
    else if RoleOf(c, target) != Primary then (Refused(TargetNotMaster), c)
    else if !IsLocal(c, slot, false) then (Refused(NotSlotOwner), c)
    else if c.slots[slot].state != Stable then (Refused(SlotNotStable), c)
    else (Done(0), SetSlot(c, slot, U16(at), Migrating))
  }

  /** CLUSTER SETSLOT IMPORTING. */
  function Import(c: Config, slot: nat, source: NodeId): (Reply, Config)
    requires |c.slots| == SLOTS
  {
    var at := Find(c.workers, source);
    if slot >= SLOTS then (Refused(SlotOutOfRange), c)
    else if at == 0 then (Refused(UnknownNode), c)
    else if LocalRole(c) != Primary then (Refused(InvalidParam), c)
    else if IsLocal(c, slot, false) then (Refused(InvalidParam), c)
    else
      var owner := c.slots[slot].worker;
      if !(owner < |c.workers| && c.workers[owner].id == Some(source)) then (Refused(InvalidParam), c)
      else if c.slots[slot].state != Stable then (Refused(SlotAlreadyImporting), c)
      else (Done(0), SetSlot(c, slot, U16(at), Importing))
  }

  /** CLUSTER SETSLOT NODE. */
  function GiveTo(c: Config, slot: nat, owner: NodeId): (Reply, Config)
    requires |c.slots| == SLOTS
  {
    var at := Find(c.workers, owner);
    if slot >= SLOTS then (Refused(SlotOutOfRange), c)
    else if at == 0 then (Refused(UnknownNode), c)
    else if c.slots[slot].state == Importing then
      if LocalId(c).Some? && LocalId(c) != Some(owner) then (Refused(InvalidParam), c)
      else (Done(0), Bumped(SetSlot(c, slot, LOCAL, Stable)))
    else (Done(0), SetSlot(c, slot, U16(at), Stable))
  }

  /** CLUSTER SETSLOT STABLE. */
  function Stabilize(c: Config, slot: nat): (Reply, Config)
    requires |c.slots| == SLOTS
  {
    if slot >= SLOTS then (Refused(SlotOutOfRange), c)
    else
      var cur := c.slots[slot];
      if cur.state == Migrating then (Done(0), SetSlot(c, slot, LOCAL, Stable))
      else if cur.state == Importing then (Done(0), SetSlot(c, slot, cur.worker, Stable))
      else (Done(0), c)
  }

  /** The first worker from `from` on at an address, or 0. */
  function FindAddress(workers: seq<Worker>, address: string, port: nat, from: nat): (r: nat)
    requires from >= 1
    ensures r != 0 ==> from <= r < |workers| && workers[r].address == address && workers[r].port == port
    ensures r == 0 ==>
              forall i :: from <= i < |workers| ==> !(workers[i].address == address && workers[i].port == port)
    ensures r != 0 ==> forall i :: from <= i < r ==> !(workers[i].address == address && workers[i].port == port)
    decreases |workers| - from
  {
    if from >= |workers| then 0
    else if workers[from].address == address && workers[from].port == port then from
    else FindAddress(workers, address, port, from + 1)
  }

  function Seed(address: string, port: nat, id: Option<NodeId>): Worker {
    NOBODY.(id := id, address := address, port := port, role := Primary, handshake := true)
  }

  /** CLUSTER MEET. */
  function Meet(c: Config, address: string, port: nat, id: Option<NodeId>): (Reply, Config) {
    var known := if id.Some? then Find(c.workers, id.value) else 0;
    if known > 0 then
      (Done(known), c.(workers := c.workers[known := c.workers[known].(address := address, port := port)]))
    else
      var at := FindAddress(c.workers, address, port, 1);
      if at > 0 then
        (Done(at), if id.Some? then c.(workers := c.workers[at := c.workers[at].(id := id)]) else c)
      else (Done(|c.workers|), c.(workers := c.workers + [Seed(address, port, id)]))
  }

  /** What becomes of a slot when a worker is removed from the table. */
  function Forgotten(s: HashSlot, removed: nat): HashSlot {
    if s.worker > removed then s.(worker := s.worker - 1)
    else if s.worker == removed then (if s.state == Migrating then OWN else UNCLAIMED)
    else s
  }

  function ForgottenAll(slots: seq<HashSlot>, removed: nat): (r: seq<HashSlot>)
    ensures |r| == |slots|
  {
    seq(|slots|, i requires 0 <= i < |slots| => Forgotten(slots[i], removed))
  }

  function Without(workers: seq<Worker>, at: nat): seq<Worker>
    requires at < |workers|
  {
    workers[..at] + workers[at + 1..]
  }

  /** CLUSTER FORGET. */
  function Forget(c: Config, id: NodeId): (Reply, Config) {
    if LocalId(c) == Some(id) then (Refused(CannotForgetMyself), c)
    else if RoleOf(c, id) == Unassigned then (Refused(UnknownNode), c)
    else if LocalRole(c) == Replica && LocalPrimary(c) == Some(id) then (Refused(CannotForgetMyPrimary), c)
    else
      var at := Find(c.workers, id);
      (Done(0), Config(ForgottenAll(c.slots, U16(at)), Without(c.workers, at)))
  }

  function FreshSlots(): (r: seq<HashSlot>)
    ensures |r| == SLOTS
  {
    seq(SLOTS, _ => UNCLAIMED)
  }

  /** A fresh configuration with its local worker filled in. */
  function Initial(local: Worker): Config {
    Config(FreshSlots(), [NOBODY, local])
  }

  predicate HoldsSlots(c: Config, worker: nat) {
    exists i :: 0 <= i < |c.slots| && c.slots[i].Effective() == worker
  }

  /** The local worker after a reset; a hard reset takes a new identifier. */
  function ResetWorker(c: Config, soft: bool, newId: NodeId): Worker {
    var here := |c.workers| > LOCAL;
    NOBODY.(
      id := if soft then LocalId(c) else Some(newId),
      address := if here then c.workers[LOCAL].address else "127.0.0.1",
      port := if here then c.workers[LOCAL].port else 0,
      epoch := if soft then LocalEpoch(c) else 0,
      role := Primary,
      hostname := if here then c.workers[LOCAL].hostname else None)
  }

  /** CLUSTER RESET. */
  function Reset(c: Config, soft: bool, hasKeys: bool, newId: NodeId): (Reply, Config) {
    if hasKeys && HoldsSlots(c, LOCAL) then (Refused(ResetWithKeysAssigned), c)
    else (Done(0), Initial(ResetWorker(c, soft, newId)))
  }

  function TakenOver(slots: seq<HashSlot>, from: nat): (r: seq<HashSlot>)
    ensures |r| == |slots|
  {
    seq(|slots|, i requires 0 <= i < |slots| => if slots[i].worker == from then OWN else slots[i])
  }

  function Promoted(c: Config, epoch: int): Config {
    if |c.workers| > LOCAL
    then SetLocal(c, c.workers[LOCAL].(role := Primary, replicaOf := None, epoch := epoch))
    else c
  }

  /** CLUSTER FAILOVER. */
  function Failover(c: Config): (Reply, Config) {
    if LocalRole(c) != Replica || LocalPrimary(c).None? then (Refused(InvalidParam), c)
    else
      var former := Find(c.workers, LocalPrimary(c).value);
      var taken := if former > 0 then c.(slots := TakenOver(c.slots, U16(former))) else c;
      var epoch := MaxEpoch(c) + 1;
      (Done(epoch), Promoted(taken, epoch))
  }

  function HandedOver(slots: seq<HashSlot>, to: nat): (r: seq<HashSlot>)
    ensures |r| == |slots|
  {
    seq(|slots|, i requires 0 <= i < |slots| =>
      if slots[i].Effective() == LOCAL then HashSlot(to, Stable) else slots[i])
  }

  /** CLUSTER REPLICATE. */
  function Replicate(c: Config, primary: NodeId): (Reply, Config) {
    var at := Find(c.workers, primary);
    if at == 0 then (Refused(UnknownNode), c)
    else if LocalId(c) == Some(primary) then (Refused(CannotReplicateSelf), c)
    else if RoleOf(c, primary) != Primary then (Refused(TargetNotMaster), c)
    else
      var handed := c.(slots := HandedOver(c.slots, U16(at)));
      (Done(0),
       if |c.workers| > LOCAL
       then SetLocal(handed, c.workers[LOCAL].(role := Replica, replicaOf := Some(primary)))
       else handed)
  }

  /** CLUSTER REPLICATE NO ONE. */
  function ReplicateNoOne(c: Config): (Reply, Config) {
    if LocalRole(c) != Replica then (Done(LocalEpoch(c)), c)
    else (Done(MaxEpoch(c) + 1), Promoted(c, MaxEpoch(c) + 1))
  }

  /** CLUSTER SET-CONFIG-EPOCH. */
  function SetEpoch(c: Config, epoch: int): (Reply, Config) {
    if |c.workers| > 2 then (Refused(InvalidParam), c)
    else if LocalEpoch(c) != 0 || epoch <= 0 then (Refused(EpochCollision), c)
    else (Done(0), WithEpoch(c, epoch))
  }

  /** CLUSTER BUMPEPOCH. */
  function BumpEpoch(c: Config): (Reply, Config) {
    (Done(MaxEpoch(c) + 1), Bumped(c))
  }
}
