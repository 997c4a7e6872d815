/**
  Merging a gossip packet into the configuration: what the sender says of itself,
  the slots it claims, and what it has heard of other nodes.
 */
module ClusterGossip {
  import opened Common
  import opened ClusterConfig

  const MAX_SECTIONS := 1024

  /** What a packet says of one node; no identifier stands for the empty string. */
  datatype Meta = Meta(
    id: Option<NodeId>,
    address: string,
    port: nat,
    epoch: int,
    role: Role,
    replicaOf: Option<NodeId>,
    hostname: Option<string>)

  datatype Packet = Packet(sender: Meta, claimed: seq<nat>, migrating: seq<nat>, sections: seq<Meta>)

  function MetaOf(w: Worker): Meta {
    Meta(w.id, w.address, w.port, w.epoch, w.role, w.replicaOf, w.hostname)
  }

  /** What a node sends out: its own entry, the slots it serves, those it is giving away, and news of others. */
  ghost predicate SentBy(c: Config, p: Packet) {
    && |c.workers| > LOCAL && p.sender == MetaOf(c.workers[LOCAL])
    && (forall s: nat :: s in p.claimed <==> s < |c.slots| && c.slots[s] == OWN)
    && (forall s: nat :: s in p.migrating <==> s < |c.slots| && c.slots[s].state == Migrating)
    && forall m :: m in p.sections ==> exists i :: 2 <= i < |c.workers| && m == MetaOf(c.workers[i])
  }

  // ----- One node ----------------------------------------------------------

  /** A node heard of for the first time; only the node itself can complete a handshake. */
  function Newcomer(m: Meta, direct: bool): Worker {
    NOBODY.(id := m.id, address := m.address, port := m.port, epoch := m.epoch, role := m.role,
            replicaOf := m.replicaOf, hostname := m.hostname, handshake := !direct)
  }

  function Updated(w: Worker, m: Meta): Worker {
    w.(address := m.address, port := m.port, epoch := m.epoch, role := m.role,
       replicaOf := m.replicaOf, hostname := m.hostname, handshake := false)
  }

  /** Is the news fresh enough to be taken? */
  predicate Fresher(w: Worker, m: Meta, direct: bool) {
    m.epoch > w.epoch || (direct && w.handshake && m.epoch >= w.epoch)
  }

  predicate Differs(w: Worker, m: Meta) {
    || m.epoch != w.epoch || m.address != w.address || m.port != w.port
    || m.role != w.role || m.replicaOf != w.replicaOf || m.hostname != w.hostname
  }

  function MergedWorkers(workers: seq<Worker>, m: Meta, direct: bool): seq<Worker> {
    if m.id.None? then workers
    else
      var at := Find(workers, m.id.value);
      if at == 0 then workers + [Newcomer(m, direct)]
      else if Fresher(workers[at], m, direct) then workers[at := Updated(workers[at], m)]
      else workers
  }

  predicate MergeReports(workers: seq<Worker>, m: Meta, direct: bool) {
    m.id.Some? &&
    var at := Find(workers, m.id.value);
    at == 0 || (Fresher(workers[at], m, direct) && Differs(workers[at], m))
  }

  // ----- The sender's slots ------------------------------------------------

  /** The slot's present owner does not outrank the sender; epoch 0 is never outranked. */
  predicate Yields(workers: seq<Worker>, cur: HashSlot, epoch: int) {
    epoch == 0 || EpochAt(workers, cur.worker) < epoch
  }

  /** A slot the sender held or was giving to us but no longer speaks for. */
  predicate Abandoned(cur: HashSlot, sender: nat, spoken: bool) {
    cur.worker == sender && (cur.state == Stable || cur.state == Importing) && !spoken
  }

  /** What one slot becomes. */
  function MergedSlot(
      workers: seq<Worker>, cur: HashSlot, sender: nat, epoch: int, claims: bool, spoken: bool): HashSlot
  {
    if claims && Yields(workers, cur, epoch) then HashSlot(sender, Stable)
    else if Abandoned(cur, sender, spoken) then UNCLAIMED
    else cur
  }

  function MergedSlots(c: Config, sender: nat, p: Packet): (r: seq<HashSlot>)
    ensures |r| == |c.slots|
  {
    seq(|c.slots|, s requires 0 <= s < |c.slots| =>
      MergedSlot(c.workers, c.slots[s], sender, p.sender.epoch, s in p.claimed, s in p.claimed || s in p.migrating))
  }

  function SlotsMerged(c: Config, p: Packet): Config {
    if p.sender.id.None? then c
    else
      var at := Find(c.workers, p.sender.id.value);
      if at == 0 then c else c.(slots := MergedSlots(c, U16(at), p))
  }

  // ----- A packet ----------------------------------------------------------

  /** Packets without a sender, from a banned sender or from ourselves are ignored. */
  predicate Accepts(c: Config, banned: set<NodeId>, p: Packet) {
    p.sender.id.Some? && p.sender.id.value !in banned && LocalId(c) != p.sender.id
  }

  predicate Relevant(local: Option<NodeId>, banned: set<NodeId>, sender: Option<NodeId>, m: Meta) {
    m.id.Some? && m.id != sender && m.id != local && m.id.value !in banned
  }

  /** The nodes other than the sender that the packet is believed about, in order. */
  function Heard(local: Option<NodeId>, banned: set<NodeId>, sender: Option<NodeId>, sections: seq<Meta>): seq<Meta> {
    if sections == [] then []
    else
      var last := sections[|sections| - 1];
      Heard(local, banned, sender, sections[..|sections| - 1])
      + (if Relevant(local, banned, sender, last) then [last] else [])
  }

  function Considered(p: Packet): seq<Meta> {
    if |p.sections| > MAX_SECTIONS then p.sections[..MAX_SECTIONS] else p.sections
  }

  function MergedAll(workers: seq<Worker>, heard: seq<Meta>): seq<Worker> {
    if heard == [] then workers
    else MergedWorkers(MergedAll(workers, heard[..|heard| - 1]), heard[|heard| - 1], false)
  }

  /** The sender's own entry, then its slots, then what it has heard. */
  function AfterSender(c: Config, p: Packet): Config {
    var greeted := c.(workers := MergedWorkers(c.workers, p.sender, true));
    if p.sender.role == Primary then SlotsMerged(greeted, p) else greeted
  }

  function Processed(c: Config, banned: set<NodeId>, p: Packet): Config {
    if !Accepts(c, banned, p) then c
    else
      var first := AfterSender(c, p);
      first.(workers := MergedAll(first.workers, Heard(LocalId(c), banned, p.sender.id, Considered(p))))
  }

  /** Two primaries with the same epoch: the one with the smaller identifier moves on. */
  predicate Collides(c: Config, p: Packet) {
    && LocalId(c).Some? && LocalRole(c) == Primary && LocalEpoch(c) == p.sender.epoch && p.sender.epoch > 0
    && p.sender.id.Some? && LocalId(c).value < p.sender.id.value
  }

  function Arbitrated(c: Config, p: Packet): Config {
    if Collides(c, p) then Bumped(c) else c
  }

  predicate AnyReports(workers: seq<Worker>, heard: seq<Meta>) {
    heard != [] &&
    var front := heard[..|heard| - 1];
    AnyReports(workers, front) || MergeReports(MergedAll(workers, front), heard[|heard| - 1], false)
  }

  /** Does processing the packet report a change? */
  predicate Reports(c: Config, banned: set<NodeId>, p: Packet) {
    Accepts(c, banned, p) &&
    var first := AfterSender(c, p);
    || MergeReports(c.workers, p.sender, true)
    || first.slots != c.slots
    || AnyReports(first.workers, Heard(LocalId(c), banned, p.sender.id, Considered(p)))
  }

  function GossipMerged(c: Config, banned: set<NodeId>, p: Packet): Config {
    Arbitrated(Processed(c, banned, p), p)
  }

  // ----- What a merge does to the worker table -----------------------------

  /** Entries keep their places and identifiers, epochs never fall, and only the named node's entry changes. */
  ghost predicate Grown(before: seq<Worker>, after: seq<Worker>) {
    && |before| <= |after|
    && forall i :: 0 <= i < |before| ==> after[i].id == before[i].id && after[i].epoch >= before[i].epoch
  }

  lemma {:induction false} FindIs(workers: seq<Worker>, id: NodeId, at: nat)
    requires 1 <= at < |workers| && workers[at].id == Some(id)
    requires forall i :: 1 <= i < at ==> workers[i].id != Some(id)
    ensures Find(workers, id) == at
  {
  }

  lemma {:induction false} FindKept(before: seq<Worker>, after: seq<Worker>, id: NodeId)
    requires Grown(before, after) && Find(before, id) != 0
    ensures Find(after, id) == Find(before, id)
  {
    hide FindFrom;
    FindIs(after, id, Find(before, id));
  }

  lemma {:induction false} MergeGrows(workers: seq<Worker>, m: Meta, direct: bool)
    ensures Grown(workers, MergedWorkers(workers, m, direct))
  {
  }

  lemma {:induction false} MergeAllGrows(workers: seq<Worker>, heard: seq<Meta>)
    ensures Grown(workers, MergedAll(workers, heard))
  {
    if heard != [] {
      MergeAllGrows(workers, heard[..|heard| - 1]);
      MergeGrows(MergedAll(workers, heard[..|heard| - 1]), heard[|heard| - 1], false);
    }
  }

  /** A merge leaves alone every entry that does not carry the node's identifier. */
  lemma {:induction false} MergeSpares(workers: seq<Worker>, m: Meta, direct: bool, i: nat)
    requires i < |workers| && (i == 0 || workers[i].id != m.id)
    ensures MergedWorkers(workers, m, direct)[i] == workers[i]
  {
  }

  lemma {:induction false} MergeAllSpares(workers: seq<Worker>, heard: seq<Meta>, i: nat)
    requires i < |workers|
    requires forall m :: m in heard ==> i == 0 || workers[i].id != m.id
    ensures i < |MergedAll(workers, heard)| && MergedAll(workers, heard)[i] == workers[i]
  {
    MergeAllGrows(workers, heard);
    if heard != [] {
      var front, last := heard[..|heard| - 1], heard[|heard| - 1];
      MergeAllSpares(workers, front, i);
      assert last in heard;
      MergeSpares(MergedAll(workers, front), last, false, i);
    }
  }

  lemma {:induction false} HeardRelevant(
      local: Option<NodeId>, banned: set<NodeId>, sender: Option<NodeId>, sections: seq<Meta>)
    ensures forall m :: m in Heard(local, banned, sender, sections) ==> Relevant(local, banned, sender, m)
  {
    if sections != [] {
      HeardRelevant(local, banned, sender, sections[..|sections| - 1]);
    }
  }

  /** The packet is believed about just those sections that name a node: not us, not the sender, not a banned one. */
  lemma {:induction false} HeardIs(
      local: Option<NodeId>, banned: set<NodeId>, sender: Option<NodeId>, sections: seq<Meta>, m: Meta)
    ensures m in Heard(local, banned, sender, sections) <==>
              m in sections && m.id.Some? && m.id != sender && m.id != local && m.id.value !in banned
  {
    if sections != [] {
      var front, last := sections[..|sections| - 1], sections[|sections| - 1];
      HeardIs(local, banned, sender, front, m);
      assert sections == front + [last];
    }
  }

  /**
    News of a node we know: it is taken if its epoch is higher, or from the node itself if it is
    the answer to a handshake.  Then the entry says exactly what the news says and keeps what only
    we know; a change is reported exactly when the entry did not say it before.
   */
  lemma {:induction false} NewsOfKnown(workers: seq<Worker>, m: Meta, direct: bool, at: nat)
    requires m.id.Some? && 1 <= at < |workers| && workers[at].id == m.id
    requires forall i :: 1 <= i < at ==> workers[i].id != m.id
    ensures
      var after, was := MergedWorkers(workers, m, direct), workers[at];
      var taken := m.epoch > was.epoch || (direct && was.handshake && m.epoch == was.epoch);
      && |after| == |workers|
      && (forall i :: 0 <= i < |workers| && i != at ==> after[i] == workers[i])
      && (!taken ==> after == workers)
      && (taken ==>
            && MetaOf(after[at]) == m && !after[at].handshake && after[at].offset == was.offset
            && after[at].connected == was.connected && after[at].pfail == was.pfail && after[at].failed == was.failed)
      && (MergeReports(workers, m, direct) <==> taken && MetaOf(was) != m)
  {
    FindIs(workers, m.id.value, at);
    hide FindFrom;
  }

  /** News of a stranger adds an entry that says what the news says; only from the node itself it needs no handshake. */
  lemma {:induction false} NewsOfStranger(workers: seq<Worker>, m: Meta, direct: bool)
    requires m.id.Some? && forall i :: 1 <= i < |workers| ==> workers[i].id != m.id
    ensures
      var after := MergedWorkers(workers, m, direct);
      && |after| == |workers| + 1 && after[..|workers|] == workers
      && MetaOf(after[|workers|]) == m && after[|workers|].handshake == !direct
      && !after[|workers|].pfail && !after[|workers|].failed && after[|workers|].offset == 0
      && MergeReports(workers, m, direct)
  {
    hide FindFrom;
  }

  /** News without an identifier is no news. */
  lemma {:induction false} NewsOfNobody(workers: seq<Worker>, m: Meta, direct: bool)
    requires m.id.None?
    ensures MergedWorkers(workers, m, direct) == workers && !MergeReports(workers, m, direct)
  {
  }

  /** What a packet says beyond its first 1024 sections is not heard. */
  lemma {:induction false} LateSectionsIgnored(c: Config, banned: set<NodeId>, p: Packet)
    requires |p.sections| > 1024
    ensures
      var cut := p.(sections := p.sections[..1024]);
      GossipMerged(c, banned, p) == GossipMerged(c, banned, cut) && (Reports(c, banned, p) <==> Reports(c, banned, cut))
  {
    var cut := p.(sections := p.sections[..1024]);
    assert Considered(cut) == Considered(p);
    assert AfterSender(c, cut) == AfterSender(c, p);
    hide Heard, MergedAll, AfterSender, AnyReports;
  }

  /** Without a report nothing that gossip tells of any node has changed; with one the table has. */
  ghost predicate SameNews(before: seq<Worker>, after: seq<Worker>) {
    |before| == |after| && forall i :: 0 <= i < |before| ==> MetaOf(after[i]) == MetaOf(before[i])
  }

  lemma {:induction false} MergeReportMeans(workers: seq<Worker>, m: Meta, direct: bool)
    requires workers != []
    ensures MergeReports(workers, m, direct) <==> !SameNews(workers, MergedWorkers(workers, m, direct))
  {
    if m.id.Some? {
      var at := Find(workers, m.id.value);
      hide FindFrom;
      if at == 0 {
        NewsOfStranger(workers, m, direct);
      } else {
        NewsOfKnown(workers, m, direct, at);
      }
      hide MergedWorkers, MergeReports;
    }
  }

  /** Epochs never fall, so what hearsay has changed stays changed. */
  lemma {:induction false} HearsayAdds(a: seq<Worker>, b: seq<Worker>, m: Meta)
    requires a != [] && Grown(a, b)
    ensures
      var c := MergedWorkers(b, m, false);
      Grown(a, c) && (SameNews(a, c) <==> SameNews(a, b) && SameNews(b, c))
  {
    hide FindFrom;
    MergeGrows(b, m, false);
    if m.id.Some? && Find(b, m.id.value) != 0 {
      NewsOfKnown(b, m, false, Find(b, m.id.value));
    } else if m.id.Some? {
      NewsOfStranger(b, m, false);
    } else {
      NewsOfNobody(b, m, false);
    }
    hide MergedWorkers;
  }

  lemma {:induction false} HearsayReports(workers: seq<Worker>, heard: seq<Meta>)
    requires workers != []
    ensures AnyReports(workers, heard) <==> !SameNews(workers, MergedAll(workers, heard))
  {
    if heard != [] {
      var front, last := heard[..|heard| - 1], heard[|heard| - 1];
      HearsayReports(workers, front);
      MergeAllGrows(workers, front);
      HearsayAdds(workers, MergedAll(workers, front), last);
      MergeReportMeans(MergedAll(workers, front), last, false);
      hide MergeReports, SameNews;
    }
  }

  /**
    A packet reports a change exactly when a slot changes or what gossip tells of some node does.
    Finishing a handshake alone is no change.
   */
  lemma {:induction false} ReportMeans(c: Config, banned: set<NodeId>, p: Packet)
    requires c.workers != []
    ensures
      var after := Processed(c, banned, p);
      Reports(c, banned, p) <==> after.slots != c.slots || !SameNews(c.workers, after.workers)
  {
    if Accepts(c, banned, p) {
      var first := AfterSender(c, p);
      var heard := Heard(LocalId(c), banned, p.sender.id, Considered(p));
      assert first.workers == MergedWorkers(c.workers, p.sender, true);
      MergeReportMeans(c.workers, p.sender, true);
      MergeGrows(c.workers, p.sender, true);
      HearsayReports(first.workers, heard);
      hide AfterSender, Heard, MergeReports, AnyReports, MergedWorkers;
      HearsayKeepsChange(c.workers, first.workers, heard);
    }
  }

  lemma {:induction false} HearsayKeepsChange(a: seq<Worker>, b: seq<Worker>, heard: seq<Meta>)
    requires a != [] && Grown(a, b)
    ensures Grown(a, MergedAll(b, heard))
    ensures SameNews(a, MergedAll(b, heard)) <==> SameNews(a, b) && SameNews(b, MergedAll(b, heard))
  {
    if heard != [] {
      var front, last := heard[..|heard| - 1], heard[|heard| - 1];
      HearsayKeepsChange(a, b, front);
      MergeAllGrows(b, front);
      HearsayAdds(a, MergedAll(b, front), last);
      HearsayAdds(b, MergedAll(b, front), last);
      hide Grown, MergedWorkers;
    }
  }

  /** Gossip never alters the reserved entry or the local worker's entry. */
  lemma {:induction false} ProcessedSparesLocal(c: Config, banned: set<NodeId>, p: Packet, i: nat)
    requires i < |c.workers| && i <= LOCAL
    ensures var after := Processed(c, banned, p); i < |after.workers| && after.workers[i] == c.workers[i]
  {
    if Accepts(c, banned, p) {
      MergeSpares(c.workers, p.sender, true, i);
      MergeGrows(c.workers, p.sender, true);
      var heard := Heard(LocalId(c), banned, p.sender.id, Considered(p));
      HeardRelevant(LocalId(c), banned, p.sender.id, Considered(p));
      hide Heard, MergedWorkers;
      MergeAllSpares(AfterSender(c, p).workers, heard, i);
    }
  }

  // ----- Processing a packet again -----------------------------------------

  /** The table has nothing to learn from the news. */
  predicate Settled(workers: seq<Worker>, m: Meta, direct: bool) {
    m.id.Some? ==>
      var at := Find(workers, m.id.value);
      at != 0 && !Fresher(workers[at], m, direct)
  }

  lemma {:induction false} SettledByMerge(workers: seq<Worker>, m: Meta, direct: bool)
    requires workers != []
    ensures Settled(MergedWorkers(workers, m, direct), m, direct)
  {
    if m.id.Some? {
      var id, after := m.id.value, MergedWorkers(workers, m, direct);
      if Find(workers, id) == 0 {
        FindIs(after, id, |workers|);
      } else {
        MergeGrows(workers, m, direct);
        FindKept(workers, after, id);
      }
    }
  }

  lemma {:induction false} SettledKept(workers: seq<Worker>, m: Meta, direct: bool, other: Meta)
    requires Settled(workers, m, direct)
    ensures Settled(MergedWorkers(workers, other, false), m, direct)
  {
    if m.id.Some? {
      var after := MergedWorkers(workers, other, false);
      MergeGrows(workers, other, false);
      FindKept(workers, after, m.id.value);
      if other.id != m.id {
        MergeSpares(workers, other, false, Find(workers, m.id.value));
      }
    }
  }

  lemma {:induction false} SettledThrough(workers: seq<Worker>, heard: seq<Meta>, m: Meta, direct: bool)
    requires Settled(workers, m, direct)
    ensures Settled(MergedAll(workers, heard), m, direct)
  {
    if heard != [] {
      var front := heard[..|heard| - 1];
      SettledThrough(workers, front, m, direct);
      SettledKept(MergedAll(workers, front), m, direct, heard[|heard| - 1]);
    }
  }

  lemma {:induction false} AllSettled(workers: seq<Worker>, heard: seq<Meta>)
    requires workers != []
    ensures forall m :: m in heard ==> Settled(MergedAll(workers, heard), m, false)
  {
    hide Settled, MergedWorkers;
    if heard != [] {
      var front, last := heard[..|heard| - 1], heard[|heard| - 1];
      var before := MergedAll(workers, front);
      AllSettled(workers, front);
      MergeAllGrows(workers, front);
      SettledByMerge(before, last, false);
      forall m | m in heard
        ensures Settled(MergedAll(workers, heard), m, false)
      {
        if m != last {
          assert m in front;
          SettledKept(before, m, false, last);
        }
      }
    }
  }

  /**
    News within the first 1024 sections of an accepted packet arrives: the node it names, unless it is
    us, the sender or banned, has an entry afterwards, with an epoch no lower than the news has.
   */
  lemma {:induction false} NewsArrives(c: Config, banned: set<NodeId>, p: Packet, k: nat)
    requires c.workers != [] && Accepts(c, banned, p) && k < |p.sections| && k < 1024
    requires
      var id := p.sections[k].id;
      id.Some? && id != p.sender.id && id != LocalId(c) && id.value !in banned
    ensures
      var after, m := Processed(c, banned, p).workers, p.sections[k];
      exists i :: 1 <= i < |after| && after[i].id == m.id && after[i].epoch >= m.epoch
  {
    var m := p.sections[k];
    var heard := Heard(LocalId(c), banned, p.sender.id, Considered(p));
    assert Considered(p)[k] == m;
    HeardIs(LocalId(c), banned, p.sender.id, Considered(p), m);
    MergeGrows(c.workers, p.sender, true);
    var first := AfterSender(c, p).workers;
    assert first == MergedWorkers(c.workers, p.sender, true);
    hide Heard, MergedWorkers, AfterSender, FindFrom, MergedAll;
    AllSettled(first, heard);
  }

  lemma {:induction false} NothingNew(workers: seq<Worker>, heard: seq<Meta>)
    requires forall m :: m in heard ==> Settled(workers, m, false)
    ensures MergedAll(workers, heard) == workers && !AnyReports(workers, heard)
  {
    if heard != [] {
      NothingNew(workers, heard[..|heard| - 1]);
      assert heard[|heard| - 1] in heard;
    }
  }

  /** Merging a slot again, after the table has only grown, changes nothing. */
  lemma {:induction false} SlotSettles(
      before: seq<Worker>, after: seq<Worker>, cur: HashSlot, sender: nat, epoch: int, claims: bool, spoken: bool)
    requires Grown(before, after) && cur.worker < |before| && (claims ==> spoken)
    ensures var next := MergedSlot(before, cur, sender, epoch, claims, spoken);
            MergedSlot(after, next, sender, epoch, claims, spoken) == next
  {
  }

  ghost predicate InTable(c: Config) {
    forall s :: 0 <= s < |c.slots| ==> c.slots[s].worker < |c.workers|
  }

  lemma {:induction false} SlotsSettle(c: Config, workers: seq<Worker>, sender: nat, p: Packet)
    requires InTable(c) && Grown(c.workers, workers)
    ensures var next := Config(MergedSlots(c, sender, p), workers); MergedSlots(next, sender, p) == next.slots
  {
    var next := Config(MergedSlots(c, sender, p), workers);
    forall s | 0 <= s < |c.slots|
      ensures MergedSlots(next, sender, p)[s] == next.slots[s]
    {
      hide MergedSlot;
      SlotSettles(c.workers, workers, c.slots[s], sender, p.sender.epoch,
                  s in p.claimed, s in p.claimed || s in p.migrating);
    }
  }

  lemma {:induction false} SettledNoNews(workers: seq<Worker>, m: Meta, direct: bool)
    requires Settled(workers, m, direct)
    ensures MergedWorkers(workers, m, direct) == workers && !MergeReports(workers, m, direct)
  {
  }

  /** The sender's part of the packet is settled too, whatever else was heard since. */
  lemma {:induction false} AgainFromSender(c: Config, workers: seq<Worker>, p: Packet)
    requires p.sender.id.Some? && InTable(c) && c.workers != []
    requires Grown(MergedWorkers(c.workers, p.sender, true), workers) && Settled(workers, p.sender, true)
    ensures var once := AfterSender(c, p).(workers := workers); AfterSender(once, p) == once
  {
    var greeted := MergedWorkers(c.workers, p.sender, true);
    SettledNoNews(workers, p.sender, true);
    MergeGrows(c.workers, p.sender, true);
    SettledByMerge(c.workers, p.sender, true);
    FindKept(greeted, workers, p.sender.id.value);
    hide MergedWorkers, MergedSlots, FindFrom;
    SlotsSettle(Config(c.slots, greeted), workers, U16(Find(greeted, p.sender.id.value)), p);
  }

  /** Raising the local epoch unsettles nothing about other nodes. */
  lemma {:induction false} SettledWhenBumped(c: Config, epoch: int, m: Meta, direct: bool)
    requires |c.workers| > LOCAL && Settled(c.workers, m, direct) && m.id != LocalId(c) && epoch >= LocalEpoch(c)
    ensures Settled(WithEpoch(c, epoch).workers, m, direct)
  {
    if m.id.Some? {
      hide FindFrom;
      FindKept(c.workers, WithEpoch(c, epoch).workers, m.id.value);
    }
  }

  /** After a packet, and with the local epoch raised or not, the same packet is old news. */
  lemma {:induction false} OldNews(c: Config, banned: set<NodeId>, p: Packet, epoch: int)
    requires |c.workers| > LOCAL && InTable(c) && epoch >= LocalEpoch(c)
    ensures var next := WithEpoch(Processed(c, banned, p), epoch);
            Processed(next, banned, p) == next && !Reports(next, banned, p)
  {
    var once := Processed(c, banned, p);
    var next := WithEpoch(once, epoch);
    assert Accepts(c, banned, p) ==> once.slots == AfterSender(c, p).slots;
    hide Processed;
    ProcessedSparesLocal(c, banned, p, LOCAL);
    assert LocalId(next) == LocalId(c);
    if Accepts(c, banned, p) {
      NextSettled(c, banned, p, epoch);
      StillOld(c, banned, p, next);
    } else {
      assert once == c && Processed(next, banned, p) == next by { NotAccepted(c, next, banned, p); }
    }
  }

  lemma {:induction false} NotAccepted(c: Config, next: Config, banned: set<NodeId>, p: Packet)
    requires !Accepts(c, banned, p) && LocalId(next) == LocalId(c)
    ensures Processed(c, banned, p) == c && Processed(next, banned, p) == next
  {
  }

  lemma {:induction false} NextSettled(c: Config, banned: set<NodeId>, p: Packet, epoch: int)
    requires |c.workers| > LOCAL && Accepts(c, banned, p) && epoch >= LocalEpoch(c)
    ensures var next := WithEpoch(Processed(c, banned, p), epoch);
            && Grown(MergedWorkers(c.workers, p.sender, true), next.workers)
            && Settled(next.workers, p.sender, true)
            && forall m :: m in Heard(LocalId(c), banned, p.sender.id, Considered(p)) ==>
                 Settled(next.workers, m, false)
  {
    var once := Processed(c, banned, p);
    var heard := Heard(LocalId(c), banned, p.sender.id, Considered(p));
    var greeted := MergedWorkers(c.workers, p.sender, true);
    MergeGrows(c.workers, p.sender, true);
    SettledByMerge(c.workers, p.sender, true);
    SettledThrough(greeted, heard, p.sender, true);
    AllSettled(greeted, heard);
    MergeAllGrows(greeted, heard);
    HeardRelevant(LocalId(c), banned, p.sender.id, Considered(p));
    assert once.workers == MergedAll(greeted, heard);
    ProcessedSparesLocal(c, banned, p, LOCAL);
    hide Processed, MergedWorkers, MergedAll, Heard, Settled, FindFrom;
    SettledWhenBumped(once, epoch, p.sender, true);
    forall m | m in heard
      ensures Settled(WithEpoch(once, epoch).workers, m, false)
    {
      SettledWhenBumped(once, epoch, m, false);
    }
  }

  lemma {:induction false} StillOld(c: Config, banned: set<NodeId>, p: Packet, next: Config)
    requires Accepts(c, banned, p) && InTable(c) && c.workers != [] && LocalId(next) == LocalId(c)
    requires next.slots == AfterSender(c, p).slots
    requires Grown(MergedWorkers(c.workers, p.sender, true), next.workers) && Settled(next.workers, p.sender, true)
    requires forall m :: m in Heard(LocalId(c), banned, p.sender.id, Considered(p)) ==> Settled(next.workers, m, false)
    ensures Processed(next, banned, p) == next && !Reports(next, banned, p)
  {
    AgainFromSender(c, next.workers, p);
    hide MergedWorkers, MergedAll, MergedSlots, Heard, Settled, FindFrom, AfterSender;
    assert next == AfterSender(c, p).(workers := next.workers);
    NothingNew(next.workers, Heard(LocalId(c), banned, p.sender.id, Considered(p)));
    SettledNoNews(next.workers, p.sender, true);
  }

  /** A packet processed a second time changes nothing and reports no change. */
  lemma {:induction false} ProcessedTwice(c: Config, banned: set<NodeId>, p: Packet)
    requires |c.workers| > LOCAL && InTable(c)
    ensures var once := Processed(c, banned, p);
            Processed(once, banned, p) == once && !Reports(once, banned, p)
  {
    var once := Processed(c, banned, p);
    ProcessedSparesLocal(c, banned, p, LOCAL);
    OldNews(c, banned, p, LocalEpoch(c));
    hide Processed;
    assert WithEpoch(once, LocalEpoch(c)) == once;
  }

  /** Arbitration included: a packet merged a second time leaves the configuration as it is. */
  lemma {:induction false} GossipTwice(c: Config, banned: set<NodeId>, p: Packet)
    requires |c.workers| > LOCAL && InTable(c)
    ensures var once := GossipMerged(c, banned, p);
            GossipMerged(once, banned, p) == once && !Reports(once, banned, p) && !Collides(once, p)
  {
    var processed := Processed(c, banned, p);
    ProcessedSparesLocal(c, banned, p, LOCAL);
    hide Processed, Reports;
    if Collides(processed, p) {
      OldNews(c, banned, p, MaxEpoch(processed) + 1);
      assert LocalEpoch(Bumped(processed)) > LocalEpoch(processed);
    } else {
      ProcessedTwice(c, banned, p);
    }
  }

  // ----- Epochs over many packets ------------------------------------------

  /** The epoch a node is recorded with, if it is known. */
  function EpochOf(workers: seq<Worker>, id: NodeId): Option<int> {
    var at := Find(workers, id);
    if at == 0 then None else Some(workers[at].epoch)
  }

  function Larger(a: Option<int>, e: int): Option<int> {
    if a.None? then Some(e) else Some(Max(a.value, e))
  }

  /** The largest epoch in the news about a node, on top of what was known. */
  function Latest(start: Option<int>, news: seq<Meta>, id: NodeId): Option<int> {
    if news == [] then start
    else
      var before := Latest(start, news[..|news| - 1], id);
      if news[|news| - 1].id == Some(id) then Larger(before, news[|news| - 1].epoch) else before
  }

  /** It is a maximum: nothing about the node exceeds it, and something attains it. */
  lemma {:induction false} LatestIsMax(start: Option<int>, news: seq<Meta>, id: NodeId)
    ensures var r := Latest(start, news, id);
            && (start.Some? ==> r.Some? && start.value <= r.value)
            && (forall m :: m in news && m.id == Some(id) ==> r.Some? && m.epoch <= r.value)
            && (r.Some? ==> r == start || exists m :: m in news && m.id == Some(id) && m.epoch == r.value)
  {
    if news != [] {
      var front, last := news[..|news| - 1], news[|news| - 1];
      LatestIsMax(start, front, id);
      assert forall m :: m in news <==> m in front || m == last;
    }
  }

  lemma {:induction false} LatestConcat(start: Option<int>, a: seq<Meta>, b: seq<Meta>, id: NodeId)
    ensures Latest(start, a + b, id) == Latest(Latest(start, a, id), b, id)
    decreases |b|
  {
    if b == [] {
      assert a + b == a;
    } else {
      LatestConcat(start, a, b[..|b| - 1], id);
      assert (a + b)[..|a + b| - 1] == a + b[..|b| - 1];
    }
  }

  lemma {:induction false} MergeEpoch(workers: seq<Worker>, m: Meta, direct: bool, id: NodeId)
    requires workers != []
    ensures EpochOf(MergedWorkers(workers, m, direct), id)
            == if m.id == Some(id) then Larger(EpochOf(workers, id), m.epoch) else EpochOf(workers, id)
  {
    var after := MergedWorkers(workers, m, direct);
    MergeGrows(workers, m, direct);
    if Find(workers, id) != 0 {
      FindKept(workers, after, id);
      if m.id != Some(id) {
        MergeSpares(workers, m, direct, Find(workers, id));
      }
    } else if m.id == Some(id) {
      FindIs(after, id, |workers|);
    }
  }

  lemma {:induction false} MergeAllEpoch(workers: seq<Worker>, heard: seq<Meta>, id: NodeId)
    requires workers != []
    ensures EpochOf(MergedAll(workers, heard), id) == Latest(EpochOf(workers, id), heard, id)
  {
    hide EpochOf, MergedWorkers;
    if heard != [] {
      MergeAllEpoch(workers, heard[..|heard| - 1], id);
      MergeAllGrows(workers, heard[..|heard| - 1]);
      MergeEpoch(MergedAll(workers, heard[..|heard| - 1]), heard[|heard| - 1], false, id);
    }
  }

  /** Everything a packet is believed about. */
  function Believed(local: Option<NodeId>, banned: set<NodeId>, p: Packet): seq<Meta> {
    if p.sender.id.Some? && p.sender.id.value !in banned && local != p.sender.id
    then [p.sender] + Heard(local, banned, p.sender.id, Considered(p))
    else []
  }

  function BelievedAll(local: Option<NodeId>, banned: set<NodeId>, ps: seq<Packet>): seq<Meta> {
    if ps == [] then []
    else BelievedAll(local, banned, ps[..|ps| - 1]) + Believed(local, banned, ps[|ps| - 1])
  }

  function ProcessedAll(c: Config, banned: set<NodeId>, ps: seq<Packet>): Config {
    if ps == [] then c else Processed(ProcessedAll(c, banned, ps[..|ps| - 1]), banned, ps[|ps| - 1])
  }

  lemma {:induction false} ProcessedEpoch(c: Config, banned: set<NodeId>, p: Packet, id: NodeId)
    requires c.workers != []
    ensures EpochOf(Processed(c, banned, p).workers, id)
            == Latest(EpochOf(c.workers, id), Believed(LocalId(c), banned, p), id)
  {
    if Accepts(c, banned, p) {
      var heard := Heard(LocalId(c), banned, p.sender.id, Considered(p));
      MergeEpoch(c.workers, p.sender, true, id);
      MergeGrows(c.workers, p.sender, true);
      MergeAllEpoch(MergedWorkers(c.workers, p.sender, true), heard, id);
      hide EpochOf, MergedWorkers, MergedAll, Heard;
      LatestConcat(EpochOf(c.workers, id), [p.sender], heard, id);
      assert [p.sender][..0] == [];
    }
  }

  /**
    After any packets in any order, each node is recorded with the largest epoch
    that was known of it or believed about it, and the local entry is as it was.
   */
  lemma {:induction false} EpochsAreMaxima(c: Config, banned: set<NodeId>, ps: seq<Packet>, id: NodeId)
    requires |c.workers| > LOCAL
    ensures var after := ProcessedAll(c, banned, ps);
            && |after.workers| > LOCAL && after.workers[LOCAL] == c.workers[LOCAL]
            && EpochOf(after.workers, id) == Latest(EpochOf(c.workers, id), BelievedAll(LocalId(c), banned, ps), id)
  {
    hide EpochOf, Processed, Believed;
    if ps != [] {
      var front, last := ps[..|ps| - 1], ps[|ps| - 1];
      var before := ProcessedAll(c, banned, front);
      EpochsAreMaxima(c, banned, front, id);
      ProcessedEpoch(before, banned, last, id);
      ProcessedSparesLocal(before, banned, last, LOCAL);
      var local := LocalId(c);
      LatestConcat(EpochOf(c.workers, id), BelievedAll(local, banned, front), Believed(local, banned, last), id);
    }
  }
}
