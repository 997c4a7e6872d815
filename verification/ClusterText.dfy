/**
  The saved list of nodes.  Each node is printed with the ranges of slots it
  serves; the local node is also printed with a marker for every slot on the
  move.  A migrating slot is printed under the local node and an importing one
  under its source, and only the markers tell them from stable slots.
 */
module ClusterText {
  import opened Common
  import opened ClusterConfig
  import opened ClusterGossip
  import opened ClusterSafety

  datatype Token =
    | Range(lo: nat, hi: nat)
    | MovingTo(slot: nat, node: NodeId)
    | MovingFrom(slot: nat, node: NodeId)

  datatype NodeText = NodeText(
    id: Option<NodeId>, address: string, port: nat, role: Role, master: Option<NodeId>, epoch: int,
    hostname: Option<string>, tokens: seq<Token>)

  datatype FileText = FileText(currentEpoch: int, myself: Option<NodeId>, nodes: seq<NodeText>)

  // ----- Printing ----------------------------------------------------------

  /** Is the slot printed under the worker? */
  predicate PrintedUnder(s: HashSlot, worker: nat) {
    s.Effective() == worker && s.state != Offline
  }

  predicate Covers(t: Token, slot: nat) {
    t.Range? && t.lo <= slot <= t.hi
  }

  ghost predicate AnyCovers(tokens: seq<Token>, slot: nat) {
    exists k :: 0 <= k < |tokens| && Covers(tokens[k], slot)
  }

  /** Ranges in order, with a gap between one and the next. */
  ghost predicate Separate(tokens: seq<Token>) {
    && (forall k :: 0 <= k < |tokens| ==> tokens[k].Range? && tokens[k].lo <= tokens[k].hi < SLOTS)
    && (forall k :: 0 <= k < |tokens| - 1 ==> tokens[k].hi + 1 < tokens[k + 1].lo)
  }

  const NO_START := 65535

  lemma {:induction false} CoversMore(tokens: seq<Token>, t: Token, slot: nat)
    ensures AnyCovers(tokens + [t], slot) <==> AnyCovers(tokens, slot) || Covers(t, slot)
  {
    var more := tokens + [t];
    if AnyCovers(tokens, slot) {
      var k :| 0 <= k < |tokens| && Covers(tokens[k], slot);
      assert Covers(more[k], slot);
    }
    if Covers(t, slot) {
      assert Covers(more[|tokens|], slot);
    }
  }

  lemma {:induction false} CoversMoreAll(tokens: seq<Token>, t: Token)
    ensures forall s: nat :: AnyCovers(tokens + [t], s) <==> AnyCovers(tokens, s) || Covers(t, s)
  {
    forall s: nat
      ensures AnyCovers(tokens + [t], s) <==> AnyCovers(tokens, s) || Covers(t, s)
    {
      CoversMore(tokens, t, s);
    }
  }

  /** The slots printed under a worker, as maximal ranges. */
  method AppendSlotRanges(slots: seq<HashSlot>, worker: nat) returns (r: seq<Token>)
    requires |slots| == SLOTS
    ensures Separate(r)
    ensures forall s: nat :: AnyCovers(r, s) <==> s < SLOTS && PrintedUnder(slots[s], worker)
  {
    hide AnyCovers;
    r := [];
    CoversNone();
    var start: nat, end: nat := NO_START, 0;
    for i := 0 to SLOTS
      invariant Separate(r)
      invariant start != NO_START ==> start <= end == i - 1
      invariant |r| > 0 ==> r[|r| - 1].hi + 1 < if start == NO_START then i else start
      invariant forall s: nat ::
                  (AnyCovers(r, s) || (start != NO_START && start <= s <= end)) <==>
                  s < i && PrintedUnder(slots[s], worker)
    {
      if PrintedUnder(slots[i], worker) {
        if start == NO_START {
          start := i;
        }
        end := i;
      } else if start != NO_START {
        CoversMoreAll(r, Range(start, end));
        r := r + [Range(start, end)];
        start := NO_START;
      }
    }
    if start != NO_START {
      CoversMoreAll(r, Range(start, end));
      r := r + [Range(start, end)];
    }
  }

  lemma {:induction false} CoversNone()
    ensures forall s: nat :: !AnyCovers([], s)
  {
  }

  /** The marker of a slot on the move; one whose other end has no identifier has none. */
  function MarkerOf(c: Config, slot: nat): Option<Token>
    requires slot < |c.slots|
  {
    var s := c.slots[slot];
    if s.worker >= |c.workers| || c.workers[s.worker].id.None? then None
    else if s.state == Migrating then Some(MovingTo(slot, c.workers[s.worker].id.value))
    else if s.state == Importing then Some(MovingFrom(slot, c.workers[s.worker].id.value))
    else None
  }

  /** A slot on its way out is marked with its target, one on its way in with its source, no other. */
  lemma {:induction false} MarkersMean(c: Config, slot: nat)
    requires Inv(c) && slot < SLOTS
    ensures
      var s, m := c.slots[slot], MarkerOf(c, slot);
      && (m.Some? <==> s.state == Migrating || s.state == Importing)
      && (m.Some? ==>
            && (m.value.MovingTo? <==> s.state == Migrating) && (m.value.MovingFrom? <==> s.state == Importing)
            && m.value.slot == slot && c.workers[s.worker].id == Some(m.value.node))
  {
    assert SlotOk(c.workers, c.slots[slot]);
  }

  method AppendSpecialStates(c: Config) returns (r: seq<Token>)
    requires |c.slots| == SLOTS
    ensures forall t :: t in r ==> !t.Range?
    ensures forall t :: t in r && !t.Range? ==> t.slot < SLOTS && MarkerOf(c, t.slot) == Some(t)
    ensures forall s :: 0 <= s < SLOTS && MarkerOf(c, s).Some? ==> MarkerOf(c, s).value in r
  {
    hide MarkerOf;
    r := [];
    for i := 0 to SLOTS
      invariant forall t :: t in r ==> !t.Range?
      invariant forall t :: t in r && !t.Range? ==> t.slot < i && MarkerOf(c, t.slot) == Some(t)
      invariant forall s :: 0 <= s < i && MarkerOf(c, s).Some? ==> MarkerOf(c, s).value in r
    {
      var marker := MarkerOf(c, i);
      MarkerNamesSlot(c, i);
      if marker.Some? {
        r := r + [marker.value];
      }
    }
  }

  lemma {:induction false} MarkerNamesSlot(c: Config, slot: nat)
    requires slot < |c.slots|
    ensures MarkerOf(c, slot).Some? ==> !MarkerOf(c, slot).value.Range? && MarkerOf(c, slot).value.slot == slot
  {
  }

  // ----- Reading back ------------------------------------------------------

  /** A marker names the other end of its slot; an unknown name stands for nobody. */
  function Marked(s: HashSlot, slot: nat, workers: seq<Worker>, t: Token): HashSlot {
    match t
    case Range(_, _) => s
    case MovingTo(at, node) => if at == slot then HashSlot(U16(Find(workers, node)), Migrating) else s
    case MovingFrom(at, node) => if at == slot then HashSlot(U16(Find(workers, node)), Importing) else s
  }

  /** First pass over a node's tokens: its ranges. */
  method PaintRanges(slots: array<HashSlot>, worker: nat, tokens: seq<Token>)
    requires slots.Length == SLOTS
    modifies slots
    ensures forall s :: 0 <= s < SLOTS ==>
              slots[s] == if AnyCovers(tokens, s) then HashSlot(worker, Stable) else old(slots[s])
  {
    hide AnyCovers;
    CoversNone();
    for k := 0 to |tokens|
      invariant forall s :: 0 <= s < SLOTS ==>
                  slots[s] == if AnyCovers(tokens[..k], s) then HashSlot(worker, Stable) else old(slots[s])
    {
      var t := tokens[k];
      CoversMoreAll(tokens[..k], t);
      assert tokens[..k + 1] == tokens[..k] + [t];
      if t.Range? && t.lo <= t.hi {
        PaintRange(slots, worker, t.lo, t.hi);
      }
    }
    assert tokens[..|tokens|] == tokens;
  }

  method PaintRange(slots: array<HashSlot>, worker: nat, lo: nat, hi: nat)
    requires slots.Length == SLOTS && lo <= hi
    modifies slots
    ensures forall s :: 0 <= s < SLOTS ==>
              slots[s] == if lo <= s <= hi then HashSlot(worker, Stable) else old(slots[s])
  {
    for slot := lo to hi + 1
      invariant forall s :: 0 <= s < SLOTS ==>
                  slots[s] == if lo <= s < slot then HashSlot(worker, Stable) else old(slots[s])
    {
      if slot < SLOTS {
        slots[slot] := HashSlot(worker, Stable);
      }
    }
  }

  /** What the markers leave of a slot. */
  ghost function MarkedAll(s: HashSlot, slot: nat, workers: seq<Worker>, tokens: seq<Token>): HashSlot {
    if tokens == [] then s
    else Marked(MarkedAll(s, slot, workers, tokens[..|tokens| - 1]), slot, workers, tokens[|tokens| - 1])
  }

  /** Second pass over a node's tokens: its markers, which override the ranges. */
  method PlaceMarkers(slots: array<HashSlot>, workers: seq<Worker>, tokens: seq<Token>)
    requires slots.Length == SLOTS
    modifies slots
    ensures forall s :: 0 <= s < SLOTS ==> slots[s] == MarkedAll(old(slots[s]), s, workers, tokens)
  {
    for k := 0 to |tokens|
      invariant forall s :: 0 <= s < SLOTS ==> slots[s] == MarkedAll(old(slots[s]), s, workers, tokens[..k])
    {
      var t := tokens[k];
      assert tokens[..k + 1][..k] == tokens[..k];
      if t.MovingTo? && t.slot < SLOTS {
        slots[t.slot] := HashSlot(U16(Find(workers, t.node)), Migrating);
      } else if t.MovingFrom? && t.slot < SLOTS {
        slots[t.slot] := HashSlot(U16(Find(workers, t.node)), Importing);
      }
    }
    assert tokens[..|tokens|] == tokens;
  }

  /** A slot with no marker keeps its value, and one whose markers agree takes theirs. */
  lemma {:induction false} MarkersAgree(
      s: HashSlot, slot: nat, workers: seq<Worker>, tokens: seq<Token>, marker: Option<Token>)
    requires forall t :: t in tokens && !t.Range? && t.slot == slot ==> marker == Some(t)
    ensures (forall t :: t in tokens ==> t.Range? || t.slot != slot) ==> MarkedAll(s, slot, workers, tokens) == s
    ensures marker.Some? && marker.value in tokens && !marker.value.Range? && marker.value.slot == slot ==>
              MarkedAll(s, slot, workers, tokens) == Marked(s, slot, workers, marker.value)
    decreases |tokens|
  {
    if tokens != [] {
      var front, last := tokens[..|tokens| - 1], tokens[|tokens| - 1];
      assert tokens == front + [last];
      assert last in tokens;
      MarkersAgree(s, slot, workers, front, marker);
    }
  }

  // ----- The whole file ----------------------------------------------------

  /** What is printed for one worker. */
  ghost predicate TokensFor(c: Config, worker: nat, tokens: seq<Token>)
    requires |c.slots| == SLOTS
  {
    && (forall s: nat :: AnyCovers(tokens, s) <==> s < SLOTS && PrintedUnder(c.slots[s], U16(worker)))
    && (forall t :: t in tokens && !t.Range? ==> worker == LOCAL && t.slot < SLOTS && MarkerOf(c, t.slot) == Some(t))
    && (worker == LOCAL ==>
          forall s :: 0 <= s < SLOTS && MarkerOf(c, s).Some? ==> MarkerOf(c, s).value in tokens)
  }

  /** The node carries the worker's lasting fields and its slots. */
  ghost predicate Describes(c: Config, worker: nat, n: NodeText)
    requires |c.slots| == SLOTS && worker < |c.workers|
  {
    && Restored(n) == Lasting(c.workers[worker])
    && TokensFor(c, worker, n.tokens)
  }

  /** A worker without what only the running node knows. */
  function Lasting(w: Worker): Worker {
    w.(offset := 0, connected := true, pfail := false, failed := false, handshake := false)
  }

  function Restored(n: NodeText): Worker {
    NOBODY.(id := n.id, address := n.address, port := n.port, epoch := n.epoch, role := n.role,
            replicaOf := n.master, hostname := n.hostname)
  }

  ghost predicate FileFor(c: Config, f: FileText)
    requires |c.slots| == SLOTS
  {
    && f.currentEpoch == LocalEpoch(c) && f.myself == LocalId(c) && |f.nodes| + 1 == |c.workers|
    && forall k :: 0 <= k < |f.nodes| ==> Describes(c, k + 1, f.nodes[k])
  }

  lemma {:induction false} CoversConcat(a: seq<Token>, b: seq<Token>)
    requires forall t :: t in b ==> !t.Range?
    ensures forall s: nat :: AnyCovers(a + b, s) <==> AnyCovers(a, s)
  {
    forall s: nat
      ensures AnyCovers(a + b, s) <==> AnyCovers(a, s)
    {
      if AnyCovers(a, s) {
        var k :| 0 <= k < |a| && Covers(a[k], s);
        assert Covers((a + b)[k], s);
      }
    }
  }

  method PrintTokens(c: Config, worker: nat) returns (tokens: seq<Token>)
    requires |c.slots| == SLOTS
    ensures TokensFor(c, worker, tokens)
  {
    hide AnyCovers, MarkerOf;
    tokens := AppendSlotRanges(c.slots, U16(worker));
    if worker == LOCAL {
      var markers := AppendSpecialStates(c);
      CoversConcat(tokens, markers);
      tokens := tokens + markers;
    }
  }

  method Export(c: Config) returns (f: FileText)
    requires |c.slots| == SLOTS && |c.workers| >= 1
    ensures FileFor(c, f)
  {
    hide TokensFor;
    var nodes: seq<NodeText> := [];
    for i := 1 to |c.workers|
      invariant |nodes| + 1 == i && forall k :: 0 <= k < |nodes| ==> Describes(c, k + 1, nodes[k])
    {
      var w := c.workers[i];
      var tokens := PrintTokens(c, i);
      nodes := nodes + [NodeText(w.id, w.address, w.port, w.role, w.replicaOf, w.epoch, w.hostname, tokens)];
    }
    f := FileText(LocalEpoch(c), LocalId(c), nodes);
  }

  /** Which node of the file is the local one: the first with the wanted name, or the first of all. */
  function MyselfAt(nodes: seq<NodeText>, myself: Option<NodeId>, from: nat): (r: nat)
    requires from <= |nodes| && nodes != []
    ensures r < |nodes|
    decreases |nodes| - from
  {
    if from == |nodes| || myself.None? then 0
    else if nodes[from].id == myself then from
    else MyselfAt(nodes, myself, from + 1)
  }

  /** The nodes with the local one in front. */
  function LocalFirst(nodes: seq<NodeText>, at: nat): (r: seq<NodeText>)
    requires at < |nodes|
    ensures |r| == |nodes|
  {
    [nodes[at]] + nodes[..at] + nodes[at + 1..]
  }

  ghost function RestoredAll(nodes: seq<NodeText>): (r: seq<Worker>)
    ensures |r| == |nodes| + 1 && r[0] == NOBODY
    ensures forall i :: 1 <= i <= |nodes| ==> r[i] == Restored(nodes[i - 1])
  {
    [NOBODY] + seq(|nodes|, i requires 0 <= i < |nodes| => Restored(nodes[i]))
  }

  /** A slot after the ranges of the first `n` nodes. */
  ghost function PaintedBy(nodes: seq<NodeText>, slot: nat, n: nat): HashSlot
    requires n <= |nodes|
  {
    if n == 0 then UNCLAIMED
    else if AnyCovers(nodes[n - 1].tokens, slot) then HashSlot(U16(n), Stable)
    else PaintedBy(nodes, slot, n - 1)
  }

  /** A slot after all ranges and the markers of the first `n` nodes. */
  ghost function MarkedBy(nodes: seq<NodeText>, workers: seq<Worker>, slot: nat, n: nat): HashSlot
    requires n <= |nodes|
  {
    if n == 0 then PaintedBy(nodes, slot, |nodes|)
    else MarkedAll(MarkedBy(nodes, workers, slot, n - 1), slot, workers, nodes[n - 1].tokens)
  }

  /** A local node saved without an epoch takes the file's. */
  function LocalRestored(n: NodeText, currentEpoch: int): Worker {
    if currentEpoch > 0 && n.epoch == 0 then Restored(n).(epoch := currentEpoch) else Restored(n)
  }

  ghost function Imported(f: FileText, myself: Option<NodeId>): Option<Config> {
    if f.nodes == [] then None
    else
      var at := MyselfAt(f.nodes, if myself.Some? then myself else f.myself, 0);
      var nodes := LocalFirst(f.nodes, at);
      var workers := RestoredAll(nodes)[LOCAL := LocalRestored(nodes[0], f.currentEpoch)];
      Some(Config(seq(SLOTS, s requires s >= 0 => MarkedBy(nodes, workers, s, |nodes|)), workers))
  }

  /** Saving keeps all that gossip tells of a node, and nothing of its links and faults. */
  lemma {:induction false} LastingKeeps(w: Worker)
    ensures MetaOf(Lasting(w)) == MetaOf(w) && Lasting(w).offset == 0 && Lasting(w).connected
    ensures !Lasting(w).pfail && !Lasting(w).failed && !Lasting(w).handshake
  {
  }

  /**
    The local node of a file is the first with the name asked for, or saved as its own, or else the
    first of all; it comes first in the table, the others follow in their order, and it takes the
    file's epoch if it was saved without one.
   */
  lemma {:induction false} LocalChosen(f: FileText, myself: Option<NodeId>) returns (at: nat)
    requires f.nodes != []
    ensures at < |f.nodes|
    ensures
      var wanted := if myself.Some? then myself else f.myself;
      if wanted.Some? && exists i :: 0 <= i < |f.nodes| && f.nodes[i].id == wanted
      then f.nodes[at].id == wanted && forall i :: 0 <= i < at ==> f.nodes[i].id != wanted
      else at == 0
    ensures Imported(f, myself).Some?
    ensures
      var workers, me := Imported(f, myself).value.workers, f.nodes[at];
      && |workers| == |f.nodes| + 1 && workers[0] == NOBODY
      && (forall i :: 0 <= i < at ==> workers[i + 2] == Restored(f.nodes[i]))
      && (forall i :: at < i < |f.nodes| ==> workers[i + 1] == Restored(f.nodes[i]))
      && workers[LOCAL] ==
         Restored(me).(epoch := if me.epoch == 0 && f.currentEpoch > 0 then f.currentEpoch else me.epoch)
  {
    hide MyselfAt, MarkedBy, LocalFirst, RestoredAll, LocalRestored, Restored;
    at := MyselfAt(f.nodes, if myself.Some? then myself else f.myself, 0);
    MyselfIs(f.nodes, if myself.Some? then myself else f.myself, 0);
    TableFrom(f.nodes, at, f.currentEpoch);
  }

  lemma {:induction false} TableFrom(nodes: seq<NodeText>, at: nat, currentEpoch: int)
    requires at < |nodes|
    ensures
      var turned, me := LocalFirst(nodes, at), nodes[at];
      var workers := RestoredAll(turned)[LOCAL := LocalRestored(turned[0], currentEpoch)];
      && |workers| == |nodes| + 1 && workers[0] == NOBODY
      && (forall i :: 0 <= i < at ==> workers[i + 2] == Restored(nodes[i]))
      && (forall i :: at < i < |nodes| ==> workers[i + 1] == Restored(nodes[i]))
      && workers[LOCAL] ==
         Restored(me).(epoch := if me.epoch == 0 && currentEpoch > 0 then currentEpoch else me.epoch)
  {
    var turned := LocalFirst(nodes, at);
    assert turned[0] == nodes[at];
    assert forall i :: 0 <= i < at ==> turned[i + 1] == nodes[i];
    assert forall i :: at < i < |nodes| ==> turned[i] == nodes[i];
    hide LocalFirst, RestoredAll;
  }

  lemma {:induction false} MyselfIs(nodes: seq<NodeText>, myself: Option<NodeId>, from: nat)
    requires from <= |nodes| && nodes != []
    ensures
      var r := MyselfAt(nodes, myself, from);
      if myself.Some? && exists i :: from <= i < |nodes| && nodes[i].id == myself
      then r >= from && nodes[r].id == myself && forall i :: from <= i < r ==> nodes[i].id != myself
      else r == 0
    decreases |nodes| - from
  {
    if from < |nodes| && myself.Some? && nodes[from].id != myself {
      MyselfIs(nodes, myself, from + 1);
    }
  }

  method FindMyself(nodes: seq<NodeText>, myself: Option<NodeId>) returns (r: nat)
    requires nodes != []
    ensures r == MyselfAt(nodes, myself, 0)
  {
    if myself.None? {
      return 0;
    }
    for i := 0 to |nodes|
      invariant MyselfAt(nodes, myself, 0) == MyselfAt(nodes, myself, i)
    {
      if nodes[i].id == myself {
        return i;
      }
    }
    r := 0;
  }

  method Import(f: FileText, myself: Option<NodeId>) returns (r: Option<Config>)
    ensures r == Imported(f, myself)
  {
    hide AnyCovers, MarkedAll;
    if f.nodes == [] {
      return None;
    }
    var at := FindMyself(f.nodes, if myself.Some? then myself else f.myself);
    var nodes := LocalFirst(f.nodes, at);
    var workers := [NOBODY, LocalRestored(nodes[0], f.currentEpoch)];
    for i := 1 to |nodes|
      invariant |workers| == i + 1 && workers[..2] == [NOBODY, LocalRestored(nodes[0], f.currentEpoch)]
      invariant forall k :: 2 <= k <= i ==> workers[k] == Restored(nodes[k - 1])
    {
      workers := workers + [Restored(nodes[i])];
    }
    assert workers == RestoredAll(nodes)[LOCAL := LocalRestored(nodes[0], f.currentEpoch)];
    var slots := RestoreSlots(nodes, workers);
    assert slots[..] == Imported(f, myself).value.slots;
    r := Some(Config(slots[..], workers));
  }

  method RestoreSlots(nodes: seq<NodeText>, workers: seq<Worker>) returns (slots: array<HashSlot>)
    ensures fresh(slots) && slots.Length == SLOTS
    ensures forall s :: 0 <= s < SLOTS ==> slots[s] == MarkedBy(nodes, workers, s, |nodes|)
  {
    hide AnyCovers, MarkedAll;
    slots := new HashSlot[SLOTS](_ => UNCLAIMED);
    for n := 0 to |nodes|
      invariant forall s :: 0 <= s < SLOTS ==> slots[s] == PaintedBy(nodes, s, n)
    {
      PaintRanges(slots, U16(n + 1), nodes[n].tokens);
    }
    for n := 0 to |nodes|
      invariant forall s :: 0 <= s < SLOTS ==> slots[s] == MarkedBy(nodes, workers, s, n)
    {
      PlaceMarkers(slots, workers, nodes[n].tokens);
    }
  }

  // ----- Round trip --------------------------------------------------------

  lemma {:induction false} FindSameIds(a: seq<Worker>, b: seq<Worker>, id: NodeId)
    requires |a| == |b| && forall i :: 1 <= i < |a| ==> a[i].id == b[i].id
    ensures Find(a, id) == Find(b, id)
  {
    hide FindFrom;
    if Find(a, id) != 0 {
      FindIs(b, id, Find(a, id));
    }
  }

  /** The ranges alone give every slot its owner, on the move or not. */
  lemma {:induction false} PaintedRight(c: Config, nodes: seq<NodeText>, slot: nat, n: nat)
    requires Inv(c) && Fits(c) && slot < SLOTS && n <= |nodes| == |c.workers| - 1
    requires forall k :: 0 <= k < |nodes| ==> TokensFor(c, k + 1, nodes[k].tokens)
    ensures var owner := c.slots[slot].Effective();
            PaintedBy(nodes, slot, n) ==
              if c.slots[slot].state != Offline && owner <= n then HashSlot(owner, Stable) else UNCLAIMED
    decreases n
  {
    assert SlotOk(c.workers, c.slots[slot]);
    if n > 0 {
      PaintedRight(c, nodes, slot, n - 1);
      assert TokensFor(c, n, nodes[n - 1].tokens);
      hide Inv, AnyCovers, MarkerOf;
    }
  }

  /** The local node's markers then put back the slots on the move; no other node has markers. */
  lemma {:induction false} MarkedRight(c: Config, nodes: seq<NodeText>, workers: seq<Worker>, slot: nat, n: nat)
    requires Inv(c) && Fits(c) && slot < SLOTS && 1 <= n <= |nodes| == |c.workers| - 1
    requires forall k :: 0 <= k < |nodes| ==> TokensFor(c, k + 1, nodes[k].tokens)
    requires |workers| == |c.workers| && forall i :: 1 <= i < |workers| ==> workers[i].id == c.workers[i].id
    ensures MarkedBy(nodes, workers, slot, n) == c.slots[slot]
    decreases n
  {
    var tokens := nodes[n - 1].tokens;
    assert TokensFor(c, n, tokens);
    if n > 1 {
      MarkedRight(c, nodes, workers, slot, n - 1);
      MarkersAgree(c.slots[slot], slot, workers, tokens, None);
    } else {
      PaintedRight(c, nodes, slot, |nodes|);
      LocalMarkers(c, workers, tokens, slot);
    }
  }

  lemma {:induction false} LocalMarkers(c: Config, workers: seq<Worker>, tokens: seq<Token>, slot: nat)
    requires Inv(c) && Fits(c) && slot < SLOTS && TokensFor(c, LOCAL, tokens)
    requires |workers| == |c.workers| && forall i :: 1 <= i < |workers| ==> workers[i].id == c.workers[i].id
    ensures var s := c.slots[slot];
            var painted := if s.state != Offline then HashSlot(s.Effective(), Stable) else UNCLAIMED;
            MarkedAll(painted, slot, workers, tokens) == s
  {
    var s := c.slots[slot];
    var painted := if s.state != Offline then HashSlot(s.Effective(), Stable) else UNCLAIMED;
    assert SlotOk(c.workers, s);
    MarkersAgree(painted, slot, workers, tokens, MarkerOf(c, slot));
    MarkerNamesSlot(c, slot);
    hide AnyCovers, MarkedAll, FindFrom;
    if MarkerOf(c, slot).Some? {
      var id := c.workers[s.worker].id.value;
      FindUnique(c.workers, id, s.worker);
      FindSameIds(c.workers, workers, id);
    }
  }

  /** A file printed from a configuration rebuilds its slot table and its workers. */
  lemma {:induction false} FileRoundTrip(c: Config, f: FileText)
    requires Inv(c) && Fits(c) && FileFor(c, f)
    ensures var r := Imported(f, None);
            && r.Some? && r.value.slots == c.slots && |r.value.workers| == |c.workers|
            && r.value.workers[0] == NOBODY
            && forall i :: 1 <= i < |c.workers| ==> r.value.workers[i] == Lasting(c.workers[i])
  {
    ImportedParts(c, f);
    var r := Imported(f, None).value;
    hide Imported, FileFor, Describes, TokensFor, MarkedBy, Inv;
    forall s | 0 <= s < SLOTS
      ensures r.slots[s] == c.slots[s]
    {
      MarkedRight(c, f.nodes, r.workers, s, |f.nodes|);
    }
  }

  lemma {:induction false} ImportedParts(c: Config, f: FileText)
    requires Inv(c) && Fits(c) && FileFor(c, f)
    ensures forall k :: 0 <= k < |f.nodes| ==> TokensFor(c, k + 1, f.nodes[k].tokens)
    ensures var r := Imported(f, None);
            && r.Some? && |r.value.workers| == |c.workers| == |f.nodes| + 1 && r.value.workers[0] == NOBODY
            && (forall i :: 1 <= i < |c.workers| ==> r.value.workers[i] == Lasting(c.workers[i]))
            && |r.value.slots| == SLOTS
            && forall s :: 0 <= s < SLOTS ==> r.value.slots[s] == MarkedBy(f.nodes, r.value.workers, s, |f.nodes|)
  {
    var nodes := f.nodes;
    forall k | 0 <= k < |nodes|
      ensures TokensFor(c, k + 1, nodes[k].tokens) && Restored(nodes[k]) == Lasting(c.workers[k + 1])
    {
      assert Describes(c, k + 1, nodes[k]);
    }
    assert nodes[0].id == LocalId(c) == f.myself;
    assert LocalFirst(nodes, 0) == nodes;
    hide TokensFor, MarkedBy, Describes;
  }

  /** Saving and loading a configuration that some run has reached. */
  method SaveAndLoad(c: Config) returns (r: Config)
    requires Inv(c) && Fits(c)
    ensures r.slots == c.slots && |r.workers| == |c.workers|
    ensures forall i :: 1 <= i < |c.workers| ==> r.workers[i] == Lasting(c.workers[i])
  {
    var f := Export(c);
    FileRoundTrip(c, f);
    var loaded := Import(f, None);
    r := loaded.value;
  }
}
