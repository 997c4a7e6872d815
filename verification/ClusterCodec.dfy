/** The run-length payload of the configuration: its slots as runs of equal entries, and its workers. */
module ClusterCodec {
  import opened Common
  import opened ClusterConfig
  import opened ClusterGossip

  const VERSION := 1

  datatype Segment = Segment(count: nat, slot: HashSlot)

  datatype Payload = Payload(version: nat, segments: seq<Segment>, workers: seq<Worker>)

  datatype LoadError = BadVersion | BadWorkerCount | BadOwner

  datatype Loaded = Ok(config: Config) | Err(error: LoadError)

  function Repeat(s: HashSlot, n: nat): (r: seq<HashSlot>)
    ensures |r| == n && forall i :: 0 <= i < n ==> r[i] == s
  {
    seq(n, _ => s)
  }

  ghost function Expand(segments: seq<Segment>): seq<HashSlot> {
    if segments == [] then []
    else Expand(segments[..|segments| - 1]) + Repeat(segments[|segments| - 1].slot, segments[|segments| - 1].count)
  }

  lemma {:induction false} ExpandMore(segments: seq<Segment>, seg: Segment)
    ensures Expand(segments + [seg]) == Expand(segments) + Repeat(seg.slot, seg.count)
  {
    assert (segments + [seg])[..|segments|] == segments;
  }

  /** Cuts or pads to the size of the slot table. */
  ghost function Fitted(slots: seq<HashSlot>): (r: seq<HashSlot>)
    ensures |r| == SLOTS
  {
    seq(SLOTS, i => if 0 <= i < |slots| then slots[i] else UNCLAIMED)
  }

  ghost predicate OwnersKnown(segments: seq<Segment>, workers: nat) {
    forall i :: 0 <= i < |segments| ==> segments[i].slot.worker < workers
  }

  ghost function Decoded(p: Payload): Loaded {
    if p.version != VERSION then Err(BadVersion)
    else if |p.workers| == 0 || |p.workers| > SLOTS then Err(BadWorkerCount)
    else if !OwnersKnown(p.segments, |p.workers|) then Err(BadOwner)
    else Ok(Config(Fitted(Expand(p.segments)), p.workers))
  }

  /** A payload is refused for its version, its number of workers, or an owner it does not list, in this order. */
  lemma {:induction false} LoadChecks(p: Payload)
    ensures Decoded(p) == Err(BadVersion) <==> p.version != 1
    ensures Decoded(p) == Err(BadWorkerCount) <==> p.version == 1 && (p.workers == [] || |p.workers| > 16384)
    ensures Decoded(p) == Err(BadOwner) <==>
              && p.version == 1 && 1 <= |p.workers| <= 16384
              && exists i :: 0 <= i < |p.segments| && p.segments[i].slot.worker >= |p.workers|
    ensures Decoded(p).Ok? ==> Decoded(p).config.workers == p.workers && |Decoded(p).config.slots| == 16384
  {
  }

  /** Collapses equal neighbours; the segments are maximal and their counts fit in sixteen bits. */
  method ToPayload(c: Config) returns (p: Payload)
    requires |c.slots| == SLOTS
    ensures p.version == VERSION && p.workers == c.workers && Expand(p.segments) == c.slots
    ensures forall i :: 0 <= i < |p.segments| ==> 1 <= p.segments[i].count <= SLOTS
    ensures forall i :: 0 <= i < |p.segments| - 1 ==> p.segments[i].slot != p.segments[i + 1].slot
  {
    hide Expand;
    var segments: seq<Segment> := [];
    var count, cur := 1, c.slots[0];
    ExpandNone();
    assert c.slots[..1] == Repeat(cur, 1);
    for i := 1 to SLOTS
      invariant 1 <= count <= i && Expand(segments) + Repeat(cur, count) == c.slots[..i]
      invariant forall k :: 0 <= k < |segments| ==> 1 <= segments[k].count <= SLOTS
      invariant forall k :: 0 <= k < |segments| - 1 ==> segments[k].slot != segments[k + 1].slot
      invariant |segments| > 0 ==> segments[|segments| - 1].slot != cur
    {
      var slot := c.slots[i];
      assert c.slots[..i + 1] == c.slots[..i] + [slot];
      if slot != cur {
        ExpandMore(segments, Segment(count, cur));
        segments := segments + [Segment(count, cur)];
        count, cur := 1, slot;
        assert Repeat(slot, 1) == [slot];
      } else {
        assert Repeat(cur, count + 1) == Repeat(cur, count) + [slot];
        count := count + 1;
      }
    }
    ExpandMore(segments, Segment(count, cur));
    assert c.slots[..SLOTS] == c.slots;
    p := Payload(VERSION, segments + [Segment(count, cur)], c.workers);
  }

  lemma {:induction false} ExpandNone()
    ensures Expand([]) == []
  {
  }

  /** Fills the slot table segment by segment. */
  method FromPayload(p: Payload) returns (r: Loaded)
    ensures r == Decoded(p)
  {
    hide Expand;
    if p.version != VERSION {
      return Err(BadVersion);
    }
    var n := |p.workers|;
    if n == 0 || n > SLOTS {
      return Err(BadWorkerCount);
    }
    var slots := new HashSlot[SLOTS](_ => UNCLAIMED);
    var offset := 0;
    ExpandNone();
    for i := 0 to |p.segments|
      invariant OwnersKnown(p.segments[..i], n)
      invariant offset == Min(|Expand(p.segments[..i])|, SLOTS)
      invariant slots[..] == Fitted(Expand(p.segments[..i]))
    {
      var seg := p.segments[i];
      ghost var before := Expand(p.segments[..i]);
      assert p.segments[..i + 1] == p.segments[..i] + [seg];
      ExpandMore(p.segments[..i], seg);
      if seg.slot.worker >= n {
        assert !OwnersKnown(p.segments, n);
        return Err(BadOwner);
      }
      var end := Min(offset + seg.count, SLOTS);
      if offset < end {
        Fill(slots, offset, end, seg.slot);
        offset := end;
      }
      assert forall s :: 0 <= s < SLOTS ==> slots[s] == Fitted(before + Repeat(seg.slot, seg.count))[s];
    }
    assert p.segments[..|p.segments|] == p.segments;
    r := Ok(Config(slots[..], p.workers));
  }

  method Fill(slots: array<HashSlot>, start: nat, end: nat, s: HashSlot)
    requires start <= end <= slots.Length
    modifies slots
    ensures forall i :: 0 <= i < slots.Length ==> slots[i] == if start <= i < end then s else old(slots[i])
  {
    for k := start to end
      invariant forall i :: 0 <= i < slots.Length ==> slots[i] == if start <= i < k then s else old(slots[i])
    {
      slots[k] := s;
    }
  }

  /**
    A payload made from a configuration loads it back exactly when the table is not too large
    and every owner is in it.
   */
  lemma {:induction false} PayloadRoundTrip(c: Config, p: Payload)
    requires |c.slots| == SLOTS
    requires p.version == VERSION && p.workers == c.workers && Expand(p.segments) == c.slots
    requires forall i :: 0 <= i < |p.segments| ==> p.segments[i].count >= 1
    ensures Decoded(p) == Ok(c) <==> 1 <= |c.workers| <= SLOTS && InTable(c)
  {
    OwnersInTable(p.segments, |c.workers|);
    assert Fitted(c.slots) == c.slots;
  }

  ghost predicate SlotsKnown(slots: seq<HashSlot>, workers: nat) {
    forall s :: 0 <= s < |slots| ==> slots[s].worker < workers
  }

  lemma {:induction false} OneMoreOwner(before: seq<HashSlot>, slot: HashSlot, count: nat, workers: nat)
    requires count >= 1
    ensures SlotsKnown(before + Repeat(slot, count), workers) <==> SlotsKnown(before, workers) && slot.worker < workers
  {
    var all := before + Repeat(slot, count);
    assert all[|before|] == slot;
    assert forall s :: 0 <= s < |before| ==> all[s] == before[s];
    assert forall s :: |before| <= s < |all| ==> all[s] == slot;
  }

  lemma {:induction false} OwnersInTable(segments: seq<Segment>, workers: nat)
    requires forall i :: 0 <= i < |segments| ==> segments[i].count >= 1
    ensures OwnersKnown(segments, workers) <==> SlotsKnown(Expand(segments), workers)
  {
    if segments != [] {
      var front, last := segments[..|segments| - 1], segments[|segments| - 1];
      OwnersInTable(front, workers);
      OneMoreOwner(Expand(front), last.slot, last.count, workers);
      assert OwnersKnown(segments, workers) <==> OwnersKnown(front, workers) && last.slot.worker < workers by {
        assert segments == front + [last];
      }
      hide SlotsKnown, OwnersKnown;
    }
  }
}
