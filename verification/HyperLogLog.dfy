/**
  The HyperLogLog object: one byte string that is either a sparse or a dense
  encoding of the 16384 registers, with the last estimate cached in its header.
 */
module HyperLogLogs {
  import opened Common
  import opened LittleEndian
  import opened HllRegisters
  import opened HllSparse
  import opened HllSketch
  import opened HllMerging

  const MAGIC: Bytes := [72, 89, 76, 76]
  const SPARSE := 0
  const DENSE := 1
  const HEADER := 16
  const SPARSE_HEADER := 18
  const DENSE_SIZE := 12304
  const SPARSE_CAP := 4096

  /** The sign bit of the cache field marks it invalid. */
  const CARD_INVALID: nat := 0x8000_0000_0000_0000

  // ----- What a byte string stands for -------------------------------------

  predicate Marked(bytes: Bytes, kind: byte) {
    |bytes| >= HEADER && bytes[..4] == MAGIC && bytes[4] == kind
  }

  predicate DenseShape(bytes: Bytes) {
    |bytes| == DENSE_SIZE && Marked(bytes, DENSE)
  }

  predicate SparseShape(bytes: Bytes) {
    && |bytes| >= SPARSE_HEADER
    && Marked(bytes, SPARSE)
    && FromLE(bytes[HEADER..SPARSE_HEADER]) == |bytes| - SPARSE_HEADER
    && (forall i :: SPARSE_HEADER <= i < |bytes| ==> Legal(bytes[i]))
    && |Expand(bytes[SPARSE_HEADER..])| == REGISTERS
  }

  predicate Shape(bytes: Bytes) {
    DenseShape(bytes) || SparseShape(bytes)
  }

  /** What `is_valid` promises: a proper shape, and a sparse form within its size cap. */
  predicate IsValid(bytes: Bytes) {
    DenseShape(bytes) || (SparseShape(bytes) && |bytes| <= SPARSE_CAP)
  }

  function RegistersOf(bytes: Bytes): (regs: seq<nat>)
    requires Shape(bytes)
    ensures |regs| == REGISTERS
  {
    if bytes[4] == DENSE then Registers(bytes[HEADER..]) else Expand(bytes[SPARSE_HEADER..])
  }

  function CardOf(bytes: Bytes): Option<nat>
    requires |bytes| >= HEADER
  {
    var card := FromLE(bytes[8..HEADER]);
    if card < CARD_INVALID then Some(card) else None
  }

  function WithCard(bytes: Bytes, card: nat): (r: Bytes)
    requires |bytes| >= HEADER
    ensures |r| == |bytes|
  {
    bytes[..8] + ToLE(card, 8) + bytes[HEADER..]
  }

  lemma {:induction false} CardBound()
    ensures Pow256(8) == HASH_BOUND
  {
    assert Pow256(4) == 4294967296;
    assert Pow256(8) == 256 * Pow256(7) && Pow256(7) == 256 * Pow256(6);
    assert Pow256(6) == 256 * Pow256(5) && Pow256(5) == 256 * Pow256(4);
  }

  /** The cache field holds what was last written to it, and nothing else moves. */
  lemma {:induction false} CardWrite(bytes: Bytes, card: nat)
    requires |bytes| >= HEADER && card < HASH_BOUND
    ensures CardOf(WithCard(bytes, card)) == if card < CARD_INVALID then Some(card) else None
    ensures WithCard(bytes, card)[HEADER..] == bytes[HEADER..]
    ensures WithCard(bytes, card)[..8] == bytes[..8]
  {
    CardBound();
    LERoundTrip(card, 8);
    assert WithCard(bytes, card)[8..HEADER] == ToLE(card, 8);
  }

  lemma {:induction false} CardKeepsRegisters(bytes: Bytes, card: nat)
    requires Shape(bytes) && card < HASH_BOUND
    ensures Shape(WithCard(bytes, card)) && (IsValid(bytes) ==> IsValid(WithCard(bytes, card)))
    ensures RegistersOf(WithCard(bytes, card)) == RegistersOf(bytes)
    ensures WithCard(bytes, card)[4] == bytes[4]
  {
    CardParts(bytes, card);
    hide WithCard, FromLE, Expand, Registers, Legal;
  }

  lemma {:induction false} CardParts(bytes: Bytes, card: nat)
    requires |bytes| >= HEADER
    ensures var after := WithCard(bytes, card);
            && after[..4] == bytes[..4] && after[4] == bytes[4] && after[HEADER..] == bytes[HEADER..]
            && (forall i :: HEADER <= i < |bytes| ==> after[i] == bytes[i])
            && (|bytes| >= SPARSE_HEADER ==>
                  && after[HEADER..SPARSE_HEADER] == bytes[HEADER..SPARSE_HEADER]
                  && after[SPARSE_HEADER..] == bytes[SPARSE_HEADER..])
  {
    hide ToLE;
  }

  // ----- Building byte strings ---------------------------------------------

  function SparseBytes(head: Bytes, ops: Bytes): (r: Bytes)
    requires |head| == HEADER
    ensures |r| == SPARSE_HEADER + |ops|
  {
    head + ToLE(|ops|, 2) + ops
  }

  function DenseBytes(head: Bytes, data: Bytes): (r: Bytes)
    requires |head| == HEADER
    ensures |r| == HEADER + |data|
  {
    head + data
  }

  /** Magic, kind, three reserved bytes and an invalid cache field. */
  function FreshHead(kind: byte): (r: Bytes)
    ensures |r| == HEADER
  {
    MAGIC + [kind, 0, 0, 0] + ToLE(CARD_INVALID, 8)
  }

  lemma {:induction false} FreshHeadMarked(kind: byte)
    ensures Marked(FreshHead(kind), kind) && CardOf(FreshHead(kind)).None?
  {
    CardBound();
    LERoundTrip(CARD_INVALID, 8);
    assert FreshHead(kind)[8..HEADER] == ToLE(CARD_INVALID, 8);
    assert FreshHead(kind)[..4] == MAGIC;
  }

  lemma {:induction false} SparseBuilt(head: Bytes, ops: Bytes)
    requires |head| == HEADER && Marked(head, SPARSE) && FullStream(ops)
    ensures SparseShape(SparseBytes(head, ops))
    ensures RegistersOf(SparseBytes(head, ops)) == Expand(ops)
    ensures CardOf(SparseBytes(head, ops)) == CardOf(head)
    ensures SparseBytes(head, ops)[4] == SPARSE
  {
    SparsePieces(head, ops);
    hide SparseBytes, Expand, FromLE, ToLE, Legal;
  }

  lemma {:induction false} SparsePieces(head: Bytes, ops: Bytes)
    requires |head| == HEADER && FullStream(ops)
    ensures var bytes := SparseBytes(head, ops);
            && FromLE(bytes[HEADER..SPARSE_HEADER]) == |ops| && bytes[SPARSE_HEADER..] == ops
            && bytes[..4] == head[..4] && bytes[4] == head[4] && bytes[8..HEADER] == head[8..HEADER]
            && forall i :: SPARSE_HEADER <= i < |bytes| ==> bytes[i] == ops[i - SPARSE_HEADER]
  {
    var bytes := SparseBytes(head, ops);
    assert |ops| <= |Expand(ops)|;
    assert Pow256(2) == 65536;
    LERoundTrip(|ops|, 2);
    hide Expand, FromLE, ToLE;
    assert bytes[HEADER..SPARSE_HEADER] == ToLE(|ops|, 2);
  }

  lemma {:induction false} DenseBuilt(head: Bytes, data: Bytes)
    requires |head| == HEADER && Marked(head, DENSE) && |data| == DATA_SIZE
    ensures DenseShape(DenseBytes(head, data))
    ensures RegistersOf(DenseBytes(head, data)) == Registers(data)
    ensures CardOf(DenseBytes(head, data)) == CardOf(head)
    ensures DenseBytes(head, data)[4] == DENSE
  {
    var bytes := DenseBytes(head, data);
    assert bytes[HEADER..] == data;
    assert bytes[..4] == head[..4];
    assert bytes[8..HEADER] == head[8..HEADER];
  }

  /** A well-formed sparse byte string is its header followed by a full stream. */
  lemma {:induction false} SparseParts(bytes: Bytes)
    requires SparseShape(bytes)
    ensures FullStream(bytes[SPARSE_HEADER..])
    ensures Marked(bytes[..HEADER], SPARSE) && CardOf(bytes[..HEADER]) == CardOf(bytes)
  {
    assert bytes[..HEADER][..4] == bytes[..4];
    assert bytes[..HEADER][8..HEADER] == bytes[8..HEADER];
  }

  lemma {:induction false} DenseParts(bytes: Bytes)
    requires DenseShape(bytes)
    ensures |bytes[HEADER..]| == DATA_SIZE
    ensures Marked(bytes[..HEADER], DENSE) && CardOf(bytes[..HEADER]) == CardOf(bytes)
  {
    assert bytes[..HEADER][..4] == bytes[..4];
    assert bytes[..HEADER][8..HEADER] == bytes[8..HEADER];
  }

  /** The stream of a new sketch: zero runs of 128 registers each. */
  lemma {:induction false} RunsExpand(n: nat)
    ensures Expand(seq(n, _ => 255)) == Zeros(128 * n)
    ensures FullStream(seq(128, _ => 255)) || n != 128
    decreases n
  {
    var runs: Bytes := seq(n, _ => 255);
    if n > 0 {
      RunsExpand(n - 1);
      assert runs[1..] == seq(n - 1, _ => 255);
      assert OpRegs(255) == Zeros(128);
    }
  }

  /** Accepts exactly the valid byte strings. */
  method CheckValid(bytes: Bytes) returns (ok: bool)
    ensures ok <==> IsValid(bytes)
  {
    hide Expand;
    if |bytes| < HEADER || bytes[..4] != MAGIC {
      return false;
    }
    if bytes[4] == DENSE {
      return |bytes| == DENSE_SIZE;
    }
    if bytes[4] != SPARSE || |bytes| < SPARSE_HEADER || |bytes| > SPARSE_CAP {
      return false;
    }
    if FromLE(bytes[HEADER..SPARSE_HEADER]) != |bytes| - SPARSE_HEADER {
      return false;
    }
    var ops := bytes[SPARSE_HEADER..];
    var covered := 0;
    EmptyStream();
    assert ops[..0] == [];
    for pos := 0 to |ops|
      invariant covered == |Expand(ops[..pos])| <= REGISTERS
      invariant forall i :: 0 <= i < pos ==> Legal(ops[i])
    {
      if !IsRun(ops[pos]) && ops[pos] >= MAX_VALUE {
        assert !Legal(bytes[SPARSE_HEADER + pos]);
        return false;
      }
      ExpandAt(ops, pos);
      covered := covered + OpLen(ops[pos]);
      if covered > REGISTERS {
        return false;
      }
    }
    WholeStream(ops);
    ok := covered == REGISTERS;
  }

  // ----- The object --------------------------------------------------------

  /** An estimator whose results fit the cache field. */
  ghost predicate Estimator(finalize: seq<nat> -> nat) {
    forall hist :: finalize(hist) < CARD_INVALID
  }

  /**
    A sketch.  `fed` is the set of hashes it has seen; `finalize` turns a register
    histogram into an estimate.
   */
  class HyperLogLog {
    var bytes: Bytes
    const finalize: seq<nat> -> nat
    ghost var fed: set<Hash>

    /** Well formed; a sparse form may still be over its size cap. */
    ghost predicate Valid()
      reads this
    {
      Shape(bytes) && Estimator(finalize)
    }

    ghost function Regs(): (regs: seq<nat>)
      requires Valid()
      reads this
      ensures |regs| == REGISTERS
    {
      RegistersOf(bytes)
    }

    /** In packed form; otherwise a sparse stream. */
    predicate IsDense()
      requires Valid()
      reads this
    {
      bytes[4] == DENSE
    }

    function Cached(): Option<nat>
      requires Valid()
      reads this
    {
      CardOf(bytes)
    }

    /** A cached estimate is the estimate of the current registers. */
    ghost predicate Coherent()
      requires Valid()
      reads this
    {
      Cached().Some? ==> Cached().value == finalize(Histogram(Regs()))
    }

    /** The registers are the sketch of what was fed. */
    ghost predicate Tracks()
      requires Valid()
      reads this
    {
      IsSketch(Regs(), fed)
    }

    constructor New(finalize: seq<nat> -> nat)
      requires Estimator(finalize)
      ensures Valid() && IsValid(bytes) && Coherent() && Tracks() && fed == {}
      ensures this.finalize == finalize
    {
      FreshHeadMarked(SPARSE);
      RunsExpand(128);
      SparseBuilt(FreshHead(SPARSE), seq(128, _ => 255));
      EmptySketch(Zeros(REGISTERS));
      this.finalize := finalize;
      bytes := SparseBytes(FreshHead(SPARSE), seq(128, _ => 255));
      fed := {};
    }

    /** Takes over a byte string that `CheckValid` accepts. */
    constructor FromBytes(finalize: seq<nat> -> nat, source: Bytes)
      requires Estimator(finalize) && IsValid(source)
      ensures Valid() && bytes == source && this.finalize == finalize
    {
      this.finalize := finalize;
      bytes := source;
      fed := {};
    }

    /** Parses a byte string; what is not a sketch is refused. */
    static method Parse(finalize: seq<nat> -> nat, source: Bytes) returns (r: Option<HyperLogLog>)
      requires Estimator(finalize)
      ensures r.Some? <==> IsValid(source)
      ensures r.Some? ==> fresh(r.value) && r.value.Valid() && r.value.bytes == source && r.value.finalize == finalize
    {
      var ok := CheckValid(source);
      if !ok {
        return None;
      }
      var hll := new HyperLogLog.FromBytes(finalize, source);
      r := Some(hll);
    }

    constructor Clone(other: HyperLogLog)
      requires other.Valid()
      ensures Valid() && bytes == other.bytes && finalize == other.finalize && fed == other.fed
    {
      finalize := other.finalize;
      bytes := other.bytes;
      fed := other.fed;
    }

    method InvalidateCache()
      requires Valid()
      modifies this`bytes
      ensures Valid() && CardOf(bytes).None? && Regs() == old(Regs()) && bytes[4] == old(bytes)[4]
      ensures |bytes| == |old(bytes)| && (old(IsValid(bytes)) ==> IsValid(bytes))
    {
      hide RegistersOf;
      CardKeepsRegisters(bytes, CARD_INVALID);
      CardWrite(bytes, CARD_INVALID);
      bytes := WithCard(bytes, CARD_INVALID);
    }

    /** Switches to the dense form; the registers stay what they were. */
    method UpgradeDense()
      requires Valid() && bytes[4] == SPARSE
      modifies this`bytes
      ensures Valid() && DenseShape(bytes) && CardOf(bytes).None? && Regs() == old(Regs())
    {
      SparseParts(bytes);
      var data := UnpackSparse(bytes[SPARSE_HEADER..]);
      FreshHeadMarked(DENSE);
      DenseBuilt(FreshHead(DENSE), data);
      bytes := DenseBytes(FreshHead(DENSE), data);
    }

    method GetRegister(idx: nat) returns (v: nat)
      requires Valid() && idx < REGISTERS
      ensures v == Regs()[idx]
    {
      if bytes[4] == DENSE {
        v := RegGet(bytes[HEADER..], idx);
      } else {
        v := SparseGet(bytes[SPARSE_HEADER..], idx);
      }
    }

    /** Overwrites one register, in dense form. */
    method SetRegister(idx: nat, v: Reg)
      requires Valid() && idx < REGISTERS
      modifies this`bytes
      ensures Valid() && IsValid(bytes) && Coherent()
      ensures Regs() == old(Regs())[idx := v]
    {
      if bytes[4] != DENSE {
        UpgradeDense();
      }
      DenseParts(bytes);
      var data := RegSet(bytes[HEADER..], idx, v);
      RegSetReads(bytes[HEADER..], idx, v);
      DenseBuilt(bytes[..HEADER], data);
      bytes := DenseBytes(bytes[..HEADER], data);
      InvalidateCache();
    }

    /** Raises one register in place, in the form the bytes already have; the cache is not touched. */
    method RaiseRegister(idx: nat, v: nat) returns (updated: bool)
      requires Valid() && idx < REGISTERS && 1 <= v < 64 && (bytes[4] == SPARSE ==> v <= MAX_VALUE)
      modifies this`bytes
      ensures Valid() && bytes[4] == old(bytes)[4]
      ensures Regs() == old(Regs())[idx := Max(old(Regs())[idx], v)]
      ensures updated <==> old(Regs())[idx] < v
      ensures !updated ==> bytes == old(bytes)
      ensures updated && bytes[4] == SPARSE ==>
        |bytes| == |old(bytes)| + Growth(old(bytes)[SPARSE_HEADER..], idx)
    {
      hide Expand, RegSet, Growth;
      if bytes[4] == DENSE {
        DenseParts(bytes);
        var data := bytes[HEADER..];
        updated := RegGet(data, idx) < v;
        if updated {
          RegSetReads(data, idx, v);
          DenseBuilt(bytes[..HEADER], RegSet(data, idx, v));
          bytes := DenseBytes(bytes[..HEADER], RegSet(data, idx, v));
        }
      } else {
        SparseParts(bytes);
        var ops;
        updated, ops := SparseUpdate(bytes[SPARSE_HEADER..], idx, v);
        if updated {
          SparseBuilt(bytes[..HEADER], ops);
          bytes := SparseBytes(bytes[..HEADER], ops);
        }
      }
    }

    /**
      Feeds one hash.  The register at its index becomes the maximum of what it was
      and the hash's rank; a stream that reaches the size cap turns dense.
     */
    method AddHash(hash: Hash) returns (updated: bool)
      requires Valid()
      modifies this
      ensures Valid() && fed == old(fed) + {hash}
      ensures Regs() == old(Regs())[Index(hash) := Max(old(Regs())[Index(hash)], Rank(hash))]
      ensures updated <==> Regs() != old(Regs())
      ensures old(Tracks()) ==> Tracks()
      ensures old(IsValid(bytes)) ==> IsValid(bytes)
      ensures old(Coherent()) ==> Coherent()
    {
      hide RegistersOf, Index, Rank;
      if Tracks() {
        SketchAdd(Regs(), fed, hash);
      }
      fed := fed + {hash};
      var wasDense := bytes[4] == DENSE;
      updated := RaiseRegister(Index(hash), Rank(hash));
      if updated {
        if wasDense || |bytes| < SPARSE_CAP {
          InvalidateCache();
        } else {
          UpgradeDense();
        }
      }
    }

    /**
      Raises one register to a six-bit value.  Unlike `AddHash` this does not apply the
      size cap: the result is valid exactly when it is dense, because it was or because the
      value fits no opcode, or when the stream stays within the cap as it grows.
     */
    method UpdateRegister(idx: nat, v: Reg) returns (updated: bool)
      requires Valid() && idx < REGISTERS
      modifies this`bytes
      ensures Valid()
      ensures Regs() == old(Regs())[idx := Max(old(Regs())[idx], v)]
      ensures updated <==> Regs() != old(Regs())
      ensures IsValid(bytes) <==>
        || old(IsDense()) || v > MAX_VALUE
        || |old(bytes)| + (if v <= old(Regs())[idx] then 0 else Growth(old(bytes)[SPARSE_HEADER..], idx)) <= SPARSE_CAP
      ensures old(Coherent()) ==> Coherent()
    {
      hide RegistersOf, Expand, Growth;
      if v == 0 {
        return false;
      }
      if bytes[4] == SPARSE && v > MAX_VALUE {
        UpgradeDense();
      }
      updated := RaiseRegister(idx, v);
      if updated {
        InvalidateCache();
      }
    }

    /** Takes the register-wise maximum with a well-formed byte string, whatever forms the two have. */
    method MergeValid(src: Bytes)
      requires Valid() && Shape(src)
      modifies this`bytes
      ensures Valid() && Regs() == PointwiseMax(old(Regs()), RegistersOf(src))
      ensures old(IsValid(bytes)) ==> IsValid(bytes)
      ensures old(Coherent()) ==> Coherent()
      ensures
        if Regs() != old(Regs()) || (!old(IsDense()) && src[4] == DENSE) then Cached().None?
        else Cached() == old(Cached()) && IsDense() == old(IsDense())
    {
      hide Expand, Registers;
      if bytes[4] != DENSE && src[4] == DENSE {
        UpgradeDense();
      }
      var updated: bool;
      if bytes[4] == DENSE {
        DenseParts(bytes);
        var data;
        if src[4] == SPARSE {
          SparseParts(src);
          data, updated := MergeSparseIntoDense(bytes[HEADER..], src[SPARSE_HEADER..]);
        } else {
          DenseParts(src);
          data, updated := MergeDense(bytes[HEADER..], src[HEADER..]);
        }
        DenseBuilt(bytes[..HEADER], data);
        bytes := DenseBytes(bytes[..HEADER], data);
      } else {
        SparseParts(bytes);
        SparseParts(src);
        var ops;
        ops, updated := MergeSparse(bytes[SPARSE_HEADER..], src[SPARSE_HEADER..]);
        if updated {
          SparseBuilt(bytes[..HEADER], ops);
          bytes := SparseBytes(bytes[..HEADER], ops);
          if |bytes| >= SPARSE_CAP {
            UpgradeDense();
          }
        }
      }
      if updated {
        InvalidateCache();
      }
    }

    /** The merge of two sketches is the sketch of everything either has seen. */
    method Merge(other: HyperLogLog)
      requires Valid() && other.Valid()
      modifies this
      ensures Valid() && fed == old(fed) + old(other.fed)
      ensures Regs() == PointwiseMax(old(Regs()), old(other.Regs()))
      ensures old(Tracks()) && old(other.Tracks()) ==> Tracks()
      ensures old(IsValid(bytes)) ==> IsValid(bytes)
      ensures old(Coherent()) ==> Coherent()
      ensures
        if Regs() != old(Regs()) || (!old(IsDense()) && old(other.IsDense())) then Cached().None?
        else Cached() == old(Cached()) && IsDense() == old(IsDense())
    {
      hide RegistersOf;
      if Tracks() && other.Tracks() {
        SketchUnion(Regs(), fed, other.Regs(), other.fed);
      }
      fed := fed + other.fed;
      MergeValid(other.bytes);
    }

    /** Merges outside bytes if they are valid, and otherwise refuses them. */
    method MergeRaw(src: Bytes) returns (ok: bool)
      requires Valid()
      modifies this`bytes
      ensures Valid() && (ok <==> IsValid(src))
      ensures ok ==> Regs() == PointwiseMax(old(Regs()), RegistersOf(src))
      ensures !ok ==> bytes == old(bytes)
      ensures old(IsValid(bytes)) ==> IsValid(bytes)
      ensures old(Coherent()) ==> Coherent()
    {
      hide RegistersOf;
      ok := CheckValid(src);
      if ok {
        MergeValid(src);
      }
    }

    /** The estimate, from the cache when it is there and from the registers otherwise. */
    method CountReadonly() returns (est: nat)
      requires Valid()
      ensures est < CARD_INVALID && (CardOf(bytes).Some? ==> est == CardOf(bytes).value)
      ensures est == finalize(Histogram(Regs())) <==> Coherent()
    {
      hide Expand, Registers, Histogram;
      var cached := CardOf(bytes);
      if cached.Some? {
        return cached.value;
      }
      var hist: seq<nat>;
      if bytes[4] == DENSE {
        DenseParts(bytes);
        hist := DenseHistogram(bytes[HEADER..]);
      } else {
        SparseParts(bytes);
        hist := SparseHistogram(bytes[SPARSE_HEADER..]);
      }
      est := finalize(hist);
    }

    /** The estimate, cached for the next call. */
    method Count() returns (est: nat)
      requires Valid()
      modifies this`bytes
      ensures Valid() && Cached() == Some(est) && Regs() == old(Regs())
      ensures old(Cached()).Some? ==> est == old(Cached()).value
      ensures est == finalize(Histogram(Regs())) <==> old(Coherent())
      ensures Coherent() == old(Coherent())
      ensures old(IsValid(bytes)) ==> IsValid(bytes)
    {
      hide RegistersOf;
      if CardOf(bytes).Some? {
        return CardOf(bytes).value;
      }
      est := CountReadonly();
      CardWrite(bytes, est);
      CardKeepsRegisters(bytes, est);
      bytes := WithCard(bytes, est);
    }

    /** The registers as a packed data area, whatever the form. */
    method PackedData() returns (data: Bytes)
      requires Valid()
      ensures |data| == DATA_SIZE && Registers(data) == Regs()
    {
      if bytes[4] == DENSE {
        data := bytes[HEADER..];
      } else {
        SparseParts(bytes);
        data := UnpackSparse(bytes[SPARSE_HEADER..]);
      }
    }
  }

  /** As many values as the size cap leaves room for, and runs for the rest. */
  function FullStreamAtCap(): (ops: Bytes) {
    [242] + seq(3981, _ => 0) + seq(96, _ => 255)
  }

  lemma {:induction false} OnesExpand(n: nat)
    ensures |Expand(seq(n, _ => 0))| == n
  {
    var ones: Bytes := seq(n, _ => 0);
    if n > 0 {
      OnesExpand(n - 1);
      assert ones[1..] == seq(n - 1, _ => 0);
    }
  }

  lemma {:induction false} AtCap()
    ensures FullStream(FullStreamAtCap()) && SPARSE_HEADER + |FullStreamAtCap()| == SPARSE_CAP
    ensures Expand(FullStreamAtCap())[0] == 0 && Growth(FullStreamAtCap(), 0) == 1
  {
    var ones: Bytes := seq(3981, _ => 0);
    var runs: Bytes := seq(96, _ => 255);
    ShortRun();
    OnesExpand(3981);
    RunsExpand(96);
    ExpandConcat([242] + ones, runs);
    ExpandConcat([242], ones);
    hide Expand;
  }

  lemma {:induction false} ShortRun()
    ensures Expand([242]) == Zeros(115)
  {
    assert [242][1..] == [];
  }

  /** The failing input: a valid sketch exactly at the size cap, raised inside a run, is no longer one. */
  method CapOutgrown(finalize: seq<nat> -> nat) returns (before: Bytes, after: Bytes, again: Option<HyperLogLog>)
    requires Estimator(finalize)
    ensures IsValid(before) && |before| == SPARSE_CAP
    ensures Shape(after) && RegistersOf(after) == RegistersOf(before)[0 := 1]
    ensures !IsValid(after) && again.None?
  {
    FreshHeadMarked(SPARSE);
    AtCap();
    SparseBuilt(FreshHead(SPARSE), FullStreamAtCap());
    before := SparseBytes(FreshHead(SPARSE), FullStreamAtCap());
    assert before[SPARSE_HEADER..] == FullStreamAtCap();
    hide FullStreamAtCap, Expand, Growth, FreshHead;
    var hll := new HyperLogLog.FromBytes(finalize, before);
    var _ := hll.UpdateRegister(0, 1);
    after := hll.bytes;
    again := HyperLogLog.Parse(finalize, after);
  }

  ghost predicate Usable(hlls: seq<HyperLogLog>, finalize: seq<nat> -> nat)
    reads hlls
  {
    forall i :: 0 <= i < |hlls| ==> hlls[i].Valid() && hlls[i].finalize == finalize
  }

  ghost function AllRegs(hlls: seq<HyperLogLog>): (rows: seq<seq<nat>>)
    requires forall i :: 0 <= i < |hlls| ==> hlls[i].Valid()
    reads hlls
    ensures |rows| == |hlls| && forall i :: 0 <= i < |hlls| ==> rows[i] == hlls[i].Regs()
  {
    if hlls == [] then [] else AllRegs(hlls[..|hlls| - 1]) + [hlls[|hlls| - 1].Regs()]
  }

  /**
    The estimate of the union of several sketches, from the histogram of their
    register-wise maximum; `MergeAndCount` computes the same number by merging.
   */
  method CountMultiple(hlls: seq<HyperLogLog>, finalize: seq<nat> -> nat) returns (est: nat)
    requires Usable(hlls, finalize)
    ensures hlls == [] ==> est == 0
    ensures |hlls| == 1 ==> (est == finalize(Histogram(MergeAll(AllRegs(hlls)))) <==> hlls[0].Coherent())
    ensures |hlls| == 1 && hlls[0].Cached().Some? ==> est == hlls[0].Cached().value
    ensures |hlls| > 1 ==> est == finalize(Histogram(MergeAll(AllRegs(hlls))))
  {
    hide Registers, Histogram, RegistersOf;
    if hlls == [] {
      return 0;
    }
    if |hlls| == 1 {
      est := hlls[0].CountReadonly();
      return;
    }
    var rows: seq<Bytes> := [];
    for i := 0 to |hlls|
      invariant |rows| == i && forall j :: 0 <= j < i ==> |rows[j]| == DATA_SIZE && Registers(rows[j]) == hlls[j].Regs()
    {
      var data := hlls[i].PackedData();
      rows := rows + [data];
    }
    var hist := MergedHistogram(rows);
    assert RegisterRows(rows) == AllRegs(hlls);
    est := finalize(hist);
  }

  /** Sketches that have seen the same hashes hold the same registers, whatever their forms and histories. */
  lemma {:induction false} SameHashesSameRegisters(a: HyperLogLog, b: HyperLogLog)
    requires a.Valid() && b.Valid() && a.Tracks() && b.Tracks() && a.fed == b.fed
    ensures a.Regs() == b.Regs()
    ensures a.finalize == b.finalize ==> a.finalize(Histogram(a.Regs())) == b.finalize(Histogram(b.Regs()))
  {
    hide RegistersOf, IsSketch;
    SketchUnique(a.Regs(), b.Regs(), a.fed);
  }

  /** Merging the first `n` sketches one by one drops the first one's cached count. */
  ghost predicate CacheDropped(hlls: seq<HyperLogLog>, rows: seq<seq<nat>>, n: nat)
    requires 1 <= n <= |hlls| == |rows| && forall i :: 0 <= i < |rows| ==> |rows[i]| == REGISTER_COUNT
    requires forall i :: 0 <= i < |hlls| ==> hlls[i].Valid()
    reads hlls
  {
    || MergeAll(rows[..n]) != rows[0]
    || (!hlls[0].IsDense() && exists i :: 1 <= i < n && hlls[i].IsDense())
  }

  /** Merging only raises registers, so a change stays a change. */
  lemma {:induction false} MergeAllAbove(rows: seq<seq<nat>>, n: nat)
    requires 1 <= n < |rows| && forall i :: 0 <= i < |rows| ==> |rows[i]| == REGISTER_COUNT
    ensures MergeAll(rows[..n + 1]) == PointwiseMax(MergeAll(rows[..n]), rows[n])
    ensures forall i :: 0 <= i < REGISTER_COUNT ==> MergeAll(rows[..n])[i] >= rows[0][i]
    ensures MergeAll(rows[..n]) != rows[0] ==> MergeAll(rows[..n + 1]) != rows[0]
  {
    MergeAllNext(rows, n);
    if n > 1 {
      MergeAllAbove(rows, n - 1);
    } else {
      MergeAllOne(rows);
    }
    hide MergeAll;
    var merged, next := MergeAll(rows[..n]), MergeAll(rows[..n + 1]);
    if merged != rows[0] {
      var i :| 0 <= i < REGISTER_COUNT && merged[i] != rows[0][i];
      assert next[i] >= merged[i];
    }
  }

  /** One more sketch merged. */
  lemma {:induction false} DroppedStep(hlls: seq<HyperLogLog>, rows: seq<seq<nat>>, n: nat)
    requires 1 <= n < |hlls| == |rows| && forall i :: 0 <= i < |rows| ==> |rows[i]| == REGISTER_COUNT
    requires forall i :: 0 <= i < |hlls| ==> hlls[i].Valid()
    ensures CacheDropped(hlls, rows, n) ==> CacheDropped(hlls, rows, n + 1)
    ensures !CacheDropped(hlls, rows, n) ==>
              (CacheDropped(hlls, rows, n + 1) <==>
                 MergeAll(rows[..n + 1]) != MergeAll(rows[..n]) || (!hlls[0].IsDense() && hlls[n].IsDense()))
  {
    MergeAllAbove(rows, n);
    hide MergeAll, PointwiseMax, Shape;
  }

  /**
    Merges the sketches one by one into a copy of the first and counts that.  The answer is the
    estimate of the merged registers exactly when the first one's cache was honest or was dropped
    on the way: by a register that changed, or by a dense sketch merged into a sparse one.
   */
  method MergeAndCount(hlls: seq<HyperLogLog>, finalize: seq<nat> -> nat) returns (est: nat)
    requires hlls != [] && Usable(hlls, finalize)
    ensures est == finalize(Histogram(MergeAll(AllRegs(hlls)))) <==>
              hlls[0].Coherent() || CacheDropped(hlls, AllRegs(hlls), |hlls|)
    ensures !CacheDropped(hlls, AllRegs(hlls), |hlls|) && hlls[0].Cached().Some? ==> est == hlls[0].Cached().value
  {
    hide Registers, Histogram, RegistersOf, PointwiseMax, Shape, CardOf, MergeAll, AllRegs, IsSketch, IsValid;
    ghost var rows := AllRegs(hlls);
    var union := new HyperLogLog.Clone(hlls[0]);
    MergeAllOne(rows);
    assert !CacheDropped(hlls, rows, 1);
    hide CacheDropped;
    for i := 1 to |hlls|
      invariant fresh(union) && union.Valid() && union.finalize == finalize && Usable(hlls, finalize)
      invariant forall j :: 0 <= j < |hlls| ==> hlls[j].Valid() && hlls[j].Regs() == rows[j]
      invariant union.Regs() == MergeAll(rows[..i])
      invariant if CacheDropped(hlls, rows, i) then union.Cached().None?
                else && union.Cached() == hlls[0].Cached() && union.IsDense() == hlls[0].IsDense()
                     && union.Regs() == rows[0]
    {
      MergeAllNext(rows, i);
      DroppedStep(hlls, rows, i);
      union.Merge(hlls[i]);
    }
    assert rows[..|hlls|] == rows;
    est := union.Count();
  }

  /**
    Counting sketches together is merging them and counting exactly when there is only one, or the
    first one's cache is honest, or merging drops that cache.
   */
  method CountBothWays(hlls: seq<HyperLogLog>, finalize: seq<nat> -> nat) returns (together: nat, merged: nat)
    requires hlls != [] && Usable(hlls, finalize)
    ensures together == merged <==>
              |hlls| == 1 || hlls[0].Coherent() || CacheDropped(hlls, AllRegs(hlls), |hlls|)
  {
    hide Histogram, MergeAll, RegistersOf, CardOf;
    ghost var rows := AllRegs(hlls);
    together := CountMultiple(hlls, finalize);
    merged := MergeAndCount(hlls, finalize);
    if |hlls| == 1 {
      MergeAllOne(rows);
      assert rows[..1] == rows;
    }
  }

  /** An empty sketch, and another one read from bytes that carry a wrong cached count. */
  method StalePair(finalize: seq<nat> -> nat) returns (stale: HyperLogLog, empty: HyperLogLog)
    requires Estimator(finalize)
    ensures fresh(stale) && fresh(empty) && stale.Valid() && empty.Valid() && stale.IsDense() == empty.IsDense()
    ensures stale.finalize == finalize == empty.finalize && stale.Regs() == empty.Regs() && !stale.Coherent()
  {
    hide Histogram, RegistersOf, IsValid, IsSketch, WithCard, Shape, CardOf;
    empty := new HyperLogLog.New(finalize);
    var truth := empty.CountReadonly();
    var wrong := if truth == 0 then 1 else 0;
    ShapeHasHeader(empty.bytes);
    CardWrite(empty.bytes, wrong);
    CardKeepsRegisters(empty.bytes, wrong);
    stale := new HyperLogLog.FromBytes(finalize, WithCard(empty.bytes, wrong));
  }

  lemma {:induction false} ShapeHasHeader(bytes: Bytes)
    requires Shape(bytes)
    ensures |bytes| >= HEADER
  {
  }

  lemma {:induction false} MergedWithItself(hlls: seq<HyperLogLog>)
    requires |hlls| == 2 && hlls[0].Valid() && hlls[1].Valid() && hlls[0].Regs() == hlls[1].Regs()
    requires hlls[0].IsDense() == hlls[1].IsDense()
    ensures !CacheDropped(hlls, AllRegs(hlls), 2)
  {
    hide RegistersOf, MergeAll;
    var rows := AllRegs(hlls);
    MergeAllOne(rows);
    MergeAllNext(rows, 1);
    assert PointwiseMax(rows[0], rows[0]) == rows[0];
    hide AllRegs, PointwiseMax;
  }

  /** The failing input: counted together, the wrong cache does not matter; merged, it is the answer. */
  method StaleCacheDisagrees(finalize: seq<nat> -> nat) returns (together: nat, merged: nat)
    requires Estimator(finalize)
    ensures together != merged
  {
    hide Histogram, MergeAll, RegistersOf, CardOf, AllRegs, CacheDropped, Shape;
    var stale, empty := StalePair(finalize);
    MergedWithItself([stale, empty]);
    together, merged := CountBothWays([stale, empty], finalize);
  }
}
