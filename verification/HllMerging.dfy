/** Loops over register encodings: conversion, merging and counting. */
module HllMerging {
  import opened Common
  import opened HllRegisters
  import opened HllSparse
  import opened HllSketch

  predicate FullStream(ops: Bytes) {
    && (forall i :: 0 <= i < |ops| ==> Legal(ops[i]))
    && |Expand(ops)| == REGISTERS
  }

  /** Maximum with a prefix; registers past the prefix are untouched. */
  function MaxWith(d: seq<nat>, p: seq<nat>): (r: seq<nat>)
    requires |p| <= |d|
    ensures |r| == |d|
  {
    seq(|d|, i requires 0 <= i < |d| => if i < |p| then Max(d[i], p[i]) else d[i])
  }

  lemma {:induction false} MaxWithRun(d: seq<nat>, p: seq<nat>, n: nat)
    requires |p| + n <= |d|
    ensures MaxWith(d, p + Zeros(n)) == MaxWith(d, p)
  {
  }

  lemma {:induction false} MaxWithValue(d: seq<nat>, p: seq<nat>, v: nat)
    requires |p| < |d|
    ensures MaxWith(d, p + [v]) == MaxWith(d, p)[|p| := Max(d[|p|], v)]
    ensures MaxWith(d, p)[|p|] == d[|p|]
  {
  }

  lemma {:induction false} MaxWithAll(d: seq<nat>, p: seq<nat>)
    requires |p| == |d|
    ensures MaxWith(d, p) == PointwiseMax(d, p)
  {
  }

  /** What is left to scan keeps every prefix inside the register space, with legal values. */
  lemma {:induction false} StreamStep(ops: Bytes, pos: nat)
    requires FullStream(ops) && pos < |ops|
    ensures |Expand(ops[..pos])| + OpLen(ops[pos]) <= REGISTERS
    ensures Expand(ops[..pos + 1]) == Expand(ops[..pos]) + OpRegs(ops[pos])
  {
    ExpandAt(ops, pos);
  }

  lemma {:induction false} WholeStream(ops: Bytes)
    ensures Expand(ops[..|ops|]) == Expand(ops)
  {
    assert ops[..|ops|] == ops;
  }

  /** Merges a sparse stream into a packed data area, register by register. */
  method MergeSparseIntoDense(data: Bytes, ops: Bytes) returns (after: Bytes, updated: bool)
    requires |data| == DATA_SIZE && FullStream(ops)
    ensures |after| == DATA_SIZE
    ensures Registers(after) == PointwiseMax(Registers(data), Expand(ops))
    ensures updated <==> Registers(after) != Registers(data)
  {
    hide Expand, RegSet, Registers;
    after, updated := data, false;
    var offset := 0;
    assert Expand([]) == [] by { EmptyStream(); }
    assert MaxWith(Registers(data), []) == Registers(data);
    assert ops[..0] == [];
    for pos := 0 to |ops|
      invariant |after| == DATA_SIZE && offset == |Expand(ops[..pos])| <= REGISTERS
      invariant Registers(after) == MaxWith(Registers(data), Expand(ops[..pos]))
      invariant updated <==> Registers(after) != Registers(data)
    {
      StreamStep(ops, pos);
      var b := ops[pos];
      if IsRun(b) {
        MaxWithRun(Registers(data), Expand(ops[..pos]), OpLen(b));
      } else {
        MaxWithValue(Registers(data), Expand(ops[..pos]), b + 1);
        if RegGet(after, offset) < b + 1 {
          RegSetReads(after, offset, b + 1);
          after := RegSet(after, offset, b + 1);
          updated := true;
          assert Registers(after)[offset] > Registers(data)[offset];
        }
      }
      offset := offset + OpLen(b);
    }
    WholeStream(ops);
    MaxWithAll(Registers(data), Expand(ops));
  }

  lemma {:induction false} EmptyStream()
    ensures Expand([]) == []
  {
  }

  /** Writes a sparse stream out as a packed data area. */
  method UnpackSparse(ops: Bytes) returns (data: Bytes)
    requires FullStream(ops)
    ensures |data| == DATA_SIZE && Registers(data) == Expand(ops)
  {
    hide Expand, RegSet, Registers;
    var zeros: Bytes := seq(DATA_SIZE, _ => 0);
    data := zeros;
    AllZeroRegisters(zeros);
    var offset := 0;
    EmptyStream();
    assert ops[..0] == [];
    for pos := 0 to |ops|
      invariant |data| == DATA_SIZE && offset == |Expand(ops[..pos])| <= REGISTERS
      invariant Registers(data) == MaxWith(Registers(zeros), Expand(ops[..pos]))
    {
      StreamStep(ops, pos);
      var b := ops[pos];
      if IsRun(b) {
        MaxWithRun(Registers(zeros), Expand(ops[..pos]), OpLen(b));
      } else {
        MaxWithValue(Registers(zeros), Expand(ops[..pos]), b + 1);
        RegSetReads(data, offset, b + 1);
        data := RegSet(data, offset, b + 1);
      }
      offset := offset + OpLen(b);
    }
    WholeStream(ops);
  }

  /** Merges one sparse stream into another. */
  method MergeSparse(dst: Bytes, src: Bytes) returns (after: Bytes, updated: bool)
    requires FullStream(dst) && FullStream(src)
    ensures FullStream(after)
    ensures Expand(after) == PointwiseMax(Expand(dst), Expand(src))
    ensures updated <==> Expand(after) != Expand(dst)
    ensures !updated ==> after == dst
  {
    hide Expand;
    after, updated := dst, false;
    var offset := 0;
    EmptyStream();
    assert src[..0] == [];
    assert MaxWith(Expand(dst), []) == Expand(dst);
    for pos := 0 to |src|
      invariant FullStream(after) && offset == |Expand(src[..pos])| <= REGISTERS
      invariant Expand(after) == MaxWith(Expand(dst), Expand(src[..pos]))
      invariant updated <==> Expand(after) != Expand(dst)
      invariant !updated ==> after == dst
    {
      StreamStep(src, pos);
      var b := src[pos];
      if IsRun(b) {
        MaxWithRun(Expand(dst), Expand(src[..pos]), OpLen(b));
      } else {
        MaxWithValue(Expand(dst), Expand(src[..pos]), b + 1);
        var changed, next := SparseUpdate(after, offset, b + 1);
        assert changed ==> Expand(next)[offset] > Expand(dst)[offset];
        updated := updated || changed;
        after := next;
      }
      offset := offset + OpLen(b);
    }
    WholeStream(src);
    MaxWithAll(Expand(dst), Expand(src));
  }

  // ----- Dense blocks ------------------------------------------------------

  const ZERO_BLOCK := Block(0, 0, 0)

  function MaxBlock(d: Block, s: Block): Block {
    var x := Unpack3(d);
    var y := Unpack3(s);
    Pack3(Max(x.0, y.0), Max(x.1, y.1), Max(x.2, y.2), Max(x.3, y.3))
  }

  ghost predicate IsBlockMax(m: Block, d: Block, s: Block) {
    forall rem :: 0 <= rem < 4 ==> RegOf(m, rem) == Max(RegOf(d, rem), RegOf(s, rem))
  }

  lemma {:induction false} MaxBlockLanes(d: Block, s: Block)
    ensures IsBlockMax(MaxBlock(d, s), d, s)
  {
    var x := Unpack3(d);
    var y := Unpack3(s);
    UnpackPack(Max(x.0, y.0), Max(x.1, y.1), Max(x.2, y.2), Max(x.3, y.3));
    forall rem | 0 <= rem < 4
      ensures RegOf(MaxBlock(d, s), rem) == Max(RegOf(d, rem), RegOf(s, rem))
    {
      hide RegOf, Unpack3, Pack3;
      RegOfUnpack(MaxBlock(d, s), rem);
      RegOfUnpack(d, rem);
      RegOfUnpack(s, rem);
    }
  }

  /** Equal blocks and zero sources need no work. */
  lemma {:induction false} SkippedBlock(d: Block, s: Block)
    requires d == s || s == ZERO_BLOCK
    ensures IsBlockMax(d, d, s)
  {
  }

  lemma {:induction false} BlocksGiveRegisters(after: Bytes, data: Bytes, src: Bytes)
    requires |after| == |data| == |src| == DATA_SIZE
    requires forall k :: 0 <= k < BLOCKS ==> IsBlockMax(BlockAt(after, k), BlockAt(data, k), BlockAt(src, k))
    ensures Registers(after) == PointwiseMax(Registers(data), Registers(src))
  {
    forall i | 0 <= i < REGISTERS
      ensures Registers(after)[i] == Max(Registers(data)[i], Registers(src)[i])
    {
      hide RegOf, BlockAt;
      assert IsBlockMax(BlockAt(after, i / 4), BlockAt(data, i / 4), BlockAt(src, i / 4));
      assert 0 <= i % 4 < 4;
    }
  }

  /** A block that changed shows in the registers. */
  lemma {:induction false} ChangedBlock(after: Bytes, data: Bytes, k: nat)
    requires |after| == |data| == DATA_SIZE && k < BLOCKS
    requires Unpack3(BlockAt(after, k)) != Unpack3(BlockAt(data, k))
    ensures Registers(after) != Registers(data)
  {
    hide RegOf, BlockAt, Unpack3;
    var x, y := Unpack3(BlockAt(after, k)), Unpack3(BlockAt(data, k));
    var rem := if x.0 != y.0 then 0 else if x.1 != y.1 then 1 else if x.2 != y.2 then 2 else 3;
    RegOfUnpack(BlockAt(after, k), rem);
    RegOfUnpack(BlockAt(data, k), rem);
    assert (4 * k + rem) / 4 == k && (4 * k + rem) % 4 == rem;
    assert Registers(after)[4 * k + rem] != Registers(data)[4 * k + rem];
  }

  /** Merges one packed data area into another, block by block. */
  method MergeDense(data: Bytes, src: Bytes) returns (after: Bytes, updated: bool)
    requires |data| == |src| == DATA_SIZE
    ensures |after| == DATA_SIZE
    ensures Registers(after) == PointwiseMax(Registers(data), Registers(src))
    ensures updated <==> Registers(after) != Registers(data)
  {
    hide RegOf, Registers, Unpack3, Pack3, BlockAt, PutBlock, IsBlockMax, MaxBlock;
    after, updated := data, false;
    ghost var changed: nat := 0;
    for k := 0 to BLOCKS
      invariant |after| == DATA_SIZE
      invariant forall j :: 0 <= j < k ==> IsBlockMax(BlockAt(after, j), BlockAt(data, j), BlockAt(src, j))
      invariant forall j :: k <= j < BLOCKS ==> BlockAt(after, j) == BlockAt(data, j)
      invariant updated ==> changed < k && Unpack3(BlockAt(after, changed)) != Unpack3(BlockAt(data, changed))
      invariant !updated ==> after == data
    {
      var d, s := BlockAt(after, k), BlockAt(src, k);
      if d == s || s == ZERO_BLOCK {
        SkippedBlock(d, s);
      } else {
        var m := MaxBlock(d, s);
        MaxBlockLanes(d, s);
        ghost var before := after;
        if Unpack3(m) != Unpack3(d) {
          after := PutBlock(after, k, m);
          updated, changed := true, k;
        } else {
          SameLanes(m, d, s);
        }
        forall j | 0 <= j < BLOCKS
          ensures BlockAt(after, j) == if j == k && Unpack3(m) != Unpack3(d) then m else BlockAt(before, j)
        {
          PutBlockReads(before, k, m, j);
        }
      }
    }
    BlocksGiveRegisters(after, data, src);
    if updated {
      ChangedBlock(after, data, changed);
    }
  }

  lemma {:induction false} SameLanes(m: Block, d: Block, s: Block)
    requires IsBlockMax(m, d, s) && Unpack3(m) == Unpack3(d)
    ensures IsBlockMax(d, d, s)
  {
    forall rem | 0 <= rem < 4
      ensures RegOf(d, rem) == Max(RegOf(d, rem), RegOf(s, rem))
    {
      hide RegOf, Unpack3;
      RegOfUnpack(m, rem);
      RegOfUnpack(d, rem);
    }
  }

  // ----- Histograms --------------------------------------------------------

  /** The histogram counts exactly the values of the sequence. */
  ghost predicate Counts(hist: seq<nat>, s: seq<nat>) {
    |hist| == 64 && forall v :: 0 <= v < 64 ==> hist[v] == multiset(s)[v]
  }

  function Bump(hist: seq<nat>, v: nat, n: nat): (r: seq<nat>)
    requires |hist| == 64 && v < 64
    ensures |r| == 64
  {
    hist[v := hist[v] + n]
  }

  lemma {:induction false} CountsOne(hist: seq<nat>, s: seq<nat>, v: nat)
    requires Counts(hist, s) && v < 64
    ensures Counts(Bump(hist, v, 1), s + [v])
  {
  }

  lemma {:induction false} CountsRun(hist: seq<nat>, s: seq<nat>, n: nat)
    requires Counts(hist, s)
    ensures Counts(Bump(hist, 0, n), s + Zeros(n))
    decreases n
  {
    if n == 0 {
      assert s + Zeros(0) == s;
      assert Bump(hist, 0, 0) == hist;
    } else {
      CountsRun(hist, s, n - 1);
      CountsOne(Bump(hist, 0, n - 1), s + Zeros(n - 1), 0);
      assert s + Zeros(n - 1) + [0] == s + Zeros(n);
      assert Bump(Bump(hist, 0, n - 1), 0, 1) == Bump(hist, 0, n);
    }
  }

  lemma {:induction false} CountsWhole(hist: seq<nat>, s: seq<nat>)
    requires Counts(hist, s)
    ensures hist == Histogram(s)
  {
  }

  function NoCounts(): (h: seq<nat>)
    ensures |h| == 64 && Counts(h, [])
  {
    seq(64, _ => 0)
  }

  /** Histogram of a sparse stream, a whole zero run at a time. */
  method SparseHistogram(ops: Bytes) returns (hist: seq<nat>)
    requires FullStream(ops)
    ensures hist == Histogram(Expand(ops))
  {
    hide Expand, Counts, Bump;
    hist := NoCounts();
    EmptyStream();
    assert ops[..0] == [];
    for pos := 0 to |ops|
      invariant |hist| == 64 && Counts(hist, Expand(ops[..pos]))
    {
      StreamStep(ops, pos);
      var b := ops[pos];
      if IsRun(b) {
        CountsRun(hist, Expand(ops[..pos]), b - 127);
        hist := Bump(hist, 0, b - 127);
      } else {
        CountsOne(hist, Expand(ops[..pos]), b + 1);
        hist := Bump(hist, b + 1, 1);
      }
    }
    WholeStream(ops);
    CountsWhole(hist, Expand(ops));
  }

  function BumpFour(hist: seq<nat>, r: (Reg, Reg, Reg, Reg)): (h: seq<nat>)
    requires |hist| == 64
    ensures |h| == 64
  {
    Bump(Bump(Bump(Bump(hist, r.0, 1), r.1, 1), r.2, 1), r.3, 1)
  }

  /** Counting one block's four registers. */
  lemma {:induction false} CountsBlock(hist: seq<nat>, regs: seq<nat>, k: nat, r: (Reg, Reg, Reg, Reg))
    requires |hist| == 64 && 4 * k + 4 <= |regs| && Counts(hist, regs[..4 * k])
    requires forall rem :: 0 <= rem < 4 ==> regs[4 * k + rem] == Lane(r, rem)
    ensures Counts(BumpFour(hist, r), regs[..4 * k + 4])
  {
    hide Counts, Bump;
    var s := regs[..4 * k];
    CountsOne(hist, s, r.0);
    CountsOne(Bump(hist, r.0, 1), s + [r.0], r.1);
    CountsOne(Bump(Bump(hist, r.0, 1), r.1, 1), s + [r.0] + [r.1], r.2);
    CountsOne(Bump(Bump(Bump(hist, r.0, 1), r.1, 1), r.2, 1), s + [r.0] + [r.1] + [r.2], r.3);
    assert Lane(r, 0) == r.0 && Lane(r, 1) == r.1 && Lane(r, 2) == r.2 && Lane(r, 3) == r.3;
    assert regs[4 * k + 0] == r.0 && regs[4 * k + 1] == r.1 && regs[4 * k + 2] == r.2 && regs[4 * k + 3] == r.3;
    assert regs[..4 * k + 4] == s + [r.0] + [r.1] + [r.2] + [r.3];
  }

  lemma {:induction false} BlockLanes(data: Bytes, k: nat)
    requires |data| == DATA_SIZE && k < BLOCKS
    ensures forall rem :: 0 <= rem < 4 ==> Registers(data)[4 * k + rem] == Lane(Unpack3(BlockAt(data, k)), rem)
  {
    forall rem | 0 <= rem < 4
      ensures Registers(data)[4 * k + rem] == Lane(Unpack3(BlockAt(data, k)), rem)
    {
      hide RegOf, BlockAt, Unpack3;
      RegOfUnpack(BlockAt(data, k), rem);
      assert (4 * k + rem) / 4 == k && (4 * k + rem) % 4 == rem;
    }
  }

  /** Histogram of a packed data area, with the shortcut for all-zero blocks. */
  method DenseHistogram(data: Bytes) returns (hist: seq<nat>)
    requires |data| == DATA_SIZE
    ensures hist == Histogram(Registers(data))
  {
    hide Counts, Bump, Registers, BlockAt, Unpack3;
    hist := NoCounts();
    assert Registers(data)[..0] == [];
    for k := 0 to BLOCKS
      invariant |hist| == 64 && Counts(hist, Registers(data)[..4 * k])
    {
      var b := BlockAt(data, k);
      BlockLanes(data, k);
      CountsBlock(hist, Registers(data), k, Unpack3(b));
      if b == ZERO_BLOCK {
        ZeroBlockBump(hist);
        hist := Bump(hist, 0, 4);
      } else {
        hist := BumpFour(hist, Unpack3(b));
      }
    }
    assert Registers(data)[..REGISTERS] == Registers(data);
    CountsWhole(hist, Registers(data));
  }

  lemma {:induction false} ZeroBlockBump(hist: seq<nat>)
    requires |hist| == 64
    ensures Unpack3(ZERO_BLOCK) == (0, 0, 0, 0)
    ensures BumpFour(hist, Unpack3(ZERO_BLOCK)) == Bump(hist, 0, 4)
  {
  }

  // ----- Several sketches at once ------------------------------------------

  /** The largest value of one register over the first `t` rows. */
  function RowMax(rows: seq<seq<nat>>, t: nat, i: nat): nat
    requires t <= |rows| && forall j :: 0 <= j < |rows| ==> i < |rows[j]|
    decreases t
  {
    if t == 0 then 0 else Max(RowMax(rows, t - 1, i), rows[t - 1][i])
  }

  lemma {:induction false} RowMaxPrefix(rows: seq<seq<nat>>, t: nat, u: nat, i: nat)
    requires t <= u <= |rows| && forall j :: 0 <= j < |rows| ==> i < |rows[j]|
    ensures RowMax(rows[..u], t, i) == RowMax(rows, t, i)
    decreases t
  {
    if t > 0 {
      RowMaxPrefix(rows, t - 1, u, i);
    }
  }

  /** Merging the rows one by one gives the row maximum. */
  lemma {:induction false} MergeAllIsRowMax(rows: seq<seq<nat>>, i: nat)
    requires rows != [] && forall j :: 0 <= j < |rows| ==> |rows[j]| == REGISTER_COUNT
    requires i < REGISTER_COUNT
    ensures MergeAll(rows)[i] == RowMax(rows, |rows|, i)
    decreases |rows|
  {
    var n := |rows|;
    if n == 1 {
      assert RowMax(rows, 1, i) == Max(RowMax(rows, 0, i), rows[0][i]);
    } else {
      MergeAllIsRowMax(rows[..n - 1], i);
      RowMaxPrefix(rows, n - 1, n - 1, i);
    }
  }

  function MaxLanes(x: (Reg, Reg, Reg, Reg), y: (Reg, Reg, Reg, Reg)): (Reg, Reg, Reg, Reg) {
    (Max(x.0, y.0), Max(x.1, y.1), Max(x.2, y.2), Max(x.3, y.3))
  }

  ghost function RegisterRows(rows: seq<Bytes>): (r: seq<seq<nat>>)
    requires forall j :: 0 <= j < |rows| ==> |rows[j]| == DATA_SIZE
    ensures |r| == |rows| && forall j :: 0 <= j < |rows| ==> r[j] == Registers(rows[j])
  {
    seq(|rows|, j requires 0 <= j < |rows| => Registers(rows[j]))
  }

  /** The lane-wise maximum of one block over all rows. */
  method MaxOverRows(rows: seq<Bytes>, k: nat) returns (r: (Reg, Reg, Reg, Reg))
    requires k < BLOCKS && forall j :: 0 <= j < |rows| ==> |rows[j]| == DATA_SIZE
    ensures forall rem :: 0 <= rem < 4 ==> Lane(r, rem) == RowMax(RegisterRows(rows), |rows|, 4 * k + rem)
  {
    hide BlockAt, Unpack3, Registers;
    r := (0, 0, 0, 0);
    for t := 0 to |rows|
      invariant forall rem :: 0 <= rem < 4 ==> Lane(r, rem) == RowMax(RegisterRows(rows), t, 4 * k + rem)
    {
      BlockLanes(rows[t], k);
      var b := BlockAt(rows[t], k);
      ghost var before := r;
      if b == ZERO_BLOCK {
        ZeroBlockBump(seq(64, _ => 0));
      } else {
        r := MaxLanes(r, Unpack3(b));
      }
      forall rem | 0 <= rem < 4
        ensures Lane(r, rem) == RowMax(RegisterRows(rows), t + 1, 4 * k + rem)
      {
        assert Lane(r, rem) == Max(Lane(before, rem), Lane(Unpack3(b), rem));
        assert RegisterRows(rows)[t][4 * k + rem] == Lane(Unpack3(b), rem);
      }
    }
  }

  /** Histogram of the registers of several data areas merged, without building the merge. */
  method MergedHistogram(rows: seq<Bytes>) returns (hist: seq<nat>)
    requires rows != [] && forall j :: 0 <= j < |rows| ==> |rows[j]| == DATA_SIZE
    ensures hist == Histogram(MergeAll(RegisterRows(rows)))
  {
    hide Counts, Bump, MergeAll, RowMax;
    hist := NoCounts();
    ghost var merged := MergeAll(RegisterRows(rows));
    assert merged[..0] == [];
    for k := 0 to BLOCKS
      invariant |hist| == 64 && Counts(hist, merged[..4 * k])
    {
      var r := MaxOverRows(rows, k);
      forall rem | 0 <= rem < 4
        ensures merged[4 * k + rem] == Lane(r, rem)
      {
        MergeAllIsRowMax(RegisterRows(rows), 4 * k + rem);
      }
      CountsBlock(hist, merged, k, r);
      hist := BumpFour(hist, r);
    }
    assert merged[..REGISTERS] == merged;
    CountsWhole(hist, merged);
  }
}
