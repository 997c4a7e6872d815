/**
  Dense HyperLogLog registers: 16384 six-bit values packed four to three bytes.
  The shifts and masks of the packing code act on disjoint bit ranges and are
  written as arithmetic.
 */
module HllRegisters {
  import opened Common

  const REGISTERS := 16384
  const DATA_SIZE := 12288
  const BLOCKS := 4096

  type Reg = r: int | 0 <= r < 64

  datatype Block = Block(b0: byte, b1: byte, b2: byte)

  /** Four registers out of three bytes. */
  function Unpack3(b: Block): (r: (Reg, Reg, Reg, Reg)) {
    var val := b.b0 + b.b1 * 256 + b.b2 * 65536;
    (val % 64, (val / 64) % 64, (val / 4096) % 64, (val / 262144) % 64)
  }

  /** Three bytes out of four registers. */
  function Pack3(r0: Reg, r1: Reg, r2: Reg, r3: Reg): Block {
    var val := r0 + r1 * 64 + r2 * 4096 + r3 * 262144;
    Block(val % 256, (val / 256) % 256, (val / 65536) % 256)
  }

  /** One register straight from the bytes that hold it. */
  function RegOf(b: Block, rem: nat): Reg
    requires rem < 4
  {
    if rem == 0 then b.b0 % 64
    else if rem == 1 then b.b0 / 64 + (b.b1 % 16) * 4
    else if rem == 2 then b.b1 / 16 + (b.b2 % 4) * 16
    else b.b2 / 4
  }

  function Lane(r: (Reg, Reg, Reg, Reg), rem: nat): Reg
    requires rem < 4
  {
    if rem == 0 then r.0 else if rem == 1 then r.1 else if rem == 2 then r.2 else r.3
  }

  /** Replaces one register of a block. */
  function Repack(b: Block, rem: nat, v: Reg): Block
    requires rem < 4
  {
    var r := Unpack3(b);
    Pack3(if rem == 0 then v else r.0, if rem == 1 then v else r.1,
          if rem == 2 then v else r.2, if rem == 3 then v else r.3)
  }

  /** Division by a power of two recovers quotient and remainder. */
  lemma {:induction false} Split(q: int, r: int, d: int)
    requires 0 <= r < d
    requires d == 4 || d == 16 || d == 64 || d == 256 || d == 4096 || d == 65536 || d == 262144
    ensures (q * d + r) / d == q && (q * d + r) % d == r
  {
  }

  lemma {:induction false} BytesOf(val: int)
    requires 0 <= val < 16777216
    ensures (val % 256) + ((val / 256) % 256) * 256 + ((val / 65536) % 256) * 65536 == val
  {
    var x := val / 256;
    assert val == x * 256 + val % 256;
    var y := x / 256;
    assert x == y * 256 + x % 256;
    Split(y, (x % 256) * 256 + val % 256, 65536);
  }

  lemma {:induction false} PackValue(r0: Reg, r1: Reg, r2: Reg, r3: Reg)
    ensures var b := Pack3(r0, r1, r2, r3);
            b.b0 + b.b1 * 256 + b.b2 * 65536 == r0 + r1 * 64 + r2 * 4096 + r3 * 262144
  {
    BytesOf(r0 + r1 * 64 + r2 * 4096 + r3 * 262144);
  }

  lemma {:induction false} LowDigits(r0: int, r1: int, high: int)
    requires 0 <= r0 < 64 && 0 <= r1 < 64
    ensures (r0 + r1 * 64 + high * 4096) % 64 == r0 && ((r0 + r1 * 64 + high * 4096) / 64) % 64 == r1
  {
    var rest := r1 + high * 64;
    assert r0 + r1 * 64 + high * 4096 == rest * 64 + r0;
    Split(rest, r0, 64);
    Split(high, r1, 64);
  }

  lemma {:induction false} HighDigits(low: int, r2: int, r3: int)
    requires 0 <= low < 4096 && 0 <= r2 < 64 && 0 <= r3 < 64
    ensures ((low + r2 * 4096 + r3 * 262144) / 4096) % 64 == r2
    ensures ((low + r2 * 4096 + r3 * 262144) / 262144) % 64 == r3
  {
    var upper := r2 + r3 * 64;
    assert low + r2 * 4096 + r3 * 262144 == upper * 4096 + low;
    Split(upper, low, 4096);
    Split(r3, r2, 64);
    assert low + r2 * 4096 + r3 * 262144 == r3 * 262144 + (low + r2 * 4096);
    Split(r3, low + r2 * 4096, 262144);
  }

  lemma {:induction false} UnpackPack(r0: Reg, r1: Reg, r2: Reg, r3: Reg)
    ensures Unpack3(Pack3(r0, r1, r2, r3)) == (r0, r1, r2, r3)
  {
    PackValue(r0, r1, r2, r3);
    LowDigits(r0, r1, r2 + r3 * 64);
    HighDigits(r0 + r1 * 64, r2, r3);
    hide Pack3;
  }

  /** Reading one register directly agrees with unpacking the block. */
  lemma {:induction false} RegOfUnpack(b: Block, rem: nat)
    requires rem < 4
    ensures RegOf(b, rem) == Lane(Unpack3(b), rem)
  {
    ByteParts(b);
    var q0: int, q1: int, q2: int := b.b0 / 64, b.b1 / 16, b.b2 / 4;
    var m0: int, m1: int, m2: int := b.b0 % 64, b.b1 % 16, b.b2 % 4;
    LowDigits(m0, q0 + m1 * 4, q1 + m2 * 16 + q2 * 64);
    HighDigits(m0 + (q0 + m1 * 4) * 64, q1 + m2 * 16, q2);
  }

  /** The bytes of a block as pieces of registers. */
  lemma {:induction false} ByteParts(b: Block)
    ensures var q0, q1, q2 := b.b0 / 64, b.b1 / 16, b.b2 / 4;
            var m0, m1, m2 := b.b0 % 64, b.b1 % 16, b.b2 % 4;
            && 0 <= m0 < 64 && 0 <= q0 + m1 * 4 < 64 && 0 <= q1 + m2 * 16 < 64 && 0 <= q2 < 64
            && b.b0 + b.b1 * 256 + b.b2 * 65536 == m0 + (q0 + m1 * 4) * 64 + (q1 + m2 * 16) * 4096 + q2 * 262144
  {
  }

  /** Replacing a register changes that one and no other. */
  lemma {:induction false} RepackReads(b: Block, rem: nat, v: Reg, other: nat)
    requires rem < 4 && other < 4
    ensures RegOf(Repack(b, rem, v), other) == if other == rem then v else RegOf(b, other)
  {
    var r := Unpack3(b);
    UnpackPack(if rem == 0 then v else r.0, if rem == 1 then v else r.1,
               if rem == 2 then v else r.2, if rem == 3 then v else r.3);
    RegOfUnpack(Repack(b, rem, v), other);
    RegOfUnpack(b, other);
  }

  // ----- The packed data area ----------------------------------------------

  function BlockAt(data: Bytes, k: nat): Block
    requires |data| == DATA_SIZE && k < BLOCKS
  {
    Block(data[3 * k], data[3 * k + 1], data[3 * k + 2])
  }

  /** The register values a packed data area stands for. */
  function Registers(data: Bytes): (regs: seq<Reg>)
    requires |data| == DATA_SIZE
    ensures |regs| == REGISTERS
  {
    seq(REGISTERS, i requires 0 <= i < REGISTERS => RegOf(BlockAt(data, i / 4), i % 4))
  }

  /** Reads one register. */
  function RegGet(data: Bytes, idx: nat): (r: Reg)
    requires |data| == DATA_SIZE && idx < REGISTERS
    ensures r == Registers(data)[idx]
  {
    RegOf(BlockAt(data, idx / 4), idx % 4)
  }

  function PutBlock(data: Bytes, k: nat, b: Block): (r: Bytes)
    requires |data| == DATA_SIZE && k < BLOCKS
    ensures |r| == DATA_SIZE
  {
    data[3 * k := b.b0][3 * k + 1 := b.b1][3 * k + 2 := b.b2]
  }

  /** Overwrites one register. */
  function RegSet(data: Bytes, idx: nat, v: Reg): (r: Bytes)
    requires |data| == DATA_SIZE && idx < REGISTERS
    ensures |r| == DATA_SIZE
  {
    PutBlock(data, idx / 4, Repack(BlockAt(data, idx / 4), idx % 4, v))
  }

  lemma {:induction false} PutBlockReads(data: Bytes, k: nat, b: Block, j: nat)
    requires |data| == DATA_SIZE && k < BLOCKS && j < BLOCKS
    ensures BlockAt(PutBlock(data, k, b), j) == if j == k then b else BlockAt(data, j)
  {
  }

  lemma {:induction false} RegSetReads(data: Bytes, idx: nat, v: Reg)
    requires |data| == DATA_SIZE && idx < REGISTERS
    ensures Registers(RegSet(data, idx, v)) == Registers(data)[idx := v]
  {
    var b := Repack(BlockAt(data, idx / 4), idx % 4, v);
    forall i | 0 <= i < REGISTERS
      ensures Registers(RegSet(data, idx, v))[i] == Registers(data)[idx := v][i]
    {
      hide Repack, RegOf, PutBlock, BlockAt;
      PutBlockReads(data, idx / 4, b, i / 4);
      RepackReads(BlockAt(data, idx / 4), idx % 4, v, i % 4);
    }
  }

  /** An all-zero data area holds only zero registers. */
  lemma {:induction false} ZeroRegisters(data: Bytes, i: nat)
    requires |data| == DATA_SIZE && i < REGISTERS
    requires forall j :: 0 <= j < DATA_SIZE ==> data[j] == 0
    ensures Registers(data)[i] == 0
  {
  }

  lemma {:induction false} AllZeroRegisters(data: Bytes)
    requires |data| == DATA_SIZE && forall j :: 0 <= j < DATA_SIZE ==> data[j] == 0
    ensures forall i :: 0 <= i < REGISTERS ==> Registers(data)[i] == 0
  {
    forall i | 0 <= i < REGISTERS
      ensures Registers(data)[i] == 0
    {
      ZeroRegisters(data, i);
    }
  }
}
