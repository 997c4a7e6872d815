/**
  Sparse HyperLogLog registers: a run-length stream of one-byte opcodes.  A byte
  below 128 is one register with value byte + 1; a byte b from 128 up is a run of
  b - 127 zero registers.
 */
module HllSparse {
  import opened Common

  /** Largest register value an opcode may carry. */
  const MAX_VALUE := 51

  predicate IsRun(b: byte) {
    b >= 128
  }

  function OpLen(b: byte): nat {
    if IsRun(b) then b - 127 else 1
  }

  predicate Legal(b: byte) {
    IsRun(b) || b < MAX_VALUE
  }

  function Zeros(n: nat): (r: seq<nat>)
    ensures |r| == n
    ensures forall i :: 0 <= i < n ==> r[i] == 0
  {
    seq(n, _ => 0)
  }

  function OpRegs(b: byte): (r: seq<nat>)
    ensures |r| == OpLen(b)
  {
    if IsRun(b) then Zeros(b - 127) else [b + 1]
  }

  /** The register values a stream stands for. */
  function Expand(ops: Bytes): (r: seq<nat>)
    ensures |r| >= |ops|
  {
    if ops == [] then [] else OpRegs(ops[0]) + Expand(ops[1..])
  }

  lemma {:induction false} ExpandConcat(a: Bytes, b: Bytes)
    ensures Expand(a + b) == Expand(a) + Expand(b)
    decreases |a|
  {
    if a == [] {
      assert a + b == b;
    } else {
      hide OpRegs;
      ExpandConcat(a[1..], b);
      assert (a + b)[1..] == a[1..] + b;
      assert (a + b)[0] == a[0];
      assert OpRegs(a[0]) + (Expand(a[1..]) + Expand(b)) == (OpRegs(a[0]) + Expand(a[1..])) + Expand(b);
    }
  }

  /** A stream around one of its opcodes. */
  lemma {:induction false} ExpandAt(ops: Bytes, pos: nat)
    requires pos < |ops|
    ensures Expand(ops[..pos + 1]) == Expand(ops[..pos]) + OpRegs(ops[pos])
    ensures Expand(ops) == Expand(ops[..pos]) + OpRegs(ops[pos]) + Expand(ops[pos + 1..])
  {
    ExpandConcat(ops[..pos], [ops[pos]]);
    assert ops[..pos] + [ops[pos]] == ops[..pos + 1];
    ExpandConcat(ops[..pos + 1], ops[pos + 1..]);
    assert ops[..pos + 1] + ops[pos + 1..] == ops;
    assert Expand([ops[pos]]) == OpRegs(ops[pos]) + Expand([]);
  }

  /** Finds the opcode that covers a register: its place, the first register it covers, and how many. */
  method Locate(ops: Bytes, idx: nat) returns (hit: Option<(nat, nat, nat)>)
    ensures hit.None? <==> idx >= |Expand(ops)|
    ensures hit.Some? ==>
      var (pos, offset, len) := hit.value;
      && pos < |ops|
      && offset == |Expand(ops[..pos])|
      && len == OpLen(ops[pos])
      && offset <= idx < offset + len
  {
    var offset := 0;
    for pos := 0 to |ops|
      invariant offset == |Expand(ops[..pos])| && offset <= idx
    {
      var len := OpLen(ops[pos]);
      ExpandAt(ops, pos);
      if idx < offset + len {
        return Some((pos, offset, len));
      }
      offset := offset + len;
    }
    assert ops[..|ops|] == ops;
    return None;
  }

  method SparseGet(ops: Bytes, idx: nat) returns (v: nat)
    ensures v == if idx < |Expand(ops)| then Expand(ops)[idx] else 0
  {
    var hit := Locate(ops, idx);
    if hit.None? {
      return 0;
    }
    var pos := hit.value.0;
    ExpandAt(ops, pos);
    v := if IsRun(ops[pos]) then 0 else ops[pos] + 1;
  }

  /** The opcodes that replace a zero run once one register inside it is set. */
  function SplitRun(before: nat, val: nat, after: nat): (ops: Bytes)
    requires before < 128 && after < 128 && 1 <= val <= 128
    ensures 1 <= |ops| <= 3
    ensures forall i :: 0 <= i < |ops| ==> Legal(ops[i]) || val > MAX_VALUE
  {
    (if before == 0 then [] else [before + 127]) + [val - 1] + (if after == 0 then [] else [after + 127])
  }

  lemma {:induction false} SplitRunExpands(before: nat, val: nat, after: nat)
    requires before < 128 && after < 128 && 1 <= val <= 128
    ensures Expand(SplitRun(before, val, after)) == Zeros(before) + [val] + Zeros(after)
  {
    var left: Bytes := if before == 0 then [] else [before + 127];
    var right: Bytes := if after == 0 then [] else [after + 127];
    ExpandConcat(left, [val - 1] + right);
    ExpandConcat([val - 1], right);
    assert left + ([val - 1] + right) == SplitRun(before, val, after);
    assert Expand(left) == Zeros(before) && Expand(right) == Zeros(after) && Expand([val - 1]) == [val];
  }

  /** Replacing one opcode by others that cover as many registers. */
  lemma {:induction false} SpliceExpands(ops: Bytes, pos: nat, middle: Bytes)
    requires pos < |ops|
    ensures Expand(ops[..pos] + middle + ops[pos + 1..]) == Expand(ops[..pos]) + Expand(middle) + Expand(ops[pos + 1..])
  {
    ExpandConcat(ops[..pos] + middle, ops[pos + 1..]);
    ExpandConcat(ops[..pos], middle);
  }

  lemma {:induction false} UpdateMiddle<T>(a: seq<T>, m: seq<T>, b: seq<T>, j: nat, v: T)
    requires j < |m|
    ensures |a| + j < |a + m + b| && (a + m + b)[|a| + j] == m[j]
    ensures a + m[j := v] + b == (a + m + b)[|a| + j := v]
  {
  }

  lemma {:induction false} ExpandValue(b: byte)
    requires !IsRun(b)
    ensures Expand([b]) == [b + 1]
  {
    assert [b][1..] == [];
  }

  lemma {:induction false} RaiseValue(ops: Bytes, pos: nat, idx: nat, val: nat)
    requires pos < |ops| && !IsRun(ops[pos]) && idx == |Expand(ops[..pos])| && 1 <= val <= 128
    ensures idx < |Expand(ops)| && Expand(ops)[idx] == ops[pos] + 1
    ensures Expand(ops[pos := val - 1]) == Expand(ops)[idx := val]
  {
    hide Expand;
    ExpandValue(val - 1);
    ExpandAt(ops, pos);
    SpliceExpands(ops, pos, [val - 1]);
    assert ops[pos := val - 1] == ops[..pos] + [val - 1] + ops[pos + 1..];
    UpdateMiddle(Expand(ops[..pos]), OpRegs(ops[pos]), Expand(ops[pos + 1..]), 0, val);
  }

  lemma {:induction false} RaiseInRun(ops: Bytes, pos: nat, idx: nat, val: nat)
    requires pos < |ops| && IsRun(ops[pos]) && 1 <= val <= 128
    requires |Expand(ops[..pos])| <= idx < |Expand(ops[..pos])| + OpLen(ops[pos])
    ensures idx < |Expand(ops)| && Expand(ops)[idx] == 0
    ensures
      var before := idx - |Expand(ops[..pos])|;
      var middle := SplitRun(before, val, OpLen(ops[pos]) - 1 - before);
      Expand(ops[..pos] + middle + ops[pos + 1..]) == Expand(ops)[idx := val]
  {
    hide Expand;
    var before := idx - |Expand(ops[..pos])|;
    var after := OpLen(ops[pos]) - 1 - before;
    UpdateMiddle(Expand(ops[..pos]), OpRegs(ops[pos]), Expand(ops[pos + 1..]), before, val);
    ExpandAt(ops, pos);
    SplitRunExpands(before, val, after);
    SpliceExpands(ops, pos, SplitRun(before, val, after));
    assert Zeros(before) + [val] + Zeros(after) == OpRegs(ops[pos])[before := val];
  }

  /** The bytes a stream grows by when a register is raised: none at a value, one for each side of a run cut off. */
  function Growth(ops: Bytes, idx: nat): (g: nat)
    ensures g <= 2
  {
    if ops == [] then 0
    else if idx >= OpLen(ops[0]) then Growth(ops[1..], idx - OpLen(ops[0]))
    else if !IsRun(ops[0]) then 0
    else (if idx == 0 then 0 else 1) + (if idx == OpLen(ops[0]) - 1 then 0 else 1)
  }

  /** The growth is decided by the opcode that covers the register. */
  lemma {:induction false} GrowthAt(ops: Bytes, pos: nat, idx: nat)
    requires pos < |ops| && |Expand(ops[..pos])| <= idx < |Expand(ops[..pos])| + OpLen(ops[pos])
    ensures
      var before := idx - |Expand(ops[..pos])|;
      Growth(ops, idx) ==
      if !IsRun(ops[pos]) then 0 else |SplitRun(before, 1, OpLen(ops[pos]) - 1 - before)| - 1
    decreases pos
  {
    if pos > 0 {
      assert ops[..pos][1..] == ops[1..][..pos - 1];
      GrowthAt(ops[1..], pos - 1, idx - OpLen(ops[0]));
    }
  }

  /** Raises one register to `val` if it is lower; the stream grows by at most two bytes. */
  method SparseUpdate(ops: Bytes, idx: nat, val: nat) returns (updated: bool, after: Bytes)
    requires 1 <= val <= MAX_VALUE
    requires forall i :: 0 <= i < |ops| ==> Legal(ops[i])
    ensures forall i :: 0 <= i < |after| ==> Legal(after[i])
    ensures |after| == |ops| + (if updated then Growth(ops, idx) else 0) <= |ops| + 2
    ensures updated <==> idx < |Expand(ops)| && Expand(ops)[idx] < val
    ensures Expand(after) == if updated then Expand(ops)[idx := val] else Expand(ops)
    ensures !updated ==> after == ops
  {
    hide Expand;
    updated, after := false, ops;
    var hit := Locate(ops, idx);
    if hit.None? {
      return;
    }
    var (pos, offset, len) := hit.value;
    GrowthAt(ops, pos, idx);
    if !IsRun(ops[pos]) {
      RaiseValue(ops, pos, idx, val);
      if val <= ops[pos] + 1 {
        return;
      }
      after := ops[pos := val - 1];
    } else {
      RaiseInRun(ops, pos, idx, val);
      after := ops[..pos] + SplitRun(idx - offset, val, offset + len - 1 - idx) + ops[pos + 1..];
    }
    updated := true;
  }
}
