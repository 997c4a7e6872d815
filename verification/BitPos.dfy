/**
  BITPOS: the first set or clear bit of a bitmap range.

  A machine word is modelled as its bits, most significant first: a big-endian
  load is a run of bytes laid side by side, `!` flips every bit, `leading_zeros`
  is the index of the first set bit, and a vector comparison is a comparison of
  32 bytes with one repeated byte.
 */
module BitPos {
  import opened Common

  type Octet = b: seq<bool> | |b| == 8 witness [false, false, false, false, false, false, false, false]

  type Bitmap = seq<Octet>

  function Bit(input: Bitmap, pos: nat): bool
    requires pos < 8 * |input|
  {
    input[pos / 8][pos % 8]
  }

  /** No bit of the range has the wanted value. */
  ghost predicate Absent(input: Bitmap, want: bool, lo: nat, hi: nat)
    requires hi <= 8 * |input|
  {
    forall q :: lo <= q < hi ==> Bit(input, q) != want
  }

  /** The answer of a search in the bit range [lo, hi): the smallest hit, or -1 when there is none. */
  ghost predicate IsFirst(input: Bitmap, want: bool, lo: nat, hi: nat, r: int)
    requires hi <= 8 * |input|
  {
    if r == -1 then Absent(input, want, lo, hi)
    else lo <= r < hi && Bit(input, r) == want && Absent(input, want, lo, r)
  }

  // ----- Words -------------------------------------------------------------

  /** The big-endian word of `n` bytes at a byte offset. */
  function Load(input: Bitmap, at: nat, n: nat): (w: seq<bool>)
    requires at + n <= |input|
    ensures |w| == 8 * n
  {
    seq(8 * n, q requires 0 <= q < 8 * n => Bit(input, 8 * at + q))
  }

  function Not(w: seq<bool>): (r: seq<bool>)
    ensures |r| == |w|
  {
    seq(|w|, i requires 0 <= i < |w| => !w[i])
  }

  function LeadingZeros(w: seq<bool>): (z: nat)
    ensures z <= |w|
    ensures forall i :: 0 <= i < z ==> !w[i]
    ensures z < |w| ==> w[z]
  {
    if w == [] || w[0] then 0 else 1 + LeadingZeros(w[1..])
  }

  predicate IsZero(w: seq<bool>) {
    forall i :: 0 <= i < |w| ==> !w[i]
  }

  /** The loaded word with the wanted bits turned into ones. */
  function Wanted(input: Bitmap, at: nat, n: nat, want: bool): (w: seq<bool>)
    requires at + n <= |input|
    ensures |w| == 8 * n
    ensures forall q :: 0 <= q < 8 * n ==> w[q] == (Bit(input, 8 * at + q) == want)
  {
    if want then Load(input, at, n) else Not(Load(input, at, n))
  }

  lemma {:induction false} WordHit(input: Bitmap, at: nat, n: nat, want: bool)
    requires at + n <= |input|
    ensures IsZero(Wanted(input, at, n, want)) ==> Absent(input, want, 8 * at, 8 * (at + n))
    ensures !IsZero(Wanted(input, at, n, want)) ==>
      IsFirst(input, want, 8 * at, 8 * (at + n), 8 * at + LeadingZeros(Wanted(input, at, n, want)))
  {
    hide Bit;
    var w := Wanted(input, at, n, want);
    var z := LeadingZeros(w);
    forall q | 8 * at <= q < 8 * at + z
      ensures Bit(input, q) != want
    {
      assert !w[q - 8 * at];
    }
    if IsZero(w) {
      forall q | 8 * at <= q < 8 * (at + n)
        ensures Bit(input, q) != want
      {
        assert !w[q - 8 * at];
      }
    }
  }

  lemma {:induction false} Join(input: Bitmap, want: bool, lo: nat, mid: nat, hi: nat, r: int)
    requires lo <= mid <= hi <= 8 * |input|
    requires Absent(input, want, lo, mid) && IsFirst(input, want, mid, hi, r)
    ensures IsFirst(input, want, lo, hi, r)
  {
    hide Bit;
  }

  lemma {:induction false} Widen(input: Bitmap, want: bool, lo: nat, mid: nat, hi: nat, r: int)
    requires lo <= mid <= hi <= 8 * |input| && r >= 0 && IsFirst(input, want, lo, mid, r)
    ensures IsFirst(input, want, lo, hi, r)
  {
  }

  /** One rung of the ladder: a word of `n` bytes, if that many are left. */
  method Rung(input: Bitmap, want: bool, start: nat, curr: nat, end: nat, n: nat) returns (hit: int, next: nat)
    requires start <= curr <= end <= |input| && Absent(input, want, 8 * start, 8 * curr)
    ensures hit >= 0 ==> IsFirst(input, want, 8 * start, 8 * end, hit)
    ensures hit < 0 ==>
      && hit == -1
      && next == (if curr + n <= end then curr + n else curr)
      && Absent(input, want, 8 * start, 8 * next)
  {
    hide Bit, Load, Not;
    hit, next := -1, curr;
    if curr + n <= end {
      var w := Wanted(input, curr, n, want);
      WordHit(input, curr, n, want);
      if IsZero(w) {
        next := curr + n;
        Join(input, want, 8 * start, 8 * curr, 8 * next, -1);
      } else {
        hit := 8 * curr + LeadingZeros(w);
        Join(input, want, 8 * start, 8 * curr, 8 * (curr + n), hit);
        Widen(input, want, 8 * start, 8 * (curr + n), 8 * end, hit);
      }
    }
  }

  /** Eight bytes at a time, then one word of four, of two and of one byte. */
  method ByteSearchScalar(input: Bitmap, want: bool, start: nat, endInclusive: nat) returns (r: int)
    ensures start > endInclusive || start >= |input| ==> r == -1
    ensures start <= endInclusive && start < |input| ==>
      IsFirst(input, want, 8 * start, 8 * Min(endInclusive + 1, |input|), r)
  {
    hide Absent, IsFirst;
    if start > endInclusive || start >= |input| {
      return -1;
    }
    var end := Min(endInclusive + 1, |input|);
    var curr := start;
    NothingYet(input, want, 8 * start);
    while curr + 8 <= end
      invariant start <= curr <= end && Absent(input, want, 8 * start, 8 * curr)
    {
      r, curr := Rung(input, want, start, curr, end, 8);
      if r >= 0 {
        return;
      }
    }
    r, curr := Rung(input, want, start, curr, end, 4);
    if r >= 0 {
      return;
    }
    r, curr := Rung(input, want, start, curr, end, 2);
    if r >= 0 {
      return;
    }
    r, curr := Rung(input, want, start, curr, end, 1);
    if r >= 0 {
      return;
    }
    AllAbsent(input, want, 8 * start, 8 * end);
    r := -1;
  }

  lemma {:induction false} NothingYet(input: Bitmap, want: bool, lo: nat)
    requires lo <= 8 * |input|
    ensures Absent(input, want, lo, lo)
  {
  }

  lemma {:induction false} AllAbsent(input: Bitmap, want: bool, lo: nat, hi: nat)
    requires hi <= 8 * |input| && Absent(input, want, lo, hi)
    ensures IsFirst(input, want, lo, hi, -1)
  {
  }

  // ----- Vectors of 32 bytes -----------------------------------------------

  /** The byte that holds no wanted bit. */
  function Blank(want: bool): Octet {
    seq(8, _ => !want)
  }

  /** Bytes that all equal the blank byte: what `simd_eq(..).all_true()` reports for a vector load. */
  predicate AllBlank(input: Bitmap, at: nat, n: nat, want: bool)
    requires at + n <= |input|
  {
    forall i :: at <= i < at + n ==> input[i] == Blank(want)
  }

  /** Lane-wise OR when looking for ones, AND when looking for zeros. */
  function Combine(want: bool, a: Octet, b: Octet): Octet {
    seq(8, i requires 0 <= i < 8 => if want then a[i] || b[i] else a[i] && b[i])
  }

  /** One lane of the four vectors of a 128-byte batch, combined. */
  function CombinedLane(input: Bitmap, at: nat, i: nat, want: bool): Octet
    requires at + 128 <= |input| && i < 32
  {
    Combine(want, Combine(want, input[at + i], input[at + 32 + i]),
                  Combine(want, input[at + 64 + i], input[at + 96 + i]))
  }

  /** The four-vector test of a 128-byte batch. */
  predicate BatchBlank(input: Bitmap, at: nat, want: bool)
    requires at + 128 <= |input|
  {
    forall i :: 0 <= i < 32 ==> CombinedLane(input, at, i, want) == Blank(want)
  }

  lemma {:induction false} CombineBlank(want: bool, a: Octet, b: Octet)
    ensures Combine(want, a, b) == Blank(want) <==> a == Blank(want) && b == Blank(want)
  {
    var c := Combine(want, a, b);
    if c == Blank(want) {
      forall i | 0 <= i < 8
        ensures a[i] == !want && b[i] == !want
      {
        assert c[i] == Blank(want)[i];
      }
    }
  }

  lemma {:induction false} LaneMeans(input: Bitmap, at: nat, i: nat, want: bool)
    requires at + 128 <= |input| && i < 32
    ensures CombinedLane(input, at, i, want) == Blank(want) <==>
      input[at + i] == input[at + 32 + i] == input[at + 64 + i] == input[at + 96 + i] == Blank(want)
  {
    hide Combine, Blank;
    var x := Combine(want, input[at + i], input[at + 32 + i]);
    var y := Combine(want, input[at + 64 + i], input[at + 96 + i]);
    CombineBlank(want, input[at + i], input[at + 32 + i]);
    CombineBlank(want, input[at + 64 + i], input[at + 96 + i]);
    CombineBlank(want, x, y);
  }

  lemma {:induction false} BatchMeans(input: Bitmap, at: nat, want: bool)
    requires at + 128 <= |input|
    ensures BatchBlank(input, at, want) <==> AllBlank(input, at, 128, want)
  {
    hide CombinedLane, Blank;
    if BatchBlank(input, at, want) {
      forall k | at <= k < at + 128
        ensures input[k] == Blank(want)
      {
        var i := (k - at) % 32;
        assert CombinedLane(input, at, i, want) == Blank(want);
        LaneMeans(input, at, i, want);
        assert k == at + i || k == at + 32 + i || k == at + 64 + i || k == at + 96 + i;
      }
    }
    if AllBlank(input, at, 128, want) {
      forall i | 0 <= i < 32
        ensures CombinedLane(input, at, i, want) == Blank(want)
      {
        LaneMeans(input, at, i, want);
      }
    }
  }

  lemma {:induction false} BlankAbsent(input: Bitmap, at: nat, n: nat, want: bool)
    requires at + n <= |input|
    ensures AllBlank(input, at, n, want) <==> Absent(input, want, 8 * at, 8 * (at + n))
  {
    if AllBlank(input, at, n, want) {
      forall q | 8 * at <= q < 8 * (at + n)
        ensures Bit(input, q) != want
      {
        assert input[q / 8] == Blank(want);
      }
    }
    if Absent(input, want, 8 * at, 8 * (at + n)) {
      forall i | at <= i < at + n
        ensures input[i] == Blank(want)
      {
        forall j | 0 <= j < 8
          ensures input[i][j] == !want
        {
          assert (8 * i + j) / 8 == i && (8 * i + j) % 8 == j;
          assert Bit(input, 8 * i + j) != want;
        }
      }
    }
  }

  /**
    Finds the hit inside 32 bytes known to hold one.  The scan never runs past the
    fourth word, so the unreachable case of the code is never reached.
   */
  method Scan32(input: Bitmap, want: bool, at: nat) returns (r: int)
    requires at + 32 <= |input| && !AllBlank(input, at, 32, want)
    ensures r >= 0 && IsFirst(input, want, 8 * at, 8 * (at + 32), r)
  {
    hide Bit, Load, Not, AllBlank;
    BlankAbsent(input, at, 32, want);
    var sub := 0;
    WordHit(input, at, 8, want);
    while IsZero(Wanted(input, at + 8 * sub, 8, want))
      invariant 0 <= sub < 4 && Absent(input, want, 8 * at, 8 * (at + 8 * sub))
      decreases 4 - sub
    {
      WordHit(input, at + 8 * sub, 8, want);
      Join(input, want, 8 * at, 8 * (at + 8 * sub), 8 * (at + 8 * (sub + 1)), -1);
      sub := sub + 1;
    }
    WordHit(input, at + 8 * sub, 8, want);
    r := 8 * (at + 8 * sub) + LeadingZeros(Wanted(input, at + 8 * sub, 8, want));
    Join(input, want, 8 * at, 8 * (at + 8 * sub), 8 * (at + 8 * (sub + 1)), r);
    Widen(input, want, 8 * at, 8 * (at + 8 * (sub + 1)), 8 * (at + 32), r);
  }

  /** Picks the first of four vectors that is not blank. */
  method PickVector(input: Bitmap, want: bool, at: nat) returns (base: nat)
    requires at + 128 <= |input| && !AllBlank(input, at, 128, want)
    ensures at <= base <= at + 96 && !AllBlank(input, base, 32, want) && AllBlank(input, at, base - at, want)
  {
    hide Blank;
    if !AllBlank(input, at, 32, want) {
      base := at;
    } else if !AllBlank(input, at + 32, 32, want) {
      base := at + 32;
    } else if !AllBlank(input, at + 64, 32, want) {
      base := at + 64;
    } else {
      base := at + 96;
    }
  }

  /** Batches of 128 bytes, then vectors of 32, then the scalar ladder. */
  method ByteSearchSimd(input: Bitmap, want: bool, start: nat, end: nat) returns (r: int)
    requires start < end <= |input|
    ensures IsFirst(input, want, 8 * start, 8 * end, r)
  {
    hide Absent, IsFirst, AllBlank, BatchBlank;
    var curr := start;
    NothingYet(input, want, 8 * start);
    while curr + 128 <= end
      invariant start <= curr <= end && Absent(input, want, 8 * start, 8 * curr)
    {
      BatchMeans(input, curr, want);
      if !BatchBlank(input, curr, want) {
        var base := PickVector(input, want, curr);
        BlankAbsent(input, curr, base - curr, want);
        AllAbsent(input, want, 8 * curr, 8 * base);
        r := Scan32(input, want, base);
        Join(input, want, 8 * curr, 8 * base, 8 * (base + 32), r);
        Join(input, want, 8 * start, 8 * curr, 8 * (base + 32), r);
        Widen(input, want, 8 * start, 8 * (base + 32), 8 * end, r);
        return;
      }
      BlankAbsent(input, curr, 128, want);
      Extend(input, want, 8 * start, 8 * curr, 8 * (curr + 128));
      curr := curr + 128;
    }
    while curr + 32 <= end
      invariant start <= curr <= end && Absent(input, want, 8 * start, 8 * curr)
    {
      if !AllBlank(input, curr, 32, want) {
        r := Scan32(input, want, curr);
        Join(input, want, 8 * start, 8 * curr, 8 * (curr + 32), r);
        Widen(input, want, 8 * start, 8 * (curr + 32), 8 * end, r);
        return;
      }
      BlankAbsent(input, curr, 32, want);
      Extend(input, want, 8 * start, 8 * curr, 8 * (curr + 32));
      curr := curr + 32;
    }
    r := ByteSearchScalar(input, want, curr, end - 1);
    if curr == end {
      NothingYet(input, want, 8 * end);
      AllAbsent(input, want, 8 * end, 8 * end);
    }
    Join(input, want, 8 * start, 8 * curr, 8 * end, r);
  }

  lemma {:induction false} Extend(input: Bitmap, want: bool, lo: nat, mid: nat, hi: nat)
    requires lo <= mid <= hi <= 8 * |input| && Absent(input, want, lo, mid) && Absent(input, want, mid, hi)
    ensures Absent(input, want, lo, hi)
  {
    hide Bit;
  }

  /** Vector search for 32 bytes or more, scalar below. */
  method ByteSearch(input: Bitmap, want: bool, start: nat, endInclusive: nat) returns (r: int)
    ensures start > endInclusive || start >= |input| ==> r == -1
    ensures start <= endInclusive && start < |input| ==>
      IsFirst(input, want, 8 * start, 8 * Min(endInclusive + 1, |input|), r)
  {
    hide IsFirst;
    if start > endInclusive || start >= |input| {
      return -1;
    }
    var last := Min(endInclusive, |input| - 1);
    if last - start + 1 >= 32 {
      r := ByteSearchSimd(input, want, start, last + 1);
    } else {
      r := ByteSearchScalar(input, want, start, last);
    }
  }

  // ----- Bits inside a byte ------------------------------------------------

  /** 0xFF shifted right by `k`. */
  function OnesAfter(k: nat): Octet
    requires k <= 8
  {
    seq(8, i => i >= k)
  }

  /** The table entry for the bits from `left` up to `right`. */
  function RangeMask(left: nat, right: nat): (m: Octet)
    requires left <= 8 && right <= 8
  {
    seq(8, i requires 0 <= i < 8 => OnesAfter(left)[i] != OnesAfter(right)[i])
  }

  function And(a: Octet, b: Octet): Octet {
    seq(8, i requires 0 <= i < 8 => a[i] && b[i])
  }

  /** A byte widened to 64 bits and shifted left by 56 + `left`. */
  function ShiftOut(payload: Octet, left: nat): (w: seq<bool>)
    requires left < 8
    ensures |w| == 64
  {
    payload[left..] + seq(56 + left, _ => false)
  }

  /** The shifted byte with the wanted bits turned into ones. */
  function HitWord(payload: Octet, left: nat, want: bool): (w: seq<bool>)
    requires left < 8
    ensures |w| == 64
  {
    if want then ShiftOut(payload, left) else Not(ShiftOut(payload, left))
  }

  /** Comparing a masked byte with the masked blank byte, and where the shifted word puts the first hit. */
  lemma {:induction false} MaskBits(left: nat, right: nat, i: nat)
    requires left < right <= 8 && i < 8
    ensures RangeMask(left, right)[i] == (left <= i < right)
  {
    assert OnesAfter(left)[i] == (i >= left) && OnesAfter(right)[i] == (i >= right);
  }

  lemma {:induction false} MaskedHit(b: Octet, want: bool, left: nat, right: nat)
    requires left < right <= 8
    ensures
      var mask := RangeMask(left, right);
      var payload := And(b, mask);
      var z := LeadingZeros(HitWord(payload, left, want));
      if payload == And(Blank(want), mask)
      then forall i :: left <= i < right ==> b[i] != want
      else left + z < right && b[left + z] == want && forall i :: left <= i < left + z ==> b[i] != want
  {
    hide RangeMask, And, HitWord, Blank;
    var mask := RangeMask(left, right);
    forall i | 0 <= i < 8
      ensures mask[i] == (left <= i < right)
    {
      MaskBits(left, right, i);
    }
    MaskedBlank(b, mask, want, left, right);
    MaskedWord(b, mask, want, left, right);
    var w := HitWord(And(b, mask), left, want);
    if And(b, mask) != And(Blank(want), mask) {
      var i :| left <= i < right && b[i] == want;
      assert w[i - left] == (b[left + (i - left)] == want);
      forall k | left <= k < left + LeadingZeros(w)
        ensures b[k] != want
      {
        assert !w[k - left] && w[k - left] == (b[left + (k - left)] == want);
      }
    }
  }

  lemma {:induction false} MaskedBlank(b: Octet, mask: Octet, want: bool, left: nat, right: nat)
    requires left < right <= 8 && forall i :: 0 <= i < 8 ==> mask[i] == (left <= i < right)
    ensures And(b, mask) == And(Blank(want), mask) <==> forall i :: left <= i < right ==> b[i] != want
  {
    var payload, blank := And(b, mask), And(Blank(want), mask);
    forall i | 0 <= i < 8
      ensures payload[i] == (b[i] && left <= i < right) && blank[i] == (!want && left <= i < right)
    {
    }
    if payload == blank {
      forall i | left <= i < right
        ensures b[i] != want
      {
        assert payload[i] == blank[i];
      }
    }
  }

  lemma {:induction false} MaskedWord(b: Octet, mask: Octet, want: bool, left: nat, right: nat)
    requires left < right <= 8 && forall i :: 0 <= i < 8 ==> mask[i] == (left <= i < right)
    ensures
      var w := HitWord(And(b, mask), left, want);
      forall j :: 0 <= j < right - left ==> w[j] == (b[left + j] == want)
  {
    var payload := And(b, mask);
    var shifted := ShiftOut(payload, left);
    forall j | 0 <= j < right - left
      ensures shifted[j] == b[left + j]
    {
      assert shifted[j] == payload[left + j];
    }
  }

  /** A hit inside one byte is a hit in the bitmap. */
  lemma {:induction false} ByteBits(input: Bitmap, want: bool, at: nat, left: nat, right: nat, r: int)
    requires at < |input| && left < right <= 8
    requires if r == -1 then forall i :: left <= i < right ==> input[at][i] != want
             else left <= r < right && input[at][r] == want && forall i :: left <= i < r ==> input[at][i] != want
    ensures IsFirst(input, want, 8 * at + left, 8 * at + right, if r == -1 then -1 else 8 * at + r)
  {
    forall q | 8 * at + left <= q < 8 * at + right
      ensures q / 8 == at && q % 8 == q - 8 * at
    {
    }
  }

  /** Searches the part of one byte between two bit offsets. */
  method MaskedSearch(input: Bitmap, want: bool, at: nat, left: nat, right: nat) returns (r: int)
    requires at < |input| && left < right <= 8
    ensures IsFirst(input, want, 8 * at + left, 8 * at + right, r)
  {
    hide RangeMask, And, HitWord, IsFirst, Blank;
    var mask := RangeMask(left, right);
    var payload := And(input[at], mask);
    MaskedHit(input[at], want, left, right);
    if payload != And(Blank(want), mask) {
      var z := LeadingZeros(HitWord(payload, left, want));
      ByteBits(input, want, at, left, right, left + z);
      r := 8 * at + left + z;
    } else {
      ByteBits(input, want, at, left, right, -1);
      r := -1;
    }
  }

  /** Whole bytes by the byte search, ragged ends by masks. */
  method BitSearch(input: Bitmap, want: bool, start: int, endInclusive: int) returns (r: int)
    ensures start > endInclusive || start >= 8 * |input| || start < 0 ==> r == -1
    ensures 0 <= start <= endInclusive && start < 8 * |input| ==>
      IsFirst(input, want, start, Min(endInclusive + 1, 8 * |input|), r)
  {
    hide Absent, IsFirst;
    if start > endInclusive || start >= 8 * |input| || start < 0 {
      return -1;
    }
    var end := Min(endInclusive + 1, 8 * |input|);
    var current := start;
    NothingYet(input, want, start);
    while current < end
      invariant start <= current <= end && Absent(input, want, start, current)
    {
      var at, left := current / 8, current % 8;
      var stop: nat;
      if left == 0 && (end - current) / 8 > 0 {
        var fullBytes := (end - current) / 8;
        r := ByteSearch(input, want, at, at + fullBytes - 1);
        stop := current + 8 * fullBytes;
      } else {
        var right := if current + (8 - left) < end then 8 else (end - 1) % 8 + 1;
        SameByte(current, end);
        r := MaskedSearch(input, want, at, left, right);
        stop := 8 * at + right;
      }
      Join(input, want, start, current, stop, r);
      if r >= 0 {
        Widen(input, want, start, stop, end, r);
        return;
      }
      MissMeansAbsent(input, want, start, stop, r);
      current := stop;
    }
    AllAbsent(input, want, start, end);
    r := -1;
  }

  lemma {:induction false} MissMeansAbsent(input: Bitmap, want: bool, lo: nat, hi: nat, r: int)
    requires hi <= 8 * |input| && IsFirst(input, want, lo, hi, r) && r < 0
    ensures r == -1 && Absent(input, want, lo, hi)
  {
  }

  /** Where the last byte of the range is also the current one. */
  lemma {:induction false} SameByte(current: nat, end: nat)
    requires current < end
    ensures current + (8 - current % 8) >= end ==> (end - 1) / 8 == current / 8 && current % 8 <= (end - 1) % 8
  {
  }

  // ----- The command -------------------------------------------------------

  /** Remainder that truncates toward zero, as the machine's does. */
  function Rem(a: int, b: int): int
    requires b > 0
  {
    if a >= 0 then a % b else -((-a) % b)
  }

  /** How the command reads an offset: a negative one counts from the end, wrapping by remainder. */
  function Offset(offset: int, len: int): int
    requires len > 0
  {
    if offset >= 0 then offset else Rem(offset, len) + len
  }

  /** A clear bit is always found just past the data, unless an end inside the data was given. */
  predicate PastEndCounts(want: bool, end: int, len: int) {
    !want && (end == -1 || end >= len)
  }

  /**
    The answer of BITPOS on non-empty data, in units of `unit` bits (8 for BYTE offsets,
    1 for BIT offsets): the first hit in range, else the bit just past the data when that
    counts as a clear bit, else -1.
   */
  ghost predicate Answers(input: Bitmap, want: bool, start: int, end: int, unit: nat, r: int)
    requires input != [] && (unit == 1 || unit == 8)
  {
    var len := 8 * |input| / unit;
    var s, e := Offset(start, len), Offset(end, len);
    if s >= len || s > e then r == -1
    else
      var lo, hi := unit * s, Min(unit * (e + 1), 8 * |input|);
      if Absent(input, want, lo, hi)
      then r == if PastEndCounts(want, end, len) then 8 * |input| else -1
      else r >= 0 && IsFirst(input, want, lo, hi, r)
  }

  method BitPosDriver(input: Bitmap, start: int, end: int, searchFor: nat, offsetType: nat) returns (r: int)
    ensures input == [] ==> r == if searchFor == 0 && start <= 0 && end >= -1 then 0 else -1
    ensures input != [] && (searchFor > 1 || offsetType > 1) ==> r == -1
    ensures input != [] && searchFor <= 1 && offsetType == 0 ==> Answers(input, searchFor == 1, start, end, 8, r)
    ensures input != [] && searchFor <= 1 && offsetType == 1 ==> Answers(input, searchFor == 1, start, end, 1, r)
  {
    hide Absent, IsFirst, Rem;
    if input == [] {
      return if searchFor == 0 && start <= 0 && (end == -1 || end >= 0) then 0 else -1;
    }
    if searchFor > 1 || offsetType > 1 {
      return -1;
    }
    var want := searchFor == 1;
    if offsetType == 0 {
      var len := |input|;
      OffsetNonNegative(start, len);
      var s, e := Offset(start, len), Offset(end, len);
      if s >= len || s > e {
        return -1;
      }
      r := ByteSearch(input, want, s, if e >= len then len - 1 else e);
      Settled(input, want, 8 * s, Min(8 * (e + 1), 8 * len), r);
      if r < 0 {
        r := if !want && (end == -1 || end >= len) then 8 * len else -1;
      }
    } else {
      var len := 8 * |input|;
      OffsetNonNegative(start, len);
      OffsetNonNegative(end, len);
      if end < 0 {
        NegativeOffset(end, len);
      }
      var s, e := Offset(start, len), Offset(end, len);
      if s / 8 >= |input| || s / 8 > e / 8 {
        return -1;
      }
      r := BitSearch(input, want, s, if e / 8 >= |input| then len - 1 else e);
      if s <= e {
        Settled(input, want, s, Min(e + 1, len), r);
      }
      if r < 0 {
        r := if !want && (end == -1 || end >= len) then len else -1;
      }
    }
  }

  lemma {:induction false} OffsetNonNegative(offset: int, len: int)
    requires len > 0
    ensures Offset(offset, len) >= 0
  {
  }

  /**
    Where a negative offset lands: it counts from the end exactly when it is above minus
    the length, and it lands past the data exactly when it is a multiple of the length.
   */
  lemma {:induction false} NegativeOffset(offset: int, len: int)
    requires len > 0 && offset < 0
    ensures 1 <= Offset(offset, len) <= len
    ensures Offset(offset, len) == offset + len <==> -len < offset
    ensures Offset(offset, len) == len <==> (-offset) % len == 0
  {
    var m := -offset;
    assert Offset(offset, len) == len - m % len;
    if m < len {
      SmallRemainder(m, len);
    }
  }

  lemma {:induction false} SmallRemainder(m: int, len: int)
    requires 0 <= m < len
    ensures m % len == m
  {
  }

  /**
    In BITPOS's terms: a negative start above minus the length is the start that many units
    from the end, and a start that is a negative multiple of the length answers -1 whatever
    the data.
   */
  lemma {:induction false} NegativeStart(input: Bitmap, want: bool, start: int, end: int, unit: nat, r: int)
    requires input != [] && (unit == 1 || unit == 8) && start < 0
    ensures var len := 8 * |input| / unit;
            && (-len < start ==> (Answers(input, want, start, end, unit, r) <==>
                                  Answers(input, want, start + len, end, unit, r)))
            && ((-start) % len == 0 ==> (Answers(input, want, start, end, unit, r) <==> r == -1))
  {
    hide Absent, IsFirst;
    NegativeOffset(start, 8 * |input| / unit);
    hide Rem;
  }

  /** The failing input: a byte of ones, searched for a one from its last byte on. */
  lemma {:induction false} LastByteMissed(ones: Octet, r: int)
    requires ones == [true, true, true, true, true, true, true, true]
    ensures Bit([ones], 0) && (Answers([ones], true, -1, -1, 8, r) <==> r == -1)
    ensures Answers([ones], true, 0, 0, 8, 0)
  {
    NegativeStart([ones], true, -1, -1, 8, r);
    assert Bit([ones], 0) && !Absent([ones], true, 0, 8);
  }

  /** Two ends that stop the search at the same place and agree on what follows the data. */
  lemma {:induction false} SameEnd(input: Bitmap, want: bool, start: int, e1: int, e2: int, unit: nat, r: int)
    requires input != [] && (unit == 1 || unit == 8)
    requires
      var len := 8 * |input| / unit;
      && Min(Offset(e1, len), len - 1) == Min(Offset(e2, len), len - 1)
      && PastEndCounts(want, e1, len) == PastEndCounts(want, e2, len)
    ensures Answers(input, want, start, e1, unit, r) <==> Answers(input, want, start, e2, unit, r)
  {
    hide Absent, IsFirst, Offset, PastEndCounts;
    if unit == 1 {
      assert 8 * |input| / unit == 8 * |input|;
    } else {
      assert 8 * |input| / unit == |input|;
    }
  }

  /**
    The same for the end.  Minus one is everything and what follows it; an end above minus the
    length counts from the end; a negative multiple of the length is the last unit, not the first.
   */
  lemma {:induction false} NegativeEnd(input: Bitmap, want: bool, start: int, end: int, unit: nat, r: int)
    requires input != [] && (unit == 1 || unit == 8) && end < 0
    ensures
      var len := 8 * |input| / unit;
      && (end == -1 ==> (Answers(input, want, start, end, unit, r) <==> Answers(input, want, start, len, unit, r)))
      && (-len < end < -1 ==> (Answers(input, want, start, end, unit, r) <==>
                               Answers(input, want, start, end + len, unit, r)))
      && (end < -1 && (-end) % len == 0 ==> (Answers(input, want, start, end, unit, r) <==>
                                             Answers(input, want, start, len - 1, unit, r)))
  {
    hide Answers, Rem;
    var len := 8 * |input| / unit;
    NegativeOffset(end, len);
    if end == -1 {
      SameEnd(input, want, start, end, len, unit, r);
    } else {
      if -len < end {
        SameEnd(input, want, start, end, end + len, unit, r);
      }
      if (-end) % len == 0 {
        SameEnd(input, want, start, end, len - 1, unit, r);
      }
    }
  }

  /** The failing input: two bytes, none of whose ones is in the first, searched up to minus two. */
  lemma {:induction false} FirstByteOverrun(zeros: Octet, ones: Octet, r: int)
    requires zeros == [false, false, false, false, false, false, false, false]
    requires ones == [true, true, true, true, true, true, true, true]
    ensures Answers([zeros, ones], true, 0, -2, 8, 8)
    ensures Answers([zeros, ones], true, 0, 0, 8, r) <==> r == -1
  {
    var input := [zeros, ones];
    NegativeEnd(input, true, 0, -2, 8, 8);
    assert Bit(input, 8) && forall i :: 0 <= i < 8 ==> !Bit(input, i);
  }

  lemma {:induction false} Settled(input: Bitmap, want: bool, lo: nat, hi: nat, r: int)
    requires hi <= 8 * |input| && IsFirst(input, want, lo, hi, r)
    ensures Absent(input, want, lo, hi) <==> r == -1
    ensures r != -1 ==> r >= 0
  {
  }
}
