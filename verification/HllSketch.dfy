/**
  What a HyperLogLog sketch means: for each register, the largest rank among the
  hashes fed to it.  The order of feeding, duplicates, representation changes and
  the shape of merges play no part.
 */
module HllSketch {
  import opened Common

  const REGISTER_COUNT := 16384
  const QBIT := 50

  /** Largest hash plus one. */
  const HASH_BOUND: nat := 0x1_0000_0000_0000_0000

  type Hash = h: int | 0 <= h < HASH_BOUND

  function Pow2(n: nat): (p: nat)
    ensures p > 0
  {
    if n == 0 then 1 else 2 * Pow2(n - 1)
  }

  /** Leading zero bits of `h` written in `width` bits. */
  function LeadingZeros(h: nat, width: nat): (z: nat)
    requires h < Pow2(width)
    ensures z <= width
    ensures h < Pow2(width - z)
    ensures z < width ==> h >= Pow2(width - z - 1)
    decreases width
  {
    if width == 0 || h >= Pow2(width - 1) then 0 else 1 + LeadingZeros(h, width - 1)
  }

  /** Eight more bits. */
  lemma {:induction false} ByteMore(n: nat)
    ensures Pow2(n + 8) == 256 * Pow2(n)
  {
    assert Pow2(n + 2) == 4 * Pow2(n);
    assert Pow2(n + 4) == 4 * Pow2(n + 2);
    assert Pow2(n + 6) == 4 * Pow2(n + 4);
  }

  lemma {:induction false} HashWidth()
    ensures Pow2(64) == HASH_BOUND
  {
    assert Pow2(0) == 1;
    hide Pow2;
    ByteMore(0);
    ByteMore(8);
    ByteMore(16);
    ByteMore(24);
    ByteMore(32);
    ByteMore(40);
    ByteMore(48);
    ByteMore(56);
  }

  function Index(h: Hash): (i: nat)
    ensures i < REGISTER_COUNT
  {
    h % REGISTER_COUNT
  }

  /** Leading zeros plus one, capped at 51. */
  function Rank(h: Hash): (r: nat)
    ensures 1 <= r <= QBIT + 1
  {
    HashWidth();
    Min(LeadingZeros(h, 64), QBIT) + 1
  }

  /**
    The rank is the place of the first one bit, counted from the top of the 64; a hash with
    none in its top fifty has rank 51.
   */
  lemma {:induction false} RankMeans(h: Hash)
    ensures Rank(h) <= QBIT ==> Pow2(64 - Rank(h)) <= h < Pow2(65 - Rank(h))
    ensures Rank(h) == QBIT + 1 <==> h < Pow2(14)
  {
    HashWidth();
    hide Pow2;
    var z := LeadingZeros(h, 64);
    if z < QBIT {
      Pow2Grows(14, 64 - z - 1);
    } else {
      Pow2Grows(64 - z, 14);
    }
  }

  lemma {:induction false} Pow2Grows(a: nat, b: nat)
    requires a <= b
    ensures Pow2(a) <= Pow2(b)
    decreases b - a
  {
    if a < b {
      Pow2Grows(a, b - 1);
    }
  }

  /** The index is the low fourteen bits. */
  lemma {:induction false} IndexMeans(h: Hash)
    ensures h == h / 16384 * 16384 + Index(h)
  {
  }

  /** Each register is the largest rank fed to it, and zero when nothing was. */
  ghost predicate IsSketch(regs: seq<nat>, fed: set<Hash>) {
    && |regs| == REGISTER_COUNT
    && (forall h :: h in fed ==> Rank(h) <= regs[Index(h)])
    && (forall i :: 0 <= i < REGISTER_COUNT && regs[i] > 0 ==> Attained(regs[i], i, fed))
  }

  ghost predicate Attained(rank: nat, i: nat, fed: set<Hash>) {
    exists h :: h in fed && Index(h) == i && Rank(h) == rank
  }

  /** A set of hashes has exactly one sketch. */
  lemma {:induction false} SketchUnique(a: seq<nat>, b: seq<nat>, fed: set<Hash>)
    requires IsSketch(a, fed) && IsSketch(b, fed)
    ensures a == b
  {
    forall i | 0 <= i < REGISTER_COUNT
      ensures a[i] == b[i]
    {
      if a[i] > 0 {
        assert Attained(a[i], i, fed);
      }
      if b[i] > 0 {
        assert Attained(b[i], i, fed);
      }
    }
  }

  function PointwiseMax(a: seq<nat>, b: seq<nat>): (r: seq<nat>)
    requires |a| == |b|
    ensures |r| == |a|
  {
    seq(|a|, i requires 0 <= i < |a| => Max(a[i], b[i]))
  }

  lemma {:induction false} EmptySketch(regs: seq<nat>)
    requires |regs| == REGISTER_COUNT && forall i :: 0 <= i < |regs| ==> regs[i] == 0
    ensures IsSketch(regs, {})
  {
  }

  /** Feeding one hash raises one register. */
  lemma {:induction false} SketchAdd(regs: seq<nat>, fed: set<Hash>, h: Hash)
    requires IsSketch(regs, fed)
    ensures IsSketch(regs[Index(h) := Max(regs[Index(h)], Rank(h))], fed + {h})
  {
    hide Rank, Index;
    var after := regs[Index(h) := Max(regs[Index(h)], Rank(h))];
    forall i | 0 <= i < REGISTER_COUNT && after[i] > 0
      ensures Attained(after[i], i, fed + {h})
    {
      if after[i] == regs[i] {
        var g :| g in fed && Index(g) == i && Rank(g) == regs[i];
        assert g in fed + {h};
      } else {
        assert h in fed + {h};
      }
    }
  }

  /** The pointwise maximum of two sketches is the sketch of the union. */
  lemma {:induction false} SketchUnion(a: seq<nat>, s: set<Hash>, b: seq<nat>, t: set<Hash>)
    requires IsSketch(a, s) && IsSketch(b, t)
    ensures IsSketch(PointwiseMax(a, b), s + t)
  {
    hide Rank, Index;
    var r := PointwiseMax(a, b);
    forall i | 0 <= i < REGISTER_COUNT && r[i] > 0
      ensures Attained(r[i], i, s + t)
    {
      if r[i] == a[i] {
        var g :| g in s && Index(g) == i && Rank(g) == a[i];
        assert g in s + t;
      } else {
        var g :| g in t && Index(g) == i && Rank(g) == b[i];
        assert g in s + t;
      }
    }
  }

  /** How a sketch came about: started empty, fed a hash, or merged from two others. */
  datatype History = Started | Fed(before: History, hash: Hash) | Merged(left: History, right: History)

  function Zeroes(): (r: seq<nat>)
    ensures |r| == REGISTER_COUNT && forall i :: 0 <= i < |r| ==> r[i] == 0
  {
    seq(REGISTER_COUNT, _ => 0)
  }

  /** The registers a history leads to. */
  function Replay(h: History): (r: seq<nat>)
    ensures |r| == REGISTER_COUNT
  {
    match h
    case Started => Zeroes()
    case Fed(before, hash) => Replay(before)[Index(hash) := Max(Replay(before)[Index(hash)], Rank(hash))]
    case Merged(left, right) => PointwiseMax(Replay(left), Replay(right))
  }

  /** Every hash fed anywhere in a history. */
  function FedIn(h: History): set<Hash> {
    match h
    case Started => {}
    case Fed(before, hash) => FedIn(before) + {hash}
    case Merged(left, right) => FedIn(left) + FedIn(right)
  }

  lemma {:induction false} ReplayIsSketch(h: History)
    ensures IsSketch(Replay(h), FedIn(h))
    decreases h
  {
    hide IsSketch, Index, Rank, PointwiseMax;
    match h
    case Started => EmptySketch(Zeroes());
    case Fed(before, hash) =>
      ReplayIsSketch(before);
      SketchAdd(Replay(before), FedIn(before), hash);
    case Merged(left, right) =>
      ReplayIsSketch(left);
      ReplayIsSketch(right);
      SketchUnion(Replay(left), FedIn(left), Replay(right), FedIn(right));
  }

  /** Histories that feed the same hashes, in any order and through any merges, leave the same registers. */
  lemma {:induction false} OnlyTheSetMatters(a: History, b: History)
    requires FedIn(a) == FedIn(b)
    ensures Replay(a) == Replay(b)
  {
    ReplayIsSketch(a);
    ReplayIsSketch(b);
    SketchUnique(Replay(a), Replay(b), FedIn(a));
  }

  /** How many registers hold each value. */
  ghost function Histogram(regs: seq<nat>): (h: seq<nat>)
    ensures |h| == 64
  {
    seq(64, v requires 0 <= v < 64 => multiset(regs)[v])
  }

  /** The registers of several sketches merged one after another. */
  function MergeAll(rows: seq<seq<nat>>): (r: seq<nat>)
    requires rows != [] && forall i :: 0 <= i < |rows| ==> |rows[i]| == REGISTER_COUNT
    ensures |r| == REGISTER_COUNT
  {
    if |rows| == 1 then rows[0] else PointwiseMax(MergeAll(rows[..|rows| - 1]), rows[|rows| - 1])
  }

  lemma {:induction false} MergeAllOne(rows: seq<seq<nat>>)
    requires rows != [] && forall i :: 0 <= i < |rows| ==> |rows[i]| == REGISTER_COUNT
    ensures MergeAll(rows[..1]) == rows[0]
  {
  }

  lemma {:induction false} MergeAllNext(rows: seq<seq<nat>>, n: nat)
    requires 1 <= n < |rows| && forall i :: 0 <= i < |rows| ==> |rows[i]| == REGISTER_COUNT
    ensures MergeAll(rows[..n + 1]) == PointwiseMax(MergeAll(rows[..n]), rows[n])
  {
    assert rows[..n + 1][..n] == rows[..n];
  }
}
