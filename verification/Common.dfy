/** Shared vocabulary: optional values and bytes. */
module Common {

  datatype Option<+T> = None | Some(value: T)

  type byte = b: int | 0 <= b < 256

  type Bytes = seq<byte>

  function Reverse<T>(s: seq<T>): (r: seq<T>)
    ensures |r| == |s|
    ensures forall i :: 0 <= i < |s| ==> r[i] == s[|s| - 1 - i]
  {
    if s == [] then [] else Reverse(s[1..]) + [s[0]]
  }

  lemma {:induction false} Assoc<T>(a: seq<T>, b: seq<T>, c: seq<T>)
    ensures a + b + c == a + (b + c)
  {
  }

  lemma {:induction false} ReverseConcat<T>(a: seq<T>, b: seq<T>)
    ensures Reverse(a + b) == Reverse(b) + Reverse(a)
  {
    if a == [] {
      assert a + b == b;
    } else {
      ReverseConcat(a[1..], b);
      assert (a + b)[1..] == a[1..] + b;
      Assoc(Reverse(b), Reverse(a[1..]), [a[0]]);
    }
  }

  lemma {:induction false} ReverseNone<T>()
    ensures Reverse<T>([]) == []
  {
  }

  lemma {:induction false} ReverseOne<T>(x: T)
    ensures Reverse([x]) == [x]
  {
    assert [x][1..] == [];
  }

  /** Reading on: what was read followed by the rest, one item later. */
  lemma {:induction false} ReadOn<T>(read: seq<T>, rest: seq<T>)
    ensures rest == [] ==> read + rest == read
    ensures rest != [] ==> read + rest == read + [rest[0]] + rest[1..]
  {
  }

  /** Taking one item off either end of what is left of a sequence. */
  lemma {:induction false} TookEnd<T>(fronts: seq<T>, rest: seq<T>, backs: seq<T>)
    requires rest != []
    ensures var last := |rest| - 1;
            && fronts + rest + Reverse(backs) == (fronts + [rest[0]]) + rest[1..] + Reverse(backs)
            && fronts + rest + Reverse(backs) == fronts + rest[..last] + Reverse(backs + [rest[last]])
  {
    var last := |rest| - 1;
    ReverseConcat(backs, [rest[last]]);
    ReverseOne(rest[last]);
    hide Reverse;
    Shift(fronts, rest, Reverse(backs));
  }

  lemma {:induction false} Shift<T>(a: seq<T>, rest: seq<T>, c: seq<T>)
    requires rest != []
    ensures a + rest + c == (a + [rest[0]]) + rest[1..] + c
    ensures a + rest + c == a + rest[..|rest| - 1] + ([rest[|rest| - 1]] + c)
  {
    var last := |rest| - 1;
    assert rest == [rest[0]] + rest[1..];
    Assoc(a, [rest[0]], rest[1..]);
    assert rest == rest[..last] + [rest[last]];
    Assoc(a, rest[..last], [rest[last]]);
    Assoc(a + rest[..last], [rest[last]], c);
  }

  function Min(a: int, b: int): int {
    if a <= b then a else b
  }

  function Max(a: int, b: int): int {
    if a >= b then a else b
  }
}

/** Little-endian integers of a fixed width; wider numbers lose their high bytes. */
module LittleEndian {
  import opened Common

  function ToLE(n: nat, width: nat): (r: Bytes)
    ensures |r| == width
    decreases width
  {
    if width == 0 then [] else [n % 256] + ToLE(n / 256, width - 1)
  }

  function FromLE(s: Bytes): nat {
    if s == [] then 0 else s[0] + 256 * FromLE(s[1..])
  }

  function Pow256(width: nat): nat {
    if width == 0 then 1 else 256 * Pow256(width - 1)
  }

  /** The last byte weighs most. */
  lemma {:induction false} LastWeighsMost(s: Bytes, b: byte)
    ensures FromLE(s + [b]) == FromLE(s) + Pow256(|s|) * b
    decreases |s|
  {
    if s == [] {
      assert s + [b] == [b] && [b][1..] == [];
    } else {
      assert (s + [b])[1..] == s[1..] + [b];
      LastWeighsMost(s[1..], b);
    }
  }

  lemma {:induction false} LERoundTrip(n: nat, width: nat)
    requires n < Pow256(width)
    ensures FromLE(ToLE(n, width)) == n
    decreases width
  {
    if width > 0 {
      LERoundTrip(n / 256, width - 1);
      assert ToLE(n, width)[1..] == ToLE(n / 256, width - 1);
    }
  }
}

/**
  Sums of multisets over the entries of a map.  A map has no order, so the sum
  is defined by picking entries one at a time; `SumRemove` shows that the choice
  does not matter.
 */
module MapSums {

  ghost function Sum<K, V, T>(m: map<K, V>, f: (K, V) -> multiset<T>): multiset<T>
    decreases |m|
  {
    if |m| == 0 then multiset{}
    else
      var k :| k in m;
      f(k, m[k]) + Sum(m - {k}, f)
  }

  /** Any one entry can be split off first. */
  lemma {:induction false} SumRemove<K, V, T>(m: map<K, V>, f: (K, V) -> multiset<T>, k: K)
    requires k in m
    ensures Sum(m, f) == f(k, m[k]) + Sum(m - {k}, f)
    decreases |m|
  {
    var p :| p in m && Sum(m, f) == f(p, m[p]) + Sum(m - {p}, f);
    if p != k {
      SumRemove(m - {p}, f, k);
      SumRemove(m - {k}, f, p);
      assert m - {p} - {k} == m - {k} - {p};
    }
  }

  /** Writing one entry replaces its contribution. */
  lemma {:induction false} SumUpdate<K, V, T>(m: map<K, V>, f: (K, V) -> multiset<T>, k: K, v: V)
    ensures k in m ==> Sum(m, f) == f(k, m[k]) + Sum(m - {k}, f)
    ensures k !in m ==> Sum(m, f) == Sum(m - {k}, f)
    ensures Sum(m[k := v], f) == f(k, v) + Sum(m - {k}, f)
  {
    if k in m {
      SumRemove(m, f, k);
    } else {
      assert m - {k} == m;
    }
    var updated := m[k := v];
    assert updated - {k} == m - {k};
    SumRemove(updated, f, k);
  }

  /** A write that keeps the entry's contribution keeps the sum. */
  lemma {:induction false} SumKeep<K, V, T>(m: map<K, V>, f: (K, V) -> multiset<T>, k: K, v: V)
    requires f(k, v) == if k in m then f(k, m[k]) else multiset{}
    ensures Sum(m[k := v], f) == Sum(m, f)
  {
    SumUpdate(m, f, k, v);
  }

  /** Dropping an entry that contributes nothing keeps the sum. */
  lemma {:induction false} SumDrop<K, V, T>(m: map<K, V>, f: (K, V) -> multiset<T>, k: K)
    requires k in m ==> f(k, m[k]) == multiset{}
    ensures Sum(m - {k}, f) == Sum(m, f)
  {
    if k in m {
      SumRemove(m, f, k);
    } else {
      assert m - {k} == m;
    }
  }
}
