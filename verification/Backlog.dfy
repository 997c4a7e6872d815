/**
  The replication backlog: a fixed ring that keeps the tail of the replication
  log so that a reconnecting replica can catch up from an absolute offset.
 */
module Backlog {
  import opened Common

  /** The ring position `p` steps from the origin, one turn back at most. */
  function Wrap(p: int, capacity: nat): int {
    if p < 0 then p + capacity else p
  }

  /** The code's modulo is one conditional subtraction here. */
  lemma {:induction false} ModWrap(x: nat, capacity: nat)
    requires 0 < capacity && x < 2 * capacity
    ensures x % capacity == if x < capacity then x else x - capacity
  {
    var q, r := x / capacity, x % capacity;
    assert x == q * capacity + r && 0 <= r < capacity;
    Multiples(q, capacity);
  }

  lemma {:induction false} Multiples(q: nat, c: nat)
    ensures q >= 2 ==> q * c >= 2 * c
    ensures q == 1 ==> q * c == c
    ensures q == 0 ==> q * c == 0
  {
    if q >= 2 {
      assert q * c == 2 * c + (q - 2) * c;
    }
  }

  /** Where in the ring the byte written `back` writes ago sits. */
  function RingIndex(w: nat, capacity: nat, back: nat): (i: nat)
    requires w < capacity && back <= capacity
    ensures i == Wrap(w - back, capacity) || (back == 0 && i == w)
    ensures i < capacity
  {
    ModWrap(w + capacity - back, capacity);
    (w + capacity - back) % capacity
  }

  /** The byte written `d` writes ago, seen in the ring. */
  function Behind(ring: Bytes, w: nat, d: nat): byte
    requires w < |ring| && 1 <= d <= |ring|
  {
    ring[Wrap(w - d, |ring|)]
  }

  /** The byte `d` places from the end of the log. */
  function Newest(log: Bytes, d: nat): byte
    requires 1 <= d <= |log|
  {
    log[|log| - d]
  }

  ghost predicate Holds(ring: Bytes, w: nat, hist: nat, log: Bytes) {
    && w < |ring|
    && hist == Min(|log|, |ring|)
    && forall d :: 1 <= d <= hist ==> Behind(ring, w, d) == Newest(log, d)
  }

  function Splice(ring: Bytes, at: nat, data: Bytes): (r: Bytes)
    requires at + |data| <= |ring|
    ensures |r| == |ring|
  {
    ring[..at] + data + ring[at + |data|..]
  }

  /** More than a ringful: the newest bytes fill the ring. */
  lemma {:induction false} FeedOversized(ring: Bytes, log: Bytes, data: Bytes)
    requires 0 < |ring| <= |data|
    ensures Holds(data[|data| - |ring|..], 0, |ring|, log + data)
  {
  }

  /** The part before the write index wraps or not, old bytes that stay in reach are not overwritten. */
  lemma {:induction false} FeedStraight(ring: Bytes, w: nat, hist: nat, log: Bytes, data: Bytes)
    requires Holds(ring, w, hist, log) && 0 < |data| < |ring| && w + |data| <= |ring|
    ensures
      var end := w + |data|;
      Holds(Splice(ring, w, data), if end == |ring| then 0 else end, Min(hist + |data|, |ring|), log + data)
  {
    var n, cap := |data|, |ring|;
    var after := Splice(ring, w, data);
    var end := if w + n == cap then 0 else w + n;
    forall d | 1 <= d <= Min(hist + n, cap)
      ensures Behind(after, end, d) == Newest(log + data, d)
    {
      if d <= n {
        assert Newest(log + data, d) == data[n - d];
      } else {
        assert Newest(log + data, d) == Newest(log, d - n);
        assert Behind(ring, w, d - n) == Newest(log, d - n);
      }
    }
  }

  lemma {:induction false} FeedWrapped(ring: Bytes, w: nat, hist: nat, log: Bytes, data: Bytes)
    requires Holds(ring, w, hist, log) && 0 < |data| < |ring| && w + |data| > |ring|
    ensures
      var space := |ring| - w;
      var after := Splice(Splice(ring, w, data[..space]), 0, data[space..]);
      Holds(after, |data| - space, Min(hist + |data|, |ring|), log + data)
  {
    var n, cap, space := |data|, |ring|, |ring| - w;
    var after := Splice(Splice(ring, w, data[..space]), 0, data[space..]);
    forall d | 1 <= d <= Min(hist + n, cap)
      ensures Behind(after, n - space, d) == Newest(log + data, d)
    {
      if d <= n {
        assert Newest(log + data, d) == data[n - d];
      } else {
        assert Newest(log + data, d) == Newest(log, d - n);
        assert Behind(ring, w, d - n) == Newest(log, d - n);
      }
    }
  }

  /** A stretch of the ring, carried on from its beginning when it runs past the end. */
  function Stretch(ring: Bytes, from: nat, n: nat): Bytes
    requires from < |ring| && n <= |ring|
  {
    var space := |ring| - from;
    if n <= space then ring[from..from + n] else ring[from..] + ring[..n - space]
  }

  /** A stretch of the ring that starts `back` writes ago is a stretch of the log. */
  lemma {:induction false} ReadRing(ring: Bytes, w: nat, hist: nat, log: Bytes, back: nat, n: nat)
    requires Holds(ring, w, hist, log) && 1 <= n <= back <= hist
    ensures Stretch(ring, RingIndex(w, |ring|, back), n) == log[|log| - back..|log| - back + n]
  {
    hide RingIndex;
    var from := Wrap(w - back, |ring|);
    var space := |ring| - from;
    var got := if n <= space then ring[from..from + n] else ring[from..] + ring[..n - space];
    forall i | 0 <= i < n
      ensures got[i] == log[|log| - back..|log| - back + n][i]
    {
      assert Behind(ring, w, back - i) == Newest(log, back - i);
    }
  }

  class ReplicationBacklog {
    const buf: array<byte>
    const capacity: nat
    var writeIdx: nat
    var histLen: nat
    var masterOffset: nat

    /** Every byte fed since the last clear, and the absolute offset of its first byte. */
    ghost var log: Bytes
    ghost var base: int

    /** The ring holds the last `histLen` bytes of the log, newest just behind the write index. */
    ghost predicate Valid()
      reads this, buf
    {
      && buf.Length == capacity
      && Holds(buf[..], writeIdx, histLen, log)
      && base + |log| == masterOffset
    }

    constructor (wanted: nat)
      ensures Valid() && fresh(buf) && capacity == Max(wanted, 1024)
      ensures log == [] && masterOffset == 0
    {
      var size: nat := if wanted < 1024 then 1024 else wanted;
      capacity := size;
      buf := new byte[size](_ => 0);
      writeIdx, histLen, masterOffset := 0, 0, 0;
      log, base := [], 0;
    }

    function FirstByteOffset(): nat
      reads this
    {
      if masterOffset >= histLen then masterOffset - histLen else 0
    }

    predicate IsOffsetInRange(offset: nat)
      reads this
    {
      histLen != 0 && FirstByteOffset() <= offset <= masterOffset
    }

    /** Renumbers the log so that it ends at the given offset. */
    method SetMasterOffset(offset: nat)
      requires Valid()
      modifies this
      ensures Valid() && masterOffset == offset && log == old(log)
    {
      masterOffset := offset;
      base := offset - |log|;
    }

    /** Copies a slice into the ring without wrapping. */
    method CopyIn(at: nat, data: Bytes)
      requires at + |data| <= buf.Length
      modifies buf
      ensures buf[..] == Splice(old(buf[..]), at, data)
    {
      for i := 0 to |data|
        invariant forall j :: 0 <= j < i ==> buf[at + j] == data[j]
        invariant forall j :: 0 <= j < buf.Length && (j < at || j >= at + i) ==> buf[j] == old(buf[j])
      {
        buf[at + i] := data[i];
      }
    }

    /** Appends to the log; the ring keeps the newest bytes, however much is fed at once. */
    method Feed(data: Bytes)
      requires Valid()
      modifies this, buf
      ensures Valid() && log == old(log) + data && base == old(base)
    {
      hide Holds;
      ghost var ring := buf[..];
      assert writeIdx < capacity by { Bounds(ring, writeIdx, histLen, log); }
      var len := |data|;
      if len == 0 {
        assert log + data == log;
        return;
      }
      if len >= capacity {
        FeedOversized(ring, log, data);
        CopyIn(0, data[len - capacity..]);
        assert buf[..] == data[len - capacity..];
        writeIdx, histLen := 0, capacity;
      } else {
        var space := capacity - writeIdx;
        if len <= space {
          FeedStraight(ring, writeIdx, histLen, log, data);
          CopyIn(writeIdx, data);
          writeIdx := writeIdx + len;
          if writeIdx == capacity {
            writeIdx := 0;
          }
        } else {
          FeedWrapped(ring, writeIdx, histLen, log, data);
          CopyIn(writeIdx, data[..space]);
          CopyIn(0, data[space..]);
          writeIdx := len - space;
        }
        histLen := Min(histLen + len, capacity);
      }
      masterOffset := masterOffset + len;
      log := log + data;
    }

    /** Empties the ring; offsets go on from where they were. */
    method Clear()
      requires Valid()
      modifies this
      ensures Valid() && log == [] && masterOffset == old(masterOffset) && base == masterOffset
    {
      writeIdx, histLen := 0, 0;
      log, base := [], masterOffset;
    }

    /** At most two slices of the ring that together hold the bytes from an offset on. */
    method Slices(start: nat, maxBytes: nat) returns (first: Bytes, second: Bytes)
      requires Valid()
      ensures first + second ==
        if IsOffsetInRange(start) then log[start - base..Min(start + maxBytes, masterOffset) - base] else []
    {
      hide Holds, RingIndex, Stretch;
      ghost var ring := buf[..];
      Bounds(ring, writeIdx, histLen, log);
      first, second := [], [];
      if maxBytes == 0 || !IsOffsetInRange(start) {
        return;
      }
      var backDist := masterOffset - start;
      var toRead := Min(maxBytes, backDist);
      if toRead == 0 {
        return;
      }
      ReadRing(ring, writeIdx, histLen, log, backDist, toRead);
      assert |log| - backDist == start - base && start - base + toRead == Min(start + maxBytes, masterOffset) - base;
      first, second := Cut(RingIndex(writeIdx, capacity, backDist), toRead);
    }

    /** A stretch of the ring, in two parts when it runs past the end. */
    method Cut(from: nat, n: nat) returns (first: Bytes, second: Bytes)
      requires buf.Length == capacity && from < capacity && n <= capacity
      ensures first + second == Stretch(buf[..], from, n)
    {
      var space := capacity - from;
      first, second := [], [];
      if n <= space {
        first := buf[from..from + n];
        assert first == buf[..][from..from + n];
      } else {
        first, second := buf[from..], buf[..n - space];
        assert first == buf[..][from..] && second == buf[..][..n - space];
      }
    }

    /** Exactly the log bytes from an in-range offset to the end or the limit, and nothing for any other offset. */
    method ReadBytes(start: nat, maxBytes: nat) returns (out: Bytes)
      requires Valid()
      ensures out ==
        if IsOffsetInRange(start) then log[start - base..Min(start + maxBytes, masterOffset) - base] else []
    {
      var first, second := Slices(start, maxBytes);
      out := first + second;
    }
  }

  lemma {:induction false} Bounds(ring: Bytes, w: nat, hist: nat, log: Bytes)
    requires Holds(ring, w, hist, log)
    ensures w < |ring| && hist == Min(|log|, |ring|)
  {
  }
}
