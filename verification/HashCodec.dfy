/**
  The binary image of a hash: a version byte, a record count, and one record per
  live field.  Bit 31 of a record's key length says that an expiry follows.
 */
module HashCodec {
  import opened Common
  import opened LittleEndian
  import opened HashTtl

  const FORMAT_VERSION: byte := 1
  const EXPIRATION_BIT := 0x8000_0000
  const U32 := 0x1_0000_0000
  const U64 := 0x1_0000_0000_0000_0000
  const HEADER := 5

  datatype DecodeError = BufferTooShort | UnsupportedVersion(version: byte) | CorruptedData

  datatype Outcome<+T> = Decoded(value: T) | Failed(error: DecodeError)

  datatype Record = Record(key: Field, value: Value, expireAt: Option<nat>)

  // ----- Writing -----------------------------------------------------------

  function KeyHeader(r: Record): nat {
    var len := |r.key| % U32;
    if r.expireAt.Some? && len < EXPIRATION_BIT then len + EXPIRATION_BIT else len
  }

  function Tail(r: Record): Bytes {
    if r.expireAt.Some? then ToLE(r.expireAt.value, 8) else []
  }

  function Encode(r: Record): Bytes {
    ToLE(KeyHeader(r), 4) + (r.key + (ToLE(|r.value|, 4) + (r.value + Tail(r))))
  }

  function EncodeAll(rs: seq<Record>): Bytes {
    if rs == [] then [] else EncodeAll(rs[..|rs| - 1]) + Encode(rs[|rs| - 1])
  }

  function Image(rs: seq<Record>): Bytes {
    [FORMAT_VERSION] + ToLE(|rs|, 4) + EncodeAll(rs)
  }

  // ----- Reading -----------------------------------------------------------

  function ReadLE(buf: Bytes, at: nat, width: nat): Option<nat> {
    if at + width <= |buf| then Some(FromLE(buf[at..at + width])) else None
  }

  /** The record at a position, with the position after it. */
  function ReadRecord(buf: Bytes, cur: nat): Outcome<(Record, nat)> {
    var raw := ReadLE(buf, cur, 4);
    if raw.None? then Failed(BufferTooShort)
    else
      var keyEnd := cur + 4 + raw.value % EXPIRATION_BIT;
      var valLen := ReadLE(buf, keyEnd, 4);
      if valLen.None? || keyEnd + 4 + valLen.value > |buf| then Failed(BufferTooShort)
      else
        var valEnd := keyEnd + 4 + valLen.value;
        var key, value := buf[cur + 4..keyEnd], buf[keyEnd + 4..valEnd];
        if raw.value < EXPIRATION_BIT then Decoded((Record(key, value, None), valEnd))
        else
          var at := ReadLE(buf, valEnd, 8);
          if at.None? then Failed(BufferTooShort)
          else Decoded((Record(key, value, at), valEnd + 8))
  }

  function ReadRecords(buf: Bytes, cur: nat, count: nat): Outcome<seq<Record>>
    decreases count
  {
    if count == 0 then Decoded([])
    else
      var first := ReadRecord(buf, cur);
      if first.Failed? then Failed(first.error)
      else Prepend([first.value.0], ReadRecords(buf, first.value.1, count - 1))
  }

  function Prepend(done: seq<Record>, rest: Outcome<seq<Record>>): Outcome<seq<Record>> {
    if rest.Failed? then rest else Decoded(done + rest.value)
  }

  function Parse(buf: Bytes): Outcome<seq<Record>> {
    if |buf| < HEADER then Failed(BufferTooShort)
    else if buf[0] != FORMAT_VERSION then Failed(UnsupportedVersion(buf[0]))
    else
      var count := FromLE(buf[1..HEADER]);
      if count > (|buf| - HEADER) / 8 then Failed(CorruptedData)
      else ReadRecords(buf, HEADER, count)
  }

  /** Later records win; a record that has expired removes its field. */
  ghost function Applied(t: Table, r: Record, now: nat): Table {
    if r.expireAt.Some? && r.expireAt.value <= now then t - {r.key}
    else t[r.key := Entry(r.value, r.expireAt)]
  }

  ghost function Replay(rs: seq<Record>, now: nat): Table {
    if rs == [] then map[] else Applied(Replay(rs[..|rs| - 1], now), rs[|rs| - 1], now)
  }

  // ----- Round trip --------------------------------------------------------

  /** The lengths the format has room for. */
  predicate Fits(r: Record) {
    && |r.key| < EXPIRATION_BIT && |r.value| < U32
    && (r.expireAt.Some? ==> r.expireAt.value < U64)
  }

  lemma {:induction false} Widths()
    ensures Pow256(4) == U32 && Pow256(8) == U64
  {
    assert Pow256(2) == 65536;
    assert Pow256(4) == U32;
    assert Pow256(6) == 65536 * U32;
  }

  /**
    Where the parts of a record lie: the length of the key, with bit 31 for an expiry; the key; the
    length of the value; the value; and the expiry, if there is one.
   */
  lemma {:induction false} RecordLayout(r: Record)
    requires Fits(r)
    ensures
      var e, k := Encode(r), 4 + |r.key|;
      var v := k + 4 + |r.value|;
      && |e| == v + (if r.expireAt.Some? then 8 else 0)
      && FromLE(e[..4]) == |r.key| + (if r.expireAt.Some? then EXPIRATION_BIT else 0)
      && e[4..k] == r.key && FromLE(e[k..k + 4]) == |r.value| && e[k + 4..v] == r.value
      && (r.expireAt.Some? ==> FromLE(e[v..v + 8]) == r.expireAt.value)
  {
    hide FromLE, ToLE, Pow256;
    Widths();
    LERoundTrip(KeyHeader(r), 4);
    LERoundTrip(|r.value|, 4);
    if r.expireAt.Some? {
      LERoundTrip(r.expireAt.value, 8);
    }
    FiveParts(ToLE(KeyHeader(r), 4), r.key, ToLE(|r.value|, 4), r.value, Tail(r));
  }

  lemma {:induction false} FiveParts(a: Bytes, b: Bytes, c: Bytes, d: Bytes, e: Bytes)
    ensures
      var w := a + (b + (c + (d + e)));
      var i, j := |a| + |b|, |a| + |b| + |c| + |d|;
      && |w| == j + |e| && w[..|a|] == a && w[|a|..i] == b && w[i..i + |c|] == c && w[i + |c|..j] == d
      && w[j..j + |e|] == e
  {
    var w := a + (b + (c + (d + e)));
    var i, j := |a| + |b|, |a| + |b| + |c| + |d|;
    assert w[|a|..] == b + (c + (d + e));
    assert w[i..] == c + (d + e) && w[i + |c|..] == d + e;
  }

  /** A number written in the middle of a buffer is read back. */
  lemma {:induction false} ReadBack(pre: Bytes, n: nat, width: nat, post: Bytes)
    requires n < Pow256(width)
    ensures ReadLE(pre + (ToLE(n, width) + post), |pre|, width) == Some(n)
  {
    var buf := pre + (ToLE(n, width) + post);
    assert buf[|pre|..|pre| + width] == ToLE(n, width);
    LERoundTrip(n, width);
  }

  /** Five fields in the middle of a buffer, found from its front. */
  lemma {:induction false} Fields(pre: Bytes, a: Bytes, b: Bytes, c: Bytes, d: Bytes, e: Bytes, post: Bytes)
    ensures
      var buf := pre + (a + (b + (c + (d + e)))) + post;
      var p1, p2 := pre + a + b, pre + a + b + c + d;
      && buf == pre + (a + (b + (c + (d + (e + post))))) && buf == p1 + (c + (d + (e + post)))
      && buf == p2 + (e + post)
      && buf[|pre| + |a|..|p1|] == b && buf[|p1| + |c|..|p2|] == d
  {
    var p1, p2, rest := pre + a + b, pre + a + b + c + d, e + post;
    assert pre + (a + (b + (c + (d + e)))) == p2 + e;
    Assoc(p2, e, post);
    Assoc(p1, c, d);
    Assoc(p1, c + d, rest);
    Assoc(c, d, rest);
    Assoc(pre + a, b, c + (d + rest));
    Assoc(pre, a, b + (c + (d + rest)));
  }

  lemma {:induction false} ReadEncoded(pre: Bytes, r: Record, post: Bytes)
    requires Fits(r)
    ensures ReadRecord(pre + Encode(r) + post, |pre|) == Decoded((r, |pre| + |Encode(r)|))
  {
    hide ToLE, FromLE, Pow256, ReadLE;
    var head, mid := ToLE(KeyHeader(r), 4), ToLE(|r.value|, 4);
    var afterMid := r.value + (Tail(r) + post);
    var p1 := pre + head + r.key;
    var p2 := p1 + mid + r.value;
    Fields(pre, head, r.key, mid, r.value, Tail(r), post);
    Widths();
    ReadBack(pre, KeyHeader(r), 4, r.key + (mid + afterMid));
    ReadBack(p1, |r.value|, 4, afterMid);
    if r.expireAt.Some? {
      ReadBack(p2, r.expireAt.value, 8, post);
    }
  }

  lemma {:induction false} ReadAllEncoded(pre: Bytes, done: seq<Record>, rest: seq<Record>)
    requires forall r :: r in rest ==> Fits(r)
    ensures ReadRecords(pre + EncodeAll(done + rest), |pre| + |EncodeAll(done)|, |rest|) == Decoded(rest)
    decreases |rest|
  {
    hide Encode, ReadRecord, EncodeAll, Fits;
    if rest != [] {
      var next := done + [rest[0]];
      assert next + rest[1..] == done + rest;
      ReadAllEncoded(pre, next, rest[1..]);
      ReadNext(pre, done, rest[0], rest[1..]);
      assert [rest[0]] + rest[1..] == rest;
    }
  }

  lemma {:induction false} ReadNext(pre: Bytes, done: seq<Record>, r: Record, rest: seq<Record>)
    requires Fits(r)
    ensures |EncodeAll(done + [r])| == |EncodeAll(done)| + |Encode(r)|
    ensures ReadRecord(pre + EncodeAll(done + [r] + rest), |pre| + |EncodeAll(done)|)
            == Decoded((r, |pre| + |EncodeAll(done + [r])|))
  {
    hide Encode, ReadRecord, Fits;
    var next := done + [r];
    EncodeMore(done, r);
    EncodePrefix(next, rest);
    hide EncodeAll;
    var whole := EncodeAll(next + rest);
    var post := whole[|EncodeAll(next)|..];
    assert whole == EncodeAll(next) + post;
    var before := pre + EncodeAll(done);
    assert pre + whole == before + Encode(r) + post;
    ReadEncoded(before, r, post);
  }

  lemma {:induction false} AtLeastLengths(r: Record)
    ensures |Encode(r)| >= 8
  {
    hide ToLE;
  }

  lemma {:induction false} EncodeMore(rs: seq<Record>, r: Record)
    ensures EncodeAll(rs + [r]) == EncodeAll(rs) + Encode(r)
  {
    assert (rs + [r])[..|rs|] == rs;
  }

  lemma {:induction false} EncodePrefix(a: seq<Record>, b: seq<Record>)
    ensures |EncodeAll(a + b)| >= |EncodeAll(a)| + 8 * |b|
    ensures EncodeAll(a + b)[..|EncodeAll(a)|] == EncodeAll(a)
    decreases |b|
  {
    hide Encode, EncodeAll;
    if b == [] {
      assert a + b == a;
    } else {
      var front, last := b[..|b| - 1], b[|b| - 1];
      EncodePrefix(a, front);
      EncodeMore(a + front, last);
      AtLeastLengths(last);
      assert a + b == a + front + [last];
    }
  }

  /** Every record the reader produces fits, and it produces as many as the header says. */
  lemma {:induction false} ReadFits(buf: Bytes, cur: nat, count: nat)
    ensures var r := ReadRecords(buf, cur, count);
            r.Decoded? ==> |r.value| == count && forall x :: x in r.value ==> Fits(x)
    decreases count
  {
    if count > 0 {
      var first := ReadRecord(buf, cur);
      if first.Decoded? {
        ReadBounds(buf, cur);
        ReadFits(buf, first.value.1, count - 1);
      }
    }
  }

  lemma {:induction false} ReadBounds(buf: Bytes, cur: nat)
    ensures ReadRecord(buf, cur).Decoded? ==> Fits(ReadRecord(buf, cur).value.0)
  {
    hide FromLE;
    Widths();
    var raw := ReadLE(buf, cur, 4);
    if raw.Some? {
      var keyEnd := cur + 4 + raw.value % EXPIRATION_BIT;
      var valLen := ReadLE(buf, keyEnd, 4);
      if valLen.Some? {
        FromLEBound(buf[keyEnd..keyEnd + 4]);
        var at := ReadLE(buf, keyEnd + 4 + valLen.value, 8);
        if at.Some? {
          FromLEBound(buf[keyEnd + 4 + valLen.value..keyEnd + 4 + valLen.value + 8]);
        }
      }
    }
  }

  lemma {:induction false} FromLEBound(s: Bytes)
    ensures FromLE(s) < Pow256(|s|)
  {
    if s != [] {
      FromLEBound(s[1..]);
    }
  }

  /** Why an image is refused, in this order: too short, of another version, claiming too many records, cut off. */
  lemma {:induction false} ParseErrors(buf: Bytes)
    ensures |buf| < 5 ==> Parse(buf) == Failed(BufferTooShort)
    ensures |buf| >= 5 && buf[0] != 1 ==> Parse(buf) == Failed(UnsupportedVersion(buf[0]))
    ensures |buf| >= 5 && buf[0] == 1 ==>
              && (Parse(buf) == Failed(CorruptedData) <==> 8 * FromLE(buf[1..5]) > |buf| - 5)
              && (Parse(buf).Failed? && Parse(buf).error != CorruptedData ==> Parse(buf) == Failed(BufferTooShort))
  {
    if |buf| >= 5 && buf[0] == 1 {
      ReadFailsShort(buf, 5, FromLE(buf[1..5]));
    }
    hide ReadRecords, FromLE;
  }

  lemma {:induction false} ReadFailsShort(buf: Bytes, cur: nat, count: nat)
    ensures
      var r := ReadRecords(buf, cur, count);
      r.Failed? ==> r == Failed(BufferTooShort)
    decreases count
  {
    hide FromLE;
    if count > 0 && ReadRecord(buf, cur).Decoded? {
      ReadFailsShort(buf, ReadRecord(buf, cur).value.1, count - 1);
    }
  }

  /** A record is read exactly when all its parts are there. */
  lemma {:induction false} RecordCutOff(buf: Bytes, cur: nat)
    ensures
      ReadRecord(buf, cur).Decoded? <==>
        && cur + 4 <= |buf|
        && var raw := FromLE(buf[cur..cur + 4]);
           var k := cur + 4 + raw % EXPIRATION_BIT;
           && k + 4 <= |buf|
           && k + 4 + FromLE(buf[k..k + 4]) + (if raw >= EXPIRATION_BIT then 8 else 0) <= |buf|
  {
    hide FromLE;
  }

  lemma {:induction false} ParsedFits(buf: Bytes)
    ensures Parse(buf).Decoded? ==> |Parse(buf).value| < U32 && forall r :: r in Parse(buf).value ==> Fits(r)
  {
    hide FromLE, Pow256, ReadRecords, Fits;
    if |buf| >= HEADER {
      Widths();
      FromLEBound(buf[1..HEADER]);
      ReadFits(buf, HEADER, FromLE(buf[1..HEADER]));
    }
  }

  lemma {:induction false} ImageParses(rs: seq<Record>)
    requires |rs| < U32 && forall r :: r in rs ==> Fits(r)
    ensures Parse(Image(rs)) == Decoded(rs)
  {
    hide FromLE, ToLE, Pow256, ReadRecords, Fits, EncodeAll;
    var pre := [FORMAT_VERSION] + ToLE(|rs|, 4);
    ImageHeader(rs);
    assert [] + rs == rs;
    NoBytes();
    ReadAllEncoded(pre, [], rs);
  }

  lemma {:induction false} NoBytes()
    ensures EncodeAll([]) == []
  {
  }

  lemma {:induction false} ImageHeader(rs: seq<Record>)
    requires |rs| < U32
    ensures var buf := Image(rs);
            && |buf| >= HEADER && buf[0] == FORMAT_VERSION
            && FromLE(buf[1..HEADER]) == |rs| && |rs| <= (|buf| - HEADER) / 8
  {
    hide FromLE, ToLE, Pow256;
    assert Image(rs)[1..HEADER] == ToLE(|rs|, 4);
    Widths();
    LERoundTrip(|rs|, 4);
    EncodePrefix([], rs);
    assert [] + rs == rs;
    NoBytes();
    hide EncodeAll;
  }

  /** An image parses back to its records exactly when every record fits and their number does. */
  lemma {:induction false} ImageRoundTrip(rs: seq<Record>)
    ensures Parse(Image(rs)) == Decoded(rs) <==> |rs| < U32 && forall r :: r in rs ==> Fits(r)
  {
    hide Parse, Image, Fits;
    ParsedFits(Image(rs));
    if |rs| < U32 && forall r :: r in rs ==> Fits(r) {
      ImageParses(rs);
    }
  }

  /** The failing input: a key as long as the expiry bit does not come back. */
  lemma {:induction false} LongKeyLost(r: Record)
    requires |r.key| == EXPIRATION_BIT
    ensures Parse(Image([r])) != Decoded([r])
  {
    hide Parse, Image;
    ImageRoundTrip([r]);
    assert r in [r] && !Fits(r);
  }

  /** The records list a table, each field once. */
  ghost predicate Lists(rs: seq<Record>, t: Table) {
    if rs == [] then t == map[]
    else
      var last := rs[|rs| - 1];
      last.key in t && t[last.key] == Entry(last.value, last.expireAt) && Lists(rs[..|rs| - 1], t - {last.key})
  }

  /** Replaying the records of a table at some time leaves what is live then. */
  lemma {:induction false} ReplayLists(rs: seq<Record>, t: Table, now: nat)
    requires Lists(rs, t)
    ensures Replay(rs, now) == Live(t, now)
  {
    if rs != [] {
      var last := rs[|rs| - 1];
      ReplayLists(rs[..|rs| - 1], t - {last.key}, now);
      LastReplayed(t, last, now);
    }
  }

  lemma {:induction false} LastReplayed(t: Table, last: Record, now: nat)
    requires last.key in t && t[last.key] == Entry(last.value, last.expireAt)
    ensures Applied(Live(t - {last.key}, now), last, now) == Live(t, now)
  {
    assert Applied(Live(t - {last.key}, now), last, now).Keys == Live(t, now).Keys;
  }

  lemma {:induction false} ListsMore(rs: seq<Record>, t: Table, r: Record)
    requires Lists(rs, t) && r.key !in t
    ensures Lists(rs + [r], t[r.key := Entry(r.value, r.expireAt)])
  {
    var grown := t[r.key := Entry(r.value, r.expireAt)];
    assert grown - {r.key} == t;
    assert (rs + [r])[..|rs|] == rs;
  }

  lemma {:induction false} LiveParts(fields: map<Field, Value>, times: Option<map<Field, nat>>, now: nat)
    ensures var live := Live(TableOf(fields, times), now);
            && live.Keys == (set f | f in fields && (Lookup(times, f).None? || Lookup(times, f).value > now))
            && forall f :: f in live ==> f in fields && live[f] == Entry(fields[f], Lookup(times, f))
  {
  }

  lemma {:induction false} WrittenMore(live: Table, todo: set<Field>, f: Field)
    requires f in todo && todo <= live.Keys
    ensures f !in live - todo
    ensures (live - todo)[f := live[f]] == live - (todo - {f})
  {
    assert (live - todo)[f := live[f]].Keys == (live - (todo - {f})).Keys;
  }

  // ----- Save and load -----------------------------------------------------

  /** Appends the image of the live fields, in whatever order they come. */
  method SerializeRef(h: HashObject, buf: Bytes, now: nat) returns (out: Bytes)
    requires h.Valid()
    ensures exists records :: Lists(records, Live(h.Entries(), now)) && out == buf + Image(records)
  {
    hide TableOf, Live, Encode, ToLE;
    ghost var live := Live(h.Entries(), now);
    LiveParts(h.fields, h.times, now);
    var liveFields := set f | f in h.fields && (h.TimeOf(f).None? || h.TimeOf(f).value > now);
    out := buf + [FORMAT_VERSION] + ToLE(|liveFields|, 4);
    ghost var head := out;
    ghost var records: seq<Record> := [];
    var todo := liveFields;
    assert live - todo == map[];
    while todo != {}
      invariant todo <= live.Keys && Lists(records, live - todo)
      invariant |records| + |todo| == |liveFields| && out == head + EncodeAll(records)
    {
      var f :| f in todo;
      var r := Record(f, h.fields[f], h.TimeOf(f));
      WrittenMore(live, todo, f);
      ListsMore(records, live - todo, r);
      out := out + Encode(r);
      assert (records + [r])[..|records|] == records;
      records := records + [r];
      todo := todo - {f};
    }
    assert live - {} == live;
    assert Lists(records, live) && out == buf + Image(records);
  }

  method ApplyRecord(h: HashObject, r: Record, now: nat)
    requires h.Valid()
    modifies h
    ensures h.Valid() && h.Entries() == Applied(old(h.Entries()), r, now)
  {
    hide TableOf;
    if r.expireAt.Some? {
      if r.expireAt.value > now {
        WriteBoth(h.fields, h.times, r.key, r.value, r.expireAt.value);
        if h.times.None? {
          h.times, h.queue := Some(map[]), Some(multiset{});
        }
        h.times := Some(h.times.value[r.key := r.expireAt.value]);
        h.queue := Some(h.queue.value + multiset{(r.expireAt.value, r.key)});
        h.fields := h.fields[r.key := r.value];
      } else {
        var _ := h.DropField(r.key, now);
      }
    } else {
      ghost var times := h.times;
      if h.times.Some? {
        h.times := Some(h.times.value - {r.key});
      }
      WriteOver(h.fields, times, h.times, r.key, r.value);
      h.fields := h.fields[r.key := r.value];
    }
  }

  lemma {:induction false} WriteBoth(
      fields: map<Field, Value>, times: Option<map<Field, nat>>, f: Field, v: Value, at: nat)
    ensures var current := if times.Some? then times.value else map[];
            TableOf(fields[f := v], Some(current[f := at])) == TableOf(fields, times)[f := Entry(v, Some(at))]
  {
    var current := if times.Some? then times.value else map[];
    assert TableOf(fields[f := v], Some(current[f := at])).Keys == TableOf(fields, times)[f := Entry(v, Some(at))].Keys;
  }

  lemma {:induction false} WriteOver(fields: map<Field, Value>,
      before: Option<map<Field, nat>>, after: Option<map<Field, nat>>, f: Field, v: Value)
    requires Lookup(after, f) == None && forall g :: g != f ==> Lookup(before, g) == Lookup(after, g)
    ensures TableOf(fields[f := v], after) == TableOf(fields, before)[f := Entry(v, None)]
  {
    assert TableOf(fields[f := v], after).Keys == TableOf(fields, before)[f := Entry(v, None)].Keys;
  }

  /** Rebuilds a hash from an image, or reports the error its first bad byte causes. */
  method Deserialize(buf: Bytes, now: nat) returns (r: Outcome<HashObject>)
    ensures var parsed := Parse(buf);
            if parsed.Failed? then r == Failed(parsed.error)
            else r.Decoded? && fresh(r.value) && r.value.Valid() && r.value.Entries() == Replay(parsed.value, now)
  {
    hide FromLE, ReadRecord, Applied, TableOf;
    if |buf| < HEADER {
      return Failed(BufferTooShort);
    }
    if buf[0] != FORMAT_VERSION {
      return Failed(UnsupportedVersion(buf[0]));
    }
    var count := FromLE(buf[1..HEADER]);
    if count > (|buf| - HEADER) / 8 {
      return Failed(CorruptedData);
    }
    var h := new HashObject();
    var cur: nat := HEADER;
    ghost var done: seq<Record> := [];
    PrependNothing(ReadRecords(buf, cur, count));
    for i := 0 to count
      invariant fresh(h) && h.Valid() && h.Entries() == Replay(done, now)
      invariant Parse(buf) == Prepend(done, ReadRecords(buf, cur, count - i))
    {
      var next := ReadRecord(buf, cur);
      if next.Failed? {
        return Failed(next.error);
      }
      ApplyRecord(h, next.value.0, now);
      assert (done + [next.value.0])[..|done|] == done;
      PrependTwice(done, next.value.0, ReadRecords(buf, next.value.1, count - i - 1));
      done := done + [next.value.0];
      cur := next.value.1;
    }
    assert done + [] == done;
    h.CleanupExpirationIfEmpty();
    return Decoded(h);
  }

  lemma {:induction false} PrependNothing(rest: Outcome<seq<Record>>)
    ensures Prepend([], rest) == rest
  {
    if rest.Decoded? {
      assert [] + rest.value == rest.value;
    }
  }

  lemma {:induction false} PrependTwice(done: seq<Record>, r: Record, rest: Outcome<seq<Record>>)
    ensures Prepend(done, Prepend([r], rest)) == Prepend(done + [r], rest)
  {
    if rest.Decoded? {
      assert done + ([r] + rest.value) == done + [r] + rest.value;
    }
  }

  /** The format has room for every field, and for their number. */
  ghost predicate Storable(t: Table) {
    |t| < U32 && forall f :: f in t ==> Fits(Record(f, t[f].value, t[f].expireAt))
  }

  /** A hash saved at one time and loaded at another holds exactly the fields live at both. */
  method SaveAndLoad(h: HashObject, saved: nat, loaded: nat) returns (r: Outcome<HashObject>)
    requires h.Valid()
    ensures r.Decoded? ==> fresh(r.value) && r.value.Valid()
    ensures Storable(Live(h.Entries(), saved)) ==>
              r.Decoded? && r.value.Entries() == Live(Live(h.Entries(), saved), loaded)
  {
    hide TableOf, Live, Image, Parse, Replay;
    var image := SerializeRef(h, [], saved);
    ghost var records :| Lists(records, Live(h.Entries(), saved)) && image == [] + Image(records);
    assert image == Image(records);
    ListsFit(records, Live(h.Entries(), saved));
    ImageRoundTrip(records);
    ReplayLists(records, Live(h.Entries(), saved), loaded);
    r := Deserialize(image, loaded);
  }

  lemma {:induction false} ListsFit(rs: seq<Record>, t: Table)
    requires Lists(rs, t)
    ensures |rs| == |t|
    ensures forall r :: r in rs ==> r.key in t && t[r.key] == Entry(r.value, r.expireAt)
  {
    if rs != [] {
      var last := rs[|rs| - 1];
      ListsFit(rs[..|rs| - 1], t - {last.key});
      assert |t - {last.key}| == |t| - 1 by { assert t.Keys == (t - {last.key}).Keys + {last.key}; }
      assert rs == rs[..|rs| - 1] + [last];
    }
  }
}
