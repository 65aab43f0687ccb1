/** Bundle framing: the uncompressed body, and packing it under a compression dictionary. */
module Bundle {
  import opened Bytes
  import opened Varint

  const FORMAT_VERSION: byte := 1
  const MAX_RECORDS := 256
  const MAX_ORIGINS := 64
  const MAX_DECOMPRESSED := 0x10_0000

  datatype Record = Record(origin: NodeID, seqNo: uint64, ts: uint32, area: AreaTag, body: bytes)

  // The record format is another layer's: all that is used of it is that it is canonical, for records whose
  // length fits the framing.
  datatype RecordCodec = RecordCodec(marshal: Record -> bytes, unmarshal: bytes -> Option<Record>)

  predicate Fits(codec: RecordCodec, r: Record) {
    |codec.marshal(r)| < 0x1_0000_0000_0000_0000
  }

  ghost predicate Lawful(codec: RecordCodec) {
    && (forall r: Record :: Fits(codec, r) ==> codec.unmarshal(codec.marshal(r)) == Some(r))
    && (forall b: bytes :: codec.unmarshal(b).Some? ==> codec.marshal(codec.unmarshal(b).value) == b)
  }

  datatype Batch = Batch(area: AreaTag, baseTS: uint32, dictID: byte, records: seq<Record>)

  datatype BundleError = Truncated | TooMany | Bomb | EmptyBatch | NotCanonical | UnknownDictionary | Malformed

  // ---- the origin table ------------------------------------------------------------------------

  function Distinct(ids: seq<NodeID>): bool {
    forall i, j :: 0 <= i < j < |ids| ==> ids[i] != ids[j]
  }

  // The origins of a batch in the order they first appear.
  function Origins(recs: seq<Record>): (ids: seq<NodeID>)
    ensures Distinct(ids)
    ensures forall r :: r in recs ==> r.origin in ids
    ensures recs != [] ==> ids != []
  {
    if recs == [] then []
    else
      var last := |recs| - 1;
      var ids := Origins(recs[..last]);
      assert forall r :: r in recs ==> r in recs[..last] || r == recs[last];
      if recs[last].origin in ids then ids else ids + [recs[last].origin]
  }

  function IndexOf(id: NodeID, ids: seq<NodeID>): (i: nat)
    requires id in ids
    ensures i < |ids| && ids[i] == id
  {
    if ids[0] == id then 0 else 1 + IndexOf(id, ids[1..])
  }

  lemma OriginsOneMore(recs: seq<Record>)
    requires recs != []
    ensures Origins(recs[..|recs| - 1]) <= Origins(recs)
  {
  }

  // The table of a longer batch extends the table of a shorter one.
  lemma {:induction false} OriginsGrow(recs: seq<Record>, n: nat)
    requires n <= |recs|
    ensures Origins(recs[..n]) <= Origins(recs)
  {
    if n < |recs| {
      OriginsOneMore(recs);
      hide Origins;
      var shorter := recs[..|recs| - 1];
      OriginsGrow(shorter, n);
      assert shorter[..n] == recs[..n];
    } else {
      assert recs[..n] == recs;
    }
  }

  // The origin of the next record is either in the part of the table used so far or next in it.
  lemma OriginIsKnownOrNext(recs: seq<Record>, n: nat)
    requires n < |recs|
    ensures var used, idx := |Origins(recs[..n])|, IndexOf(recs[n].origin, Origins(recs));
            && idx <= used
            && |Origins(recs[..n + 1])| == if idx == used then used + 1 else used
  {
    var used, all := Origins(recs[..n]), Origins(recs);
    OriginsGrow(recs, n);
    OriginsGrow(recs, n + 1);
    assert recs[..n + 1][..n] == recs[..n];
    var o := recs[n].origin;
    if o in used {
      var i := IndexOf(o, used);
      assert all[i] == o;
    } else {
      assert all[|used|] == o;
    }
  }

  // ---- the body ------------------------------------------------------------------------------

  function Table(ids: seq<NodeID>): (b: bytes)
    ensures |b| == 8 * |ids|
  {
    if ids == [] then [] else Table(ids[..|ids| - 1]) + ids[|ids| - 1]
  }

  // The part of a record entry after its origin index: timestamp delta, length, bytes.
  function Fields(delta: int64, raw: bytes): bytes {
    PutVarint(delta) + PutUvarint(|raw|) + raw
  }

  function EncodeRecord(codec: RecordCodec, base: uint32, ids: seq<NodeID>, r: Record): bytes
    requires r.origin in ids && |ids| <= MAX_ORIGINS
  {
    [IndexOf(r.origin, ids)] + Fields(r.ts - base, codec.marshal(r))
  }

  function EncodeRecords(codec: RecordCodec, base: uint32, ids: seq<NodeID>, recs: seq<Record>): bytes
    requires |ids| <= MAX_ORIGINS && forall r :: r in recs ==> r.origin in ids
  {
    if recs == [] then []
    else EncodeRecord(codec, base, ids, recs[0]) + EncodeRecords(codec, base, ids, recs[1..])
  }

  function Header(area: AreaTag, base: uint32, ids: seq<NodeID>, count: nat): bytes
    requires |ids| <= MAX_ORIGINS
  {
    area + BE32(base) + [|ids|] + Table(ids) + PutUvarint(count)
  }

  function EncodeBody(codec: RecordCodec, b: Batch): bytes
    requires |Origins(b.records)| <= MAX_ORIGINS
  {
    var ids := Origins(b.records);
    Header(b.area, b.baseTS, ids, |b.records|) + EncodeRecords(codec, b.baseTS, ids, b.records)
  }

  // What a body can carry: the dictionary travels outside it.
  predicate IsBody(b: Batch) {
    1 <= |b.records| <= MAX_RECORDS && |Origins(b.records)| <= MAX_ORIGINS && b.dictID == 0
  }

  lemma {:induction false} EncodeRecordsAppend(codec: RecordCodec, base: uint32, ids: seq<NodeID>, xs: seq<Record>,
                                               ys: seq<Record>)
    requires |ids| <= MAX_ORIGINS && (forall r :: r in xs ==> r.origin in ids)
             && (forall r :: r in ys ==> r.origin in ids)
    ensures EncodeRecords(codec, base, ids, xs + ys) == EncodeRecords(codec, base, ids, xs) +
            EncodeRecords(codec, base, ids, ys)
  {
    hide EncodeRecord;
    if xs == [] {
      assert xs + ys == ys;
    } else {
      EncodeRecordsAppend(codec, base, ids, xs[1..], ys);
      assert (xs + ys)[1..] == xs[1..] + ys && (xs + ys)[0] == xs[0];
    }
  }

  // ---- building -------------------------------------------------------------------------------

  ghost predicate Indexes(index: map<NodeID, nat>, ids: seq<NodeID>) {
    (forall id :: id in index <==> id in ids) && (forall id :: id in index ==> index[id] == IndexOf(id, ids))
  }

  lemma IndexGrows(index: map<NodeID, nat>, ids: seq<NodeID>, o: NodeID)
    requires Indexes(index, ids) && o !in ids && Distinct(ids)
    ensures Indexes(index[o := |ids|], ids + [o])
  {
    var grown := ids + [o];
    forall id | id in grown
      ensures IndexOf(id, grown) == if id == o then |ids| else IndexOf(id, ids)
    {
      assert grown[if id == o then |ids| else IndexOf(id, ids)] == id;
    }
  }

  method BuildTable(recs: seq<Record>) returns (ids: seq<NodeID>, index: map<NodeID, nat>)
    ensures ids == Origins(recs) && Indexes(index, ids)
  {
    ids, index := [], map[];
    for i := 0 to |recs|
      invariant ids == Origins(recs[..i]) && Indexes(index, ids)
    {
      var o := recs[i].origin;
      assert recs[..i + 1][..i] == recs[..i];
      if o !in index {
        IndexGrows(index, ids, o);
        index := index[o := |ids|];
        ids := ids + [o];
      }
    }
    assert recs[..|recs|] == recs;
  }

  method WriteHeader(b: Batch, ids: seq<NodeID>) returns (buf: bytes)
    requires |ids| <= MAX_ORIGINS
    ensures buf == Header(b.area, b.baseTS, ids, |b.records|)
  {
    buf := b.area + BE32(b.baseTS) + [|ids|];
    ghost var start := buf;
    for i := 0 to |ids|
      invariant buf == start + Table(ids[..i])
    {
      assert ids[..i + 1][..i] == ids[..i];
      buf := buf + ids[i];
    }
    assert ids[..|ids|] == ids;
    buf := buf + PutUvarint(|b.records|);
  }

  method BuildBody(codec: RecordCodec, b: Batch) returns (r: Result<bytes, BundleError>)
    ensures r == if |Origins(b.records)| <= MAX_ORIGINS then Ok(EncodeBody(codec, b)) else Err(TooMany)
  {
    var ids, index := BuildTable(b.records);
    if |ids| > MAX_ORIGINS {
      return Err(TooMany);
    }
    var buf := WriteHeader(b, ids);
    buf := WriteRecords(codec, b, ids, index, buf);
    return Ok(buf);
  }

  method WriteRecords(codec: RecordCodec, b: Batch, ids: seq<NodeID>, index: map<NodeID, nat>, header: bytes)
    returns (buf: bytes)
    requires |ids| <= MAX_ORIGINS && Indexes(index, ids) && forall x :: x in b.records ==> x.origin in ids
    ensures buf == header + EncodeRecords(codec, b.baseTS, ids, b.records)
  {
    hide EncodeRecords, Fields, IndexOf;
    buf := header;
    EmptyBatchFacts(codec, b.baseTS, ids);
    for i := 0 to |b.records|
      invariant buf == header + EncodeRecords(codec, b.baseTS, ids, b.records[..i])
    {
      var rec := b.records[i];
      LastRecord(codec, b.baseTS, ids, b.records[..i], rec);
      assert b.records[..i + 1] == b.records[..i] + [rec];
      buf := buf + ([index[rec.origin]] + Fields(rec.ts - b.baseTS, codec.marshal(rec)));
    }
    assert b.records[..|b.records|] == b.records;
  }

  lemma LastRecord(codec: RecordCodec, base: uint32, ids: seq<NodeID>, xs: seq<Record>, y: Record)
    requires |ids| <= MAX_ORIGINS && (forall r :: r in xs ==> r.origin in ids) && y.origin in ids
    ensures EncodeRecords(codec, base, ids, xs + [y])
            == EncodeRecords(codec, base, ids, xs) + EncodeRecord(codec, base, ids, y)
  {
    EncodeRecordsAppend(codec, base, ids, xs, [y]);
    assert EncodeRecords(codec, base, ids, [y]) == EncodeRecord(codec, base, ids, y);
  }

  // ---- parsing ---------------------------------------------------------------------------------

  datatype Entry = Entry(delta: int64, raw: bytes)

  lemma FieldsParse(s: bytes, delta: int64, raw: bytes)
    requires |raw| < 0x1_0000_0000_0000_0000 && Fields(delta, raw) <= s
    ensures var n1, n2 := |PutVarint(delta)|, |PutUvarint(|raw|)|;
            && n1 + n2 + |raw| == |Fields(delta, raw)| <= |s|
            && CanonicalVarint(s) == Ok(SignedReading(delta, n1))
            && CanonicalUvarint(s[n1..]) == Ok(Reading(|raw|, n2))
            && s[n1 + n2..n1 + n2 + |raw|] == raw
  {
    var d, u := PutVarint(delta), PutUvarint(|raw|);
    var rest := s[|Fields(delta, raw)|..];
    assert s == d + (u + (raw + rest));
    assert d <= s;
    assert s[|d|..] == u + (raw + rest);
    assert u <= s[|d|..];
    VarintIsCanonical(s, delta);
    UvarintIsCanonical(s[|d|..], |raw|);
  }

  lemma FieldsArePrefixFree(s: bytes, d1: int64, r1: bytes, d2: int64, r2: bytes)
    requires |r1| < 0x1_0000_0000_0000_0000 && |r2| < 0x1_0000_0000_0000_0000
    requires Fields(d1, r1) <= s && Fields(d2, r2) <= s
    ensures d1 == d2 && r1 == r2
  {
    hide Fields;
    FieldsParse(s, d1, r1);
    FieldsParse(s, d2, r2);
  }

  lemma RecordsArePrefixFree(codec: RecordCodec, s: bytes, base: uint32, ids: seq<NodeID>, q: Record, r: Record)
    requires Lawful(codec) && Fits(codec, q) && Fits(codec, r)
    requires q.origin in ids && r.origin in ids && |ids| <= MAX_ORIGINS
    requires EncodeRecord(codec, base, ids, q) <= s && EncodeRecord(codec, base, ids, r) <= s
    ensures q == r
  {
    hide Fields, IndexOf;
    EntryAtFront(codec, s, base, ids, q);
    EntryAtFront(codec, s, base, ids, r);
    FieldsArePrefixFree(s[1..], q.ts - base, codec.marshal(q), r.ts - base, codec.marshal(r));
    assert codec.unmarshal(codec.marshal(q)) == codec.unmarshal(codec.marshal(r));
  }

  lemma FrontOf(first: byte, more: bytes, s: bytes)
    ensures [first] + more <= s <==> |s| >= 1 && s[0] == first && more <= s[1..]
  {
    if |s| >= 1 && s[0] == first && more <= s[1..] {
      assert s == [first] + s[1..];
    }
    assert ([first] + more)[1..] == more;
  }

  lemma EntryIs(codec: RecordCodec, base: uint32, ids: seq<NodeID>, r: Record)
    requires r.origin in ids && |ids| <= MAX_ORIGINS
    ensures EncodeRecord(codec, base, ids, r) == [IndexOf(r.origin, ids)] + Fields(r.ts - base, codec.marshal(r))
  {
  }

  lemma EntryAtFront(codec: RecordCodec, s: bytes, base: uint32, ids: seq<NodeID>, r: Record)
    requires r.origin in ids && |ids| <= MAX_ORIGINS
    ensures EncodeRecord(codec, base, ids, r) <= s <==>
            |s| >= 1 && s[0] == IndexOf(r.origin, ids) && Fields(r.ts - base, codec.marshal(r)) <= s[1..]
  {
    hide EncodeRecord, Fields, IndexOf;
    EntryIs(codec, base, ids, r);
    FrontOf(IndexOf(r.origin, ids), Fields(r.ts - base, codec.marshal(r)), s);
  }

  // The fields at the front of s.
  method ReadFields(s: bytes) returns (r: Result<Entry, BundleError>)
    ensures r.Ok? ==> Fields(r.value.delta, r.value.raw) <= s && |r.value.raw| < 0x1_0000_0000_0000_0000
    ensures r.Err? ==> r.error != UnknownDictionary
    ensures r.Err? ==> forall delta: int64, raw: bytes :: |raw| < 0x1_0000_0000_0000_0000 ==> !(Fields(delta, raw) <= s)
  {
    hide Fields, PutVarint, PutUvarint, CanonicalVarint, CanonicalUvarint;
    forall d: int64, raw: bytes | |raw| < 0x1_0000_0000_0000_0000 && Fields(d, raw) <= s
      ensures var n1, n2 := |PutVarint(d)|, |PutUvarint(|raw|)|;
              && n1 + n2 + |raw| == |Fields(d, raw)| <= |s|
              && CanonicalVarint(s) == Ok(SignedReading(d, n1))
              && CanonicalUvarint(s[n1..]) == Ok(Reading(|raw|, n2))
    {
      FieldsParse(s, d, raw);
    }
    var delta := CanonicalVarint(s);
    if delta.Err? {
      return Err(if delta.error == CutShort then Truncated else NotCanonical);
    }
    var p := delta.value.length;
    var len := CanonicalUvarint(s[p..]);
    if len.Err? {
      return Err(if len.error == CutShort then Truncated else NotCanonical);
    }
    var q := p + len.value.length;
    if len.value.value > |s| - q {
      return Err(Truncated);
    }
    var raw := s[q..q + len.value.value];
    FieldsWritten(s, delta.value, len.value);
    return Ok(Entry(delta.value.value, raw));
  }

  lemma FieldsWritten(s: bytes, delta: SignedReading, len: Reading)
    requires CanonicalVarint(s) == Ok(delta) && CanonicalUvarint(s[delta.length..]) == Ok(len)
    requires delta.length + len.length + len.value <= |s|
    ensures var q := delta.length + len.length;
            Fields(delta.value, s[q..q + len.value]) <= s && len.value < 0x1_0000_0000_0000_0000
  {
    hide PutVarint, PutUvarint, CanonicalVarint, CanonicalUvarint;
    var p, q := delta.length, delta.length + len.length;
    VarintIsCanonical(s, delta.value);
    UvarintIsCanonical(s[p..], len.value);
    assert s[..p] == PutVarint(delta.value) && s[p..q] == PutUvarint(len.value);
    assert s[..q + len.value] == s[..p] + s[p..q] + s[q..q + len.value];
  }

  datatype Parsed = Parsed(rec: Record, length: nat)

  // Go adds the delta to the base in 64-bit two's complement.
  function WrapInt64(x: int): int64 {
    (x + 0x8000_0000_0000_0000) % 0x1_0000_0000_0000_0000 - 0x8000_0000_0000_0000
  }

  lemma DeltaAgrees(base: uint32, delta: int64, ts: uint32)
    ensures ts == WrapInt64(base + delta) <==> delta == ts - base
  {
  }

  // One record at the front of s, when the first `used` entries of the table are taken.
  method ReadRecord(codec: RecordCodec, s: bytes, base: uint32, ids: seq<NodeID>, used: nat)
    returns (r: Result<Parsed, BundleError>)
    requires Lawful(codec) && Distinct(ids) && |ids| <= MAX_ORIGINS
    ensures r.Ok? ==>
              && r.value.rec.origin in ids && IndexOf(r.value.rec.origin, ids) <= used
              && EncodeRecord(codec, base, ids, r.value.rec) <= s
              && r.value.length == |EncodeRecord(codec, base, ids, r.value.rec)| && Fits(codec, r.value.rec)
    ensures r.Err? ==> r.error != UnknownDictionary
    ensures r.Err? ==> forall q: Record :: Fits(codec, q) && q.origin in ids && IndexOf(q.origin, ids) <= used ==>
                         !(EncodeRecord(codec, base, ids, q) <= s)
  {
    hide Fields, IndexOf, WrapInt64;
    forall q: Record | q.origin in ids
      ensures EncodeRecord(codec, base, ids, q) <= s <==>
              |s| >= 1 && s[0] == IndexOf(q.origin, ids) && Fields(q.ts - base, codec.marshal(q)) <= s[1..]
    {
      EntryAtFront(codec, s, base, ids, q);
    }
    if |s| < 1 {
      return Err(Truncated);
    }
    var idx := s[0];
    if idx >= |ids| {
      return Err(Malformed);
    }
    if idx > used {
      return Err(NotCanonical);
    }
    var entry := ReadFields(s[1..]);
    if entry.Err? {
      return Err(entry.error);
    }
    forall q: Record | Fits(codec, q) && q.origin in ids && Fields(q.ts - base, codec.marshal(q)) <= s[1..]
      ensures q.ts - base == entry.value.delta && codec.marshal(q) == entry.value.raw
    {
      FieldsArePrefixFree(s[1..], q.ts - base, codec.marshal(q), entry.value.delta, entry.value.raw);
    }
    var rec := codec.unmarshal(entry.value.raw);
    if rec.None? {
      return Err(Malformed);
    }
    DeltaAgrees(base, entry.value.delta, rec.value.ts);
    if rec.value.origin != ids[idx] || rec.value.ts != WrapInt64(base + entry.value.delta) {
      return Err(Malformed);
    }
    return Ok(Parsed(rec.value, 1 + |Fields(entry.value.delta, entry.value.raw)|));
  }

  // ---- the header --------------------------------------------------------------------------

  lemma {:induction false} TableEntries(ids: seq<NodeID>, i: nat)
    requires i < |ids|
    ensures Table(ids)[8 * i..8 * i + 8] == ids[i]
  {
    var last := |ids| - 1;
    if i < last {
      TableEntries(ids[..last], i);
      assert Table(ids)[8 * i..8 * i + 8] == Table(ids[..last])[8 * i..8 * i + 8];
    }
  }

  lemma HeaderParses(b: bytes, area: AreaTag, base: uint32, ids: seq<NodeID>, count: uint64)
    requires |ids| <= MAX_ORIGINS && Header(area, base, ids, count) <= b
    ensures var n := 9 + 8 * |ids|;
            && n + |PutUvarint(count)| == |Header(area, base, ids, count)| <= |b|
            && b[..4] == area && FromBE32(b[4..8]) == base && b[8] == |ids| && b[9..n] == Table(ids)
            && CanonicalUvarint(b[n..]) == Ok(Reading(count, |PutUvarint(count)|))
  {
    hide BE32, FromBE32;
    var n := 9 + 8 * |ids|;
    var h, c := Header(area, base, ids, count), PutUvarint(count);
    assert h[..4] == area && h[4..8] == BE32(base) && h[8] == |ids| && h[9..n] == Table(ids) && h[n..] == c;
    assert b[..4] == h[..4] && b[4..8] == h[4..8] && b[9..n] == h[9..n];
    assert b[n..] == c + b[|h|..];
    BE32RoundTrip(base, BE32(base));
    UvarintIsCanonical(b[n..], count);
  }

  datatype Preamble = Preamble(area: AreaTag, base: uint32, ids: seq<NodeID>, count: nat, length: nat)

  method ReadHeader(b: bytes) returns (r: Result<Preamble, BundleError>)
    ensures r.Ok? ==> var h := r.value;
              && 1 <= |h.ids| <= MAX_ORIGINS && Distinct(h.ids) && 1 <= h.count <= MAX_RECORDS
              && Header(h.area, h.base, h.ids, h.count) <= b && h.length == |Header(h.area, h.base, h.ids, h.count)|
    ensures r.Err? ==> r.error != UnknownDictionary
    ensures r.Err? ==> forall area: AreaTag, base: uint32, ids: seq<NodeID>, count: nat ::
              1 <= |ids| <= MAX_ORIGINS && Distinct(ids) && 1 <= count <= MAX_RECORDS ==>
                !(Header(area, base, ids, count) <= b)
  {
    hide BE32, FromBE32, Header, Table, Distinct;
    forall area: AreaTag, base: uint32, ids: seq<NodeID>, count: nat
      | 1 <= |ids| <= MAX_ORIGINS && Distinct(ids) && 1 <= count <= MAX_RECORDS && Header(area, base, ids, count) <= b
      ensures var n := 9 + 8 * |ids|;
              && n + |PutUvarint(count)| == |Header(area, base, ids, count)| <= |b|
              && b[..4] == area && FromBE32(b[4..8]) == base && b[8] == |ids| && b[9..n] == Table(ids)
              && CanonicalUvarint(b[n..]) == Ok(Reading(count, |PutUvarint(count)|))
    {
      HeaderParses(b, area, base, ids, count);
    }
    if |b| < 9 {
      return Err(Truncated);
    }
    if b[8] == 0 || b[8] > MAX_ORIGINS {
      return Err(TooMany);
    }
    var k: nat := b[8];
    var n := 9 + 8 * k;
    if |b| < n {
      return Err(Truncated);
    }
    var ids := ReadTable(b[9..n], k);
    if ids.None? {
      return Err(NotCanonical);
    }
    var count := CanonicalUvarint(b[n..]);
    if count.Err? {
      return Err(if count.error == CutShort then Truncated else NotCanonical);
    }
    if count.value.value == 0 {
      return Err(EmptyBatch);
    }
    if count.value.value > MAX_RECORDS {
      return Err(TooMany);
    }
    UvarintIsCanonical(b[n..], count.value.value);
    HeaderWritten(b, ids.value, count.value.value);
    return Ok(Preamble(b[..4], FromBE32(b[4..8]), ids.value, count.value.value, n + count.value.length));
  }

  lemma HeaderWritten(b: bytes, ids: seq<NodeID>, count: nat)
    requires |ids| <= MAX_ORIGINS && |b| >= 9 + 8 * |ids| && b[8] == |ids| && b[9..9 + 8 * |ids|] == Table(ids)
    requires PutUvarint(count) <= b[9 + 8 * |ids|..]
    ensures Header(b[..4], FromBE32(b[4..8]), ids, count) <= b
    ensures |Header(b[..4], FromBE32(b[4..8]), ids, count)| == 9 + 8 * |ids| + |PutUvarint(count)|
  {
    hide BE32, FromBE32;
    var n := 9 + 8 * |ids|;
    BE32RoundTrip(0, b[4..8]);
    assert b == b[..4] + b[4..8] + [b[8]] + b[9..n] + b[n..];
  }

  lemma TableAppend(ids: seq<NodeID>, id: NodeID)
    ensures Table(ids + [id]) == Table(ids) + id && Table([]) == []
  {
    assert (ids + [id])[..|ids|] == ids;
  }

  lemma RepeatedEntry(b: bytes, n: nat, i: nat, j: nat)
    requires |b| == 8 * n && j < i < n && b[8 * i..8 * i + 8] == b[8 * j..8 * j + 8]
    ensures forall ids: seq<NodeID> :: |ids| == n && Distinct(ids) ==> Table(ids) != b
  {
    forall ids: seq<NodeID> | |ids| == n && Distinct(ids)
      ensures Table(ids) != b
    {
      TableEntries(ids, i);
      TableEntries(ids, j);
    }
  }

  // The origin table, unless an entry repeats.
  method ReadTable(b: bytes, n: nat) returns (r: Option<seq<NodeID>>)
    requires |b| == 8 * n
    ensures r.Some? ==> |r.value| == n && Distinct(r.value) && Table(r.value) == b
    ensures r.None? ==> forall ids: seq<NodeID> :: |ids| == n && Distinct(ids) ==> Table(ids) != b
  {
    hide Table;
    var ids: seq<NodeID> := [];
    var seen: set<NodeID> := {};
    assert Table([]) == [] by {
      TableAppend([], Zeros(8));
    }
    for i := 0 to n
      invariant |ids| == i && Distinct(ids) && Table(ids) == b[..8 * i]
      invariant forall j :: 0 <= j < i ==> ids[j] == b[8 * j..8 * j + 8]
      invariant forall id :: id in seen <==> id in ids
    {
      var id: NodeID := b[8 * i..8 * i + 8];
      if id in seen {
        var j :| 0 <= j < i && ids[j] == id;
        RepeatedEntry(b, n, i, j);
        return None;
      }
      TableAppend(ids, id);
      assert b[..8 * i] + id == b[..8 * (i + 1)];
      ids, seen := ids + [id], seen + {id};
    }
    assert b[..8 * n] == b;
    return Some(ids);
  }

  // ---- the whole body -----------------------------------------------------------------------

  ghost predicate Encodes(codec: RecordCodec, t: Batch, b: bytes) {
    IsBody(t) && (forall r :: r in t.records ==> Fits(codec, r)) && EncodeBody(codec, t) == b
  }

  // Where a parse of an encoding stands after its header and i records.
  lemma NextRecordIsAhead(codec: RecordCodec, t: Batch, b: bytes, i: nat, p: nat)
    requires Encodes(codec, t, b) && i < |t.records| && p <= |b|
    requires var ids := Origins(t.records);
             b[..p] == Header(t.area, t.baseTS, ids, |t.records|) + EncodeRecords(codec, t.baseTS, ids, t.records[..i])
    ensures Fits(codec, t.records[i]) && EncodeRecord(codec, t.baseTS, Origins(t.records), t.records[i]) <= b[p..]
    ensures IndexOf(t.records[i].origin, Origins(t.records)) <= |Origins(t.records[..i])|
  {
    hide Origins, Header, EncodeRecord, IndexOf;
    var ids := Origins(t.records);
    var head, rest := t.records[..i], t.records[i..];
    assert head + rest == t.records;
    EncodeRecordsAppend(codec, t.baseTS, ids, head, rest);
    var encoded := EncodeRecords(codec, t.baseTS, ids, rest);
    assert rest[0] == t.records[i];
    assert b == b[..p] + encoded;
    assert b[p..] == encoded;
    OriginIsKnownOrNext(t.records, i);
  }

  // Everything read so far is what a target encoding starts with, if there is one.
  ghost predicate Follows(t: Option<Batch>, h: Preamble, recs: seq<Record>) {
    t.Some? ==>
      && |recs| <= |t.value.records| && recs == t.value.records[..|recs|]
      && h.area == t.value.area && h.base == t.value.baseTS && h.ids == Origins(t.value.records)
      && h.count == |t.value.records|
  }

  ghost predicate IsTarget(codec: RecordCodec, b: bytes, t: Option<Batch>) {
    if t.Some? then Encodes(codec, t.value, b) else forall x: Batch :: !Encodes(codec, x, b)
  }

  method DecodeBody(codec: RecordCodec, b: bytes) returns (r: Result<Batch, BundleError>)
    requires Lawful(codec)
    ensures r.Ok? ==> Encodes(codec, r.value, b)
    ensures r.Err? ==> r.error != UnknownDictionary
    ensures r.Err? ==> forall x: Batch :: !Encodes(codec, x, b)
  {
    hide Encodes, Header, EncodeRecords, EncodeRecord, IndexOf, Origins;
    ghost var t: Option<Batch> := None;
    if x: Batch :| Encodes(codec, x, b) {
      t := Some(x);
    }
    assert IsTarget(codec, b, t);
    var header := ReadHeader(b);
    if t.Some? {
      TargetHeader(codec, t.value, b, header);
    }
    if header.Err? {
      return Err(header.error);
    }
    var h := header.value;
    var recs: seq<Record> := [];
    var p: nat, used: nat := h.length, 0;
    EmptyBatchFacts(codec, h.base, h.ids);
    while |recs| < h.count
      invariant |recs| <= h.count && Parsing(codec, b, t, h, recs, p, used)
      decreases h.count - |recs|
    {
      var next := ReadRecord(codec, b[p..], h.base, h.ids, used);
      if t.Some? {
        NextRecordIsAhead(codec, t.value, b, |recs|, p);
      }
      if next.Err? {
        return Err(next.error);
      }
      ParsedOne(codec, b, t, h, recs, p, used, next.value);
      used := if b[p] == used then used + 1 else used;
      recs, p := recs + [next.value.rec], p + next.value.length;
    }
    if t.Some? {
      assert recs == t.value.records;
      TargetIsWhole(codec, t.value, b);
    }
    if used != |h.ids| {
      return Err(NotCanonical);
    }
    if p != |b| {
      return Err(Malformed);
    }
    assert h.ids[..used] == h.ids && b[..p] == b;
    r := Ok(Batch(h.area, h.base, 0, recs));
    WholeBody(codec, r.value, b);
  }

  // Where a parse stands: at p, with these records read and `used` table entries taken.
  ghost predicate Parsing(codec: RecordCodec, b: bytes, t: Option<Batch>, h: Preamble, recs: seq<Record>, p: nat,
                          used: nat)
  {
    && p <= |b| && used <= |h.ids| <= MAX_ORIGINS && (forall x :: x in recs ==> x.origin in h.ids && Fits(codec, x))
    && Origins(recs) == h.ids[..used]
    && b[..p] == Header(h.area, h.base, h.ids, h.count) + EncodeRecords(codec, h.base, h.ids, recs)
    && Follows(t, h, recs)
  }

  lemma ParsedOne(codec: RecordCodec, b: bytes, t: Option<Batch>, h: Preamble, recs: seq<Record>, p: nat, used: nat,
                  next: Parsed)
    requires Lawful(codec) && Distinct(h.ids) && Parsing(codec, b, t, h, recs, p, used) && |recs| < h.count
    requires t.Some? ==> Encodes(codec, t.value, b)
    requires Fits(codec, next.rec) && next.rec.origin in h.ids && IndexOf(next.rec.origin, h.ids) <= used
    requires EncodeRecord(codec, h.base, h.ids, next.rec) <= b[p..]
    requires next.length == |EncodeRecord(codec, h.base, h.ids, next.rec)|
    ensures p < |b| && Parsing(codec, b, t, h, recs + [next.rec], p + next.length,
                                if b[p] == used then used + 1 else used)
  {
    hide Encodes, Header, EncodeRecords, EncodeRecord, IndexOf, Origins;
    EntryAtFront(codec, b[p..], h.base, h.ids, next.rec);
    TableExtends(recs, next.rec, h.ids, used);
    LastRecord(codec, h.base, h.ids, recs, next.rec);
    assert b[..p + next.length] == b[..p] + b[p..][..next.length];
    if t.Some? {
      NextRecordIsAhead(codec, t.value, b, |recs|, p);
      RecordsArePrefixFree(codec, b[p..], h.base, h.ids, next.rec, t.value.records[|recs|]);
    }
  }

  lemma EmptyBatchFacts(codec: RecordCodec, base: uint32, ids: seq<NodeID>)
    requires |ids| <= MAX_ORIGINS
    ensures EncodeRecords(codec, base, ids, []) == [] && Origins([]) == []
  {
  }

  lemma TargetHeader(codec: RecordCodec, t: Batch, b: bytes, header: Result<Preamble, BundleError>)
    requires Encodes(codec, t, b)
    requires header.Ok? ==> var h := header.value;
               && 1 <= |h.ids| <= MAX_ORIGINS && h.count <= MAX_RECORDS && Header(h.area, h.base, h.ids, h.count) <= b
    requires header.Err? ==> forall area: AreaTag, base: uint32, ids: seq<NodeID>, count: nat ::
               1 <= |ids| <= MAX_ORIGINS && Distinct(ids) && 1 <= count <= MAX_RECORDS ==>
                 !(Header(area, base, ids, count) <= b)
    ensures header.Ok? && Follows(Some(t), header.value, [])
  {
    hide Header, EncodeRecords;
    var ids := Origins(t.records);
    assert Header(t.area, t.baseTS, ids, |t.records|) <= b;
    HeaderParses(b, t.area, t.baseTS, ids, |t.records|);
    if header.Ok? {
      var h := header.value;
      HeaderParses(b, h.area, h.base, h.ids, h.count);
      forall i | 0 <= i < |ids|
        ensures h.ids[i] == ids[i]
      {
        TableEntries(h.ids, i);
        TableEntries(ids, i);
      }
      assert t.records[..0] == [];
    }
  }

  lemma TableExtends(recs: seq<Record>, rec: Record, ids: seq<NodeID>, used: nat)
    requires Distinct(ids) && used <= |ids| && Origins(recs) == ids[..used]
    requires rec.origin in ids && IndexOf(rec.origin, ids) <= used
    ensures var idx := IndexOf(rec.origin, ids);
            var used' := if idx == used then used + 1 else used;
            used' <= |ids| && Origins(recs + [rec]) == ids[..used']
  {
    assert (recs + [rec])[..|recs|] == recs;
    var idx := IndexOf(rec.origin, ids);
    if idx < used {
      assert ids[..used][idx] == rec.origin;
    } else {
      assert rec.origin !in ids[..used];
      assert ids[..used] + [ids[used]] == ids[..used + 1];
    }
  }

  lemma TargetIsWhole(codec: RecordCodec, t: Batch, b: bytes)
    requires Encodes(codec, t, b)
    ensures b == Header(t.area, t.baseTS, Origins(t.records), |t.records|)
                 + EncodeRecords(codec, t.baseTS, Origins(t.records), t.records)
  {
  }

  lemma WholeBody(codec: RecordCodec, t: Batch, b: bytes)
    requires IsBody(t) && forall r :: r in t.records ==> Fits(codec, r)
    requires b == Header(t.area, t.baseTS, Origins(t.records), |t.records|)
                  + EncodeRecords(codec, t.baseTS, Origins(t.records), t.records)
    ensures Encodes(codec, t, b)
  {
    hide Header, EncodeRecords, Origins, Fits;
  }

  // ---- the body format is a bijection -----------------------------------------------------------

  ghost function Front(codec: RecordCodec, t: Batch, i: nat): bytes
    requires IsBody(t) && i <= |t.records|
  {
    var ids := Origins(t.records);
    Header(t.area, t.baseTS, ids, |t.records|) + EncodeRecords(codec, t.baseTS, ids, t.records[..i])
  }

  lemma FrontIsPrefix(codec: RecordCodec, t: Batch, i: nat)
    requires IsBody(t) && i <= |t.records|
    ensures Front(codec, t, i) <= EncodeBody(codec, t)
  {
    var head, rest := t.records[..i], t.records[i..];
    assert head + rest == t.records;
    EncodeRecordsAppend(codec, t.baseTS, Origins(t.records), head, rest);
  }

  lemma {:induction false} SameRecords(codec: RecordCodec, x: Batch, y: Batch, b: bytes, i: nat)
    requires Lawful(codec) && Encodes(codec, x, b) && Encodes(codec, y, b) && i <= |x.records| == |y.records|
    requires x.area == y.area && x.baseTS == y.baseTS && Origins(x.records) == Origins(y.records)
    ensures x.records[..i] == y.records[..i]
  {
    hide Header, EncodeRecords, EncodeRecord, Origins, EncodeBody;
    if i > 0 {
      var j := i - 1;
      SameRecords(codec, x, y, b, j);
      FrontIsPrefix(codec, x, j);
      var p := |Front(codec, x, j)|;
      NextRecordIsAhead(codec, x, b, j, p);
      NextRecordIsAhead(codec, y, b, j, p);
      RecordsArePrefixFree(codec, b[p..], x.baseTS, Origins(x.records), x.records[j], y.records[j]);
    }
  }

  /** Two bundles with one body are one bundle. */
  lemma EncodingsAreUnique(codec: RecordCodec, x: Batch, y: Batch, b: bytes)
    requires Lawful(codec) && Encodes(codec, x, b) && Encodes(codec, y, b)
    ensures x == y
  {
    hide Header, EncodeRecords, EncodeRecord;
    var ids := Origins(y.records);
    var h := Preamble(y.area, y.baseTS, ids, |y.records|, 0);
    assert Header(h.area, h.base, h.ids, h.count) <= b;
    TargetHeader(codec, x, b, Ok(h));
    SameRecords(codec, x, y, b, |x.records|);
    assert x.records[..|x.records|] == x.records && y.records[..|x.records|] == y.records;
  }

  // The inverse of EncodeBody on the byte strings that have one.
  ghost function Parse(codec: RecordCodec, b: bytes): (t: Option<Batch>)
    ensures IsTarget(codec, b, t)
  {
    if exists x: Batch :: Encodes(codec, x, b) then
      var x: Batch :| Encodes(codec, x, b);
      Some(x)
    else None
  }

  /** Decoding undoes encoding, for one to 256 records and at most 64 origins. */
  lemma BodyRoundTrip(codec: RecordCodec, t: Batch)
    requires Lawful(codec) && IsBody(t) && forall r :: r in t.records ==> Fits(codec, r)
    ensures Parse(codec, EncodeBody(codec, t)) == Some(t)
  {
    var b := EncodeBody(codec, t);
    assert Encodes(codec, t, b);
    EncodingsAreUnique(codec, t, Parse(codec, b).value, b);
  }

  // A body is no shorter than any record in it.
  lemma {:induction false} RecordsAreInside(codec: RecordCodec, base: uint32, ids: seq<NodeID>, recs: seq<Record>,
                                            r: Record)
    requires |ids| <= MAX_ORIGINS && (forall x :: x in recs ==> x.origin in ids) && r in recs
    ensures |codec.marshal(r)| <= |EncodeRecords(codec, base, ids, recs)|
  {
    hide PutVarint, PutUvarint, IndexOf;
    if r != recs[0] {
      RecordsAreInside(codec, base, ids, recs[1..], r);
    }
  }

  // ---- packing under a dictionary --------------------------------------------------------------

  datatype Dictionary = Dictionary(id: byte, compress: bytes -> bytes, decompress: bytes -> Option<bytes>)

  ghost predicate Faithful(d: Dictionary) {
    forall b: bytes :: d.decompress(d.compress(b)) == Some(b)
  }

  function Envelope(id: byte, size: nat, compressed: bytes): bytes {
    [FORMAT_VERSION, id] + PutUvarint(size) + compressed
  }

  // What Pack promises: the refusals in order, and otherwise the compressed body in its envelope.
  function Packed(codec: RecordCodec, b: Batch, d: Dictionary): (r: Result<bytes, BundleError>) {
    if b.records == [] then Err(EmptyBatch)
    else if |b.records| > MAX_RECORDS || |Origins(b.records)| > MAX_ORIGINS then Err(TooMany)
    else
      var body := EncodeBody(codec, b);
      Ok(Envelope(d.id, |body|, d.compress(body)))
  }

  method Pack(codec: RecordCodec, b: Batch, d: Dictionary) returns (r: Result<bytes, BundleError>)
    ensures r == Packed(codec, b, d)
  {
    if |b.records| == 0 {
      return Err(EmptyBatch);
    }
    if |b.records| > MAX_RECORDS {
      return Err(TooMany);
    }
    var body := BuildBody(codec, b);
    if body.Err? {
      return Err(body.error);
    }
    return Ok(Envelope(d.id, |body.value|, d.compress(body.value)));
  }

  // The body inside an envelope, or the reason there is none.
  function Opened(data: bytes, dicts: map<byte, Dictionary>): (r: Result<bytes, BundleError>) {
    if |data| < 3 then Err(Truncated)
    else if data[0] != FORMAT_VERSION then Err(Malformed)
    else
      match RawUvarint(data[2..], 0)
      case None => Err(Truncated)
      case Some(declared) =>
        if declared.value > MAX_DECOMPRESSED then Err(Bomb)
        else if data[1] !in dicts then Err(UnknownDictionary)
        else
          match dicts[data[1]].decompress(data[2 + declared.length..])
          case None => Err(Malformed)
          case Some(body) => if |body| != declared.value then Err(Bomb) else Ok(body)
  }

  /** Whatever a dictionary makes of the bytes it is given: an envelope that opens yields exactly as much as it
      declares, never more than the bound, and is of this version. */
  lemma OpensToWhatItDeclares(data: bytes, dicts: map<byte, Dictionary>)
    requires Opened(data, dicts).Ok?
    ensures |data| >= 3 && data[0] == FORMAT_VERSION && data[1] in dicts && RawUvarint(data[2..], 0).Some?
    ensures |Opened(data, dicts).value| == RawUvarint(data[2..], 0).value.value <= MAX_DECOMPRESSED
  {
  }

  ghost function Unpacked(codec: RecordCodec, data: bytes, dicts: map<byte, Dictionary>): Option<Batch> {
    match Opened(data, dicts)
    case Err(_) => None
    case Ok(body) => Parse(codec, body)
  }

  method Unpack(codec: RecordCodec, data: bytes, dicts: map<byte, Dictionary>) returns (r: Result<Batch, BundleError>)
    requires Lawful(codec)
    ensures r.Ok? <==> Unpacked(codec, data, dicts).Some?
    ensures r.Ok? ==> Some(r.value) == Unpacked(codec, data, dicts)
    ensures r.Err? && r.error == UnknownDictionary <==> Opened(data, dicts) == Err(UnknownDictionary)
  {
    var body := Opened(data, dicts);
    if body.Err? {
      return Err(body.error);
    }
    r := DecodeBody(codec, body.value);
    if r.Ok? {
      EncodingsAreUnique(codec, r.value, Parse(codec, body.value).value, body.value);
    }
  }

  /** What was packed unpacks to the same area, timestamp and records exactly when its body fits the
      decompression bound. */
  lemma PackRoundTrip(codec: RecordCodec, b: Batch, d: Dictionary, dicts: map<byte, Dictionary>)
    requires Lawful(codec) && Packed(codec, b, d).Ok?
    requires d.id in dicts && dicts[d.id] == d && Faithful(d) && |EncodeBody(codec, b)| < 0x1_0000_0000_0000_0000
    ensures var t := Unpacked(codec, Packed(codec, b, d).value, dicts);
            if |EncodeBody(codec, b)| <= MAX_DECOMPRESSED then t == Some(b.(dictID := 0)) else t == None
  {
    hide Header, EncodeRecords, Origins, PutUvarint, RawUvarint;
    var body := EncodeBody(codec, b);
    var compressed := d.compress(body);
    var data := Packed(codec, b, d).value;
    LimitIsUint64();
    RawReadsWhatWasPut(|body|, compressed, 0);
    assert data[2..] == PutUvarint(|body|) + compressed;
    assert data[2 + |PutUvarint(|body|)|..] == compressed;
    forall r | r in b.records
      ensures Fits(codec, r)
    {
      hide EncodeRecord;
      RecordsAreInside(codec, b.baseTS, Origins(b.records), b.records, r);
    }
    BodyRoundTrip(codec, b.(dictID := 0));
  }

  // The one form Pack would write of an accepted envelope's own fields.
  function Rewritten(data: bytes): bytes
    requires |data| >= 2 && RawUvarint(data[2..], 0).Some?
  {
    var size := RawUvarint(data[2..], 0).value;
    Envelope(data[1], size.value, data[2 + size.length..])
  }

  // Reading back what is written in the shortest form finds the same value and the same rest.
  lemma RewrittenReadsTheSame(s: bytes)
    requires RawUvarint(s, 0).Some?
    ensures var size := RawUvarint(s, 0).value;
            var short := PutUvarint(size.value) + s[size.length..];
            && RawUvarint(short, 0) == Some(Reading(size.value, |PutUvarint(size.value)|))
            && (s == short <==> CanonicalUvarint(s).Ok?)
  {
    hide PutUvarint, RawUvarint;
    var size := RawUvarint(s, 0).value;
    LimitIsUint64();
    ShortestIsWhatWasPut(s, 0);
    RawReadsWhatWasPut(size.value, s[size.length..], 0);
    assert s == s[..size.length] + s[size.length..];
  }

  /** An accepted envelope always has its rewritten form, which opens to the same body; it is that form exactly
      when its declared size is in the shortest form, which Unpack does not ask. */
  lemma EnvelopeIsCanonicalExactlyWhen(data: bytes, dicts: map<byte, Dictionary>)
    requires Opened(data, dicts).Ok?
    ensures |data| >= 2 && RawUvarint(data[2..], 0).Some?
    ensures Opened(Rewritten(data), dicts) == Opened(data, dicts)
    ensures data == Rewritten(data) <==> CanonicalUvarint(data[2..]).Ok?
  {
    hide PutUvarint, RawUvarint, CanonicalUvarint;
    var s := data[2..];
    var size := RawUvarint(s, 0).value;
    var plain := Rewritten(data);
    RewrittenReadsTheSame(s);
    assert data[2 + size.length..] == s[size.length..];
    assert plain[2..] == PutUvarint(size.value) + s[size.length..];
    assert plain[2 + |PutUvarint(size.value)|..] == s[size.length..];
    assert data == [data[0], data[1]] + s && plain == [plain[0], plain[1]] + plain[2..];
  }

  /** The envelope is not canonical: its declared size goes through the plain reader, so a padded
      size opens to the same body under a different byte string. */
  lemma EnvelopeAcceptsAPaddedSize(id: byte, size: nat, compressed: bytes, dicts: map<byte, Dictionary>)
    requires size < 0x80
    ensures var padded := [FORMAT_VERSION, id] + [0x80 + size, 0] + compressed;
            && padded != Envelope(id, size, compressed)
            && Opened(padded, dicts) == Opened(Envelope(id, size, compressed), dicts)
  {
    var padded := [FORMAT_VERSION, id] + [0x80 + size, 0] + compressed;
    var plain := Envelope(id, size, compressed);
    assert padded[2..] == [0x80 + size, 0] + compressed && plain[2..] == [size] + compressed;
    assert padded[2..][1..] == [0] + compressed;
    assert padded[4..] == compressed && plain[3..] == compressed;
    assert RawUvarint(padded[2..], 0) == Some(Reading(size, 2));
    assert padded[3] == 0 && (|plain| > 3 ==> plain[3] == compressed[0]);
    assert |padded| != |plain|;
  }
}
