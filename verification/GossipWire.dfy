/** The gossip messages whose tables are sorted: digest, vector request and range request. */
module GossipWire {
  import opened Bytes
  import opened Varint
  import opened Sorting
  import opened Framing

  const FORMAT: byte := 2
  const MSG_DIGEST: byte := 1
  const MSG_VECTOR_REQ: byte := 2
  const MSG_RANGE_REQ: byte := 4

  const MESH_MTU := 233
  const TRANSPORT_OVERHEAD := 9
  const MAX_CONTROL_MESSAGE := MESH_MTU - TRANSPORT_OVERHEAD
  const DIGEST_HEADER := 4
  const MAX_AREAS := (MAX_CONTROL_MESSAGE - DIGEST_HEADER) / 10
  const MAX_RANGES := 32

  // Type and version are judged before any length that belongs to the version.
  function Preflight(b: bytes, msgType: byte): Option<WireError> {
    if |b| < 2 then Some(Truncated)
    else if b[0] != msgType then Some(WrongType)
    else if b[1] != FORMAT then Some(UnsupportedVersion)
    else None
  }

  // ---- digest ----------------------------------------------------------------------------------

  datatype AreaState = AreaState(tag: AreaTag, hash: AreaTag, count: uint16)

  datatype Digest = Digest(dictionary: byte, areas: seq<AreaState>)

  function SaturatingCount(n: nat): uint16 {
    if n > 0xFFFF then 0xFFFF else n
  }

  const ByTag: (AreaState, AreaState) -> bool := (a: AreaState, b: AreaState) => LexLess(a.tag, b.tag)
  const WriteArea: AreaState -> bytes := (a: AreaState) => a.tag + a.hash + BE16(a.count)
  const AnyArea: AreaState -> bool := (a: AreaState) => true
  const ReadArea: Reader<AreaState> :=
    (s: bytes) => if |s| < 10 then Err(Truncated) else Ok(Entry(AreaState(s[..4], s[4..8], FromBE16(s[8..10])), 10))

  lemma ByTagIsStrict()
    ensures StrictOrder(ByTag)
  {
    forall a: AreaState
      ensures !ByTag(a, a)
    {
      LexTotal(a.tag, a.tag);
    }
    forall a: AreaState, b: AreaState, c: AreaState | ByTag(a, b) && ByTag(b, c)
      ensures ByTag(a, c)
    {
      LexTransitive(a.tag, b.tag, c.tag);
    }
  }

  lemma ReadAreaInverts()
    ensures Inverts(ReadArea, WriteArea, AnyArea)
  {
    forall s: bytes, a: AreaState | WriteArea(a) <= s
      ensures ReadArea(s) == Ok(Entry(a, |WriteArea(a)|))
    {
      BE16RoundTrip(a.count, BE16(a.count));
      var w := WriteArea(a);
      assert s[..4] == w[..4] == a.tag && s[4..8] == w[4..8] == a.hash && s[8..10] == w[8..10] == BE16(a.count);
    }
    forall s: bytes | ReadArea(s).Ok?
      ensures WriteArea(ReadArea(s).value.value) == s[..10]
    {
      BE16RoundTrip(0, s[8..10]);
      assert s[..10] == s[..4] + s[4..8] + s[8..10];
    }
  }

  function DigestWire(d: Digest): bytes {
    [MSG_DIGEST, FORMAT, d.dictionary, |d.areas| % 0x100] + Concat(WriteArea, d.areas)
  }

  predicate DistinctTags(areas: seq<AreaState>) {
    forall i, j :: 0 <= i < |areas| && 0 <= j < |areas| && i != j ==> areas[i].tag != areas[j].tag
  }

  // The form a digest has on the wire: within the limit and ascending by tag.
  ghost predicate IsDigest(d: Digest) {
    |d.areas| <= MAX_AREAS && IsRun(d.areas, ByTag, AnyArea)
  }

  lemma {:induction false} AreasAreTenBytes(areas: seq<AreaState>)
    ensures |Concat(WriteArea, areas)| == 10 * |areas|
  {
    if areas != [] {
      AreasAreTenBytes(areas[1..]);
    }
  }

  /** A digest within the limit is one packet. */
  lemma DigestFitsOnePacket(d: Digest)
    requires |d.areas| <= MAX_AREAS
    ensures |DigestWire(d)| == DIGEST_HEADER + 10 * |d.areas| <= MAX_CONTROL_MESSAGE
  {
    AreasAreTenBytes(d.areas);
  }

  /** The size promised before sending is the size sent, and encoding leaves the receiver sorted. */
  method EncodeDigest(dictionary: byte, areas: array<AreaState>) returns (buf: bytes)
    modifies areas
    ensures areas[..] == Sorted(ByTag, old(areas[..]))
    ensures buf == DigestWire(Digest(dictionary, areas[..]))
    ensures |buf| == DIGEST_HEADER + 10 * areas.Length
  {
    SortInPlace(ByTag, areas);
    buf := [MSG_DIGEST, FORMAT, dictionary, areas.Length % 0x100];
    ghost var start := buf;
    for i := 0 to areas.Length
      invariant areas[..] == Sorted(ByTag, old(areas[..]))
      invariant buf == start + Concat(WriteArea, areas[..i])
    {
      ConcatLast(WriteArea, areas[..i], areas[i]);
      assert areas[..i + 1] == areas[..i] + [areas[i]];
      buf := buf + (areas[i].tag + areas[i].hash + BE16(areas[i].count));
    }
    assert areas[..areas.Length] == areas[..];
    AreasAreTenBytes(areas[..]);
  }

  ghost function ParseDigest(b: bytes): (d: Option<Digest>)
    ensures d.Some? ==> IsDigest(d.value) && DigestWire(d.value) == b
    ensures d.None? ==> forall x: Digest :: IsDigest(x) ==> DigestWire(x) != b
  {
    if exists x: Digest :: IsDigest(x) && DigestWire(x) == b then
      var x: Digest :| IsDigest(x) && DigestWire(x) == b;
      Some(x)
    else None
  }

  lemma DigestsAreUnique(x: Digest, y: Digest)
    requires IsDigest(x) && IsDigest(y) && DigestWire(x) == DigestWire(y)
    ensures x == y
  {
    var b := DigestWire(x);
    assert b[3] == |x.areas| && b[3] == |y.areas|;
    assert b[4..] == Concat(WriteArea, x.areas) && b[4..] == Concat(WriteArea, y.areas);
    ReadAreaInverts();
    RunsArePrefixFree(ReadArea, WriteArea, AnyArea, x.areas, y.areas, b[4..]);
    assert b[2] == x.dictionary && b[2] == y.dictionary;
  }

  method DecodeDigest(b: bytes) returns (r: Result<Digest, WireError>)
    ensures r.Ok? <==> ParseDigest(b).Some?
    ensures r.Ok? ==> Some(r.value) == ParseDigest(b)
    ensures r.Err? && r.error == UnsupportedVersion <==> Preflight(b, MSG_DIGEST) == Some(UnsupportedVersion)
  {
    hide IsRun, Ascending, Concat;
    forall x: Digest | IsDigest(x) && DigestWire(x) == b
      ensures Preflight(b, MSG_DIGEST) == None && |b| == 4 + 10 * |x.areas| && b[3] == |x.areas|
              && b[4..] == Concat(WriteArea, x.areas)
    {
      AreasAreTenBytes(x.areas);
    }
    var early := Preflight(b, MSG_DIGEST);
    if early.Some? {
      return Err(early.value);
    }
    if |b| < DIGEST_HEADER {
      return Err(Truncated);
    }
    var n: nat := b[3];
    if n > MAX_AREAS {
      return Err(TooMany);
    }
    if |b| != DIGEST_HEADER + 10 * n {
      return Err(Truncated);
    }
    ReadAreaInverts();
    var areas := ReadRun(ReadArea, ByTag, b[4..], n, WriteArea, AnyArea);
    if areas.Err? {
      return Err(areas.error);
    }
    AreasAreTenBytes(areas.value.value);
    var d := Digest(b[2], areas.value.value);
    assert b == [b[0], b[1], b[2], b[3]] + b[4..];
    assert DigestWire(d) == b;
    DigestsAreUnique(d, ParseDigest(b).value);
    return Ok(d);
  }

  lemma SortedTagsAscend(areas: seq<AreaState>)
    requires DistinctTags(areas)
    ensures IsRun(Sorted(ByTag, areas), ByTag, AnyArea)
  {
    ByTagIsStrict();
    forall i, j | 0 <= i < |areas| && 0 <= j < |areas| && i != j
      ensures ByTag(areas[i], areas[j]) || ByTag(areas[j], areas[i])
    {
      LexTotal(areas[i].tag, areas[j].tag);
    }
    SortedAscends(ByTag, areas);
  }

  /** What a digest encodes to decodes to it with its areas sorted, and to nothing else. */
  lemma DigestRoundTrip(d: Digest)
    requires |d.areas| <= MAX_AREAS && DistinctTags(d.areas)
    ensures var sorted := Digest(d.dictionary, Sorted(ByTag, d.areas));
            ParseDigest(DigestWire(sorted)) == Some(sorted)
  {
    var sorted := Digest(d.dictionary, Sorted(ByTag, d.areas));
    SortedTagsAscend(d.areas);
    assert IsDigest(sorted);
    DigestsAreUnique(sorted, ParseDigest(DigestWire(sorted)).value);
  }

  // ---- vector request ----------------------------------------------------------------------------

  const TagOrder: (AreaTag, AreaTag) -> bool := (a: AreaTag, b: AreaTag) => LexLess(a, b)
  const WriteTag: AreaTag -> bytes := (a: AreaTag) => a
  const AnyTag: AreaTag -> bool := (a: AreaTag) => true
  const ReadTag: Reader<AreaTag> := (s: bytes) => TakeTag(s)

  function TakeTag(s: bytes): Result<Entry<AreaTag>, WireError> {
    if |s| < 4 then Err(Truncated)
    else
      var t: AreaTag := s[..4];
      Ok(Entry(t, 4))
  }

  lemma TagOrderIsStrict()
    ensures StrictOrder(TagOrder)
  {
    forall a: AreaTag
      ensures !TagOrder(a, a)
    {
      LexTotal(a, a);
    }
    forall a: AreaTag, b: AreaTag, c: AreaTag | TagOrder(a, b) && TagOrder(b, c)
      ensures TagOrder(a, c)
    {
      LexTransitive(a, b, c);
    }
  }

  lemma ReadTagInverts()
    ensures Inverts(ReadTag, WriteTag, AnyTag)
  {
    forall s: bytes, t: AreaTag | WriteTag(t) <= s
      ensures ReadTag(s) == Ok(Entry(t, |WriteTag(t)|))
    {
      assert s[..4] == t;
    }
    forall s: bytes | ReadTag(s).Ok?
      ensures WriteTag(ReadTag(s).value.value) == s[..4]
    {
    }
  }

  function VectorReqWire(tags: seq<AreaTag>): bytes {
    [MSG_VECTOR_REQ, FORMAT, |tags| % 0x100] + Concat(WriteTag, tags)
  }

  ghost predicate IsVectorReq(tags: seq<AreaTag>) {
    |tags| <= MAX_AREAS && IsRun(tags, TagOrder, AnyTag)
  }

  lemma {:induction false} TagsAreFourBytes(tags: seq<AreaTag>)
    ensures |Concat(WriteTag, tags)| == 4 * |tags|
  {
    if tags != [] {
      TagsAreFourBytes(tags[1..]);
    }
  }

  method EncodeVectorReq(areas: seq<AreaTag>) returns (buf: bytes)
    ensures buf == VectorReqWire(Sorted(TagOrder, areas))
  {
    var tags := new AreaTag[|areas|](i requires 0 <= i < |areas| => areas[i]);
    assert tags[..] == areas;
    SortInPlace(TagOrder, tags);
    buf := [MSG_VECTOR_REQ, FORMAT, tags.Length % 0x100];
    ghost var start := buf;
    for i := 0 to tags.Length
      invariant tags[..] == Sorted(TagOrder, areas)
      invariant buf == start + Concat(WriteTag, tags[..i])
    {
      ConcatLast(WriteTag, tags[..i], tags[i]);
      assert tags[..i + 1] == tags[..i] + [tags[i]];
      buf := buf + tags[i];
    }
    assert tags[..tags.Length] == tags[..];
  }

  ghost function ParseVectorReq(b: bytes): (tags: Option<seq<AreaTag>>)
    ensures tags.Some? ==> IsVectorReq(tags.value) && VectorReqWire(tags.value) == b
    ensures tags.None? ==> forall x: seq<AreaTag> :: IsVectorReq(x) ==> VectorReqWire(x) != b
  {
    if exists x: seq<AreaTag> :: IsVectorReq(x) && VectorReqWire(x) == b then
      var x: seq<AreaTag> :| IsVectorReq(x) && VectorReqWire(x) == b;
      Some(x)
    else None
  }

  lemma VectorReqsAreUnique(x: seq<AreaTag>, y: seq<AreaTag>)
    requires IsVectorReq(x) && IsVectorReq(y) && VectorReqWire(x) == VectorReqWire(y)
    ensures x == y
  {
    var b := VectorReqWire(x);
    assert b[2] == |x| && b[2] == |y| && b[3..] == Concat(WriteTag, x) && b[3..] == Concat(WriteTag, y);
    ReadTagInverts();
    RunsArePrefixFree(ReadTag, WriteTag, AnyTag, x, y, b[3..]);
  }

  method DecodeVectorReq(b: bytes) returns (r: Result<seq<AreaTag>, WireError>)
    ensures r.Ok? <==> ParseVectorReq(b).Some?
    ensures r.Ok? ==> Some(r.value) == ParseVectorReq(b)
    ensures r.Err? && r.error == UnsupportedVersion <==> Preflight(b, MSG_VECTOR_REQ) == Some(UnsupportedVersion)
  {
    hide IsRun, Ascending, Concat, VectorReqWire;
    forall x: seq<AreaTag> | IsVectorReq(x) && VectorReqWire(x) == b
      ensures Preflight(b, MSG_VECTOR_REQ) == None && |b| == 3 + 4 * |x| && b[2] == |x| && b[3..] == Concat(WriteTag, x)
    {
      VectorReqParts(x);
    }
    var early := Preflight(b, MSG_VECTOR_REQ);
    if early.Some? {
      return Err(early.value);
    }
    if |b| < 3 {
      return Err(Truncated);
    }
    var n: nat := b[2];
    if n > MAX_AREAS {
      return Err(TooMany);
    }
    if |b| != 3 + 4 * n {
      return Err(Truncated);
    }
    ReadTagInverts();
    var tags := ReadRun(ReadTag, TagOrder, b[3..], n, WriteTag, AnyTag);
    if tags.Err? {
      return Err(tags.error);
    }
    VectorReqWritten(b, tags.value.value);
    VectorReqsAreUnique(tags.value.value, ParseVectorReq(b).value);
    return Ok(tags.value.value);
  }

  lemma VectorReqParts(x: seq<AreaTag>)
    requires |x| <= MAX_AREAS
    ensures var b := VectorReqWire(x);
            && Preflight(b, MSG_VECTOR_REQ) == None && |b| == 3 + 4 * |x| && b[2] == |x|
              && b[3..] == Concat(WriteTag, x)
  {
    TagsAreFourBytes(x);
  }

  lemma VectorReqWritten(b: bytes, x: seq<AreaTag>)
    requires |x| <= MAX_AREAS && |b| == 3 + 4 * |x| && Preflight(b, MSG_VECTOR_REQ) == None && b[2] == |x|
    requires Concat(WriteTag, x) <= b[3..]
    ensures VectorReqWire(x) == b
  {
    TagsAreFourBytes(x);
    assert b == [b[0], b[1], b[2]] + b[3..];
  }

  /** What a request encodes to decodes to its tags sorted. */
  lemma VectorReqRoundTrip(areas: seq<AreaTag>)
    requires |areas| <= MAX_AREAS && forall i, j :: 0 <= i < |areas| && 0 <= j < |areas| && i != j ==>
             areas[i] != areas[j]
    ensures ParseVectorReq(VectorReqWire(Sorted(TagOrder, areas))) == Some(Sorted(TagOrder, areas))
  {
    TagOrderIsStrict();
    forall i, j | 0 <= i < |areas| && 0 <= j < |areas| && i != j
      ensures TagOrder(areas[i], areas[j]) || TagOrder(areas[j], areas[i])
    {
      LexTotal(areas[i], areas[j]);
    }
    SortedAscends(TagOrder, areas);
    var sorted := Sorted(TagOrder, areas);
    assert IsVectorReq(sorted);
    VectorReqsAreUnique(sorted, ParseVectorReq(VectorReqWire(sorted)).value);
  }

  // ---- range request ----------------------------------------------------------------------------

  datatype Range = Range(origin: NodeID, from: uint64, to: uint64)

  // The span travels instead of the upper end, in 64-bit arithmetic both ways.
  function Span(r: Range): uint64 {
    (r.to - r.from) % 0x1_0000_0000_0000_0000
  }

  function UpperEnd(from: uint64, span: uint64): uint64 {
    (from + span) % 0x1_0000_0000_0000_0000
  }

  const RangeOrder: (Range, Range) -> bool :=
    (a: Range, b: Range) => if a.origin != b.origin then LexLess(a.origin, b.origin) else a.from < b.from
  const WriteRange: Range -> bytes := (r: Range) => r.origin + PutUvarint(r.from) + PutUvarint(Span(r))
  const StartsAtOne: Range -> bool := (r: Range) => r.from >= 1
  const ReadRange: Reader<Range> := (s: bytes) => ParseRange(s)

  function ParseRange(s: bytes): Result<Entry<Range>, WireError> {
    if |s| < 8 then Err(Truncated)
    else
      var from := CanonicalUvarint(s[8..]);
      if from.Err? then Err(if from.error == CutShort then Truncated else NotCanonical)
      else
        var p := 8 + from.value.length;
        var span := CanonicalUvarint(s[p..]);
        if span.Err? then Err(if span.error == CutShort then Truncated else NotCanonical)
        else if from.value.value == 0 then Err(Malformed)
        else
          UvarintIsCanonical(s[8..], from.value.value);
          UvarintIsCanonical(s[p..], span.value.value);
          Ok(Entry(Range(s[..8], from.value.value, UpperEnd(from.value.value, span.value.value)),
            p + span.value.length))
  }

  lemma RangeOrderIsStrict()
    ensures StrictOrder(RangeOrder)
  {
    forall a: Range, b: Range, c: Range | RangeOrder(a, b) && RangeOrder(b, c)
      ensures RangeOrder(a, c)
    {
      LexTotal(a.origin, b.origin);
      if a.origin != b.origin && b.origin != c.origin {
        LexTransitive(a.origin, b.origin, c.origin);
        LexTotal(a.origin, c.origin);
      }
    }
  }

  lemma WrittenRangeReads(s: bytes, r: Range)
    requires r.from >= 1 && WriteRange(r) <= s
    ensures ParseRange(s) == Ok(Entry(r, |WriteRange(r)|))
  {
    hide PutUvarint, CanonicalUvarint;
    var f, n := PutUvarint(r.from), PutUvarint(Span(r));
    var rest := s[|WriteRange(r)|..];
    assert s == r.origin + (f + (n + rest));
    assert s[..8] == r.origin && s[8..] == f + (n + rest) && s[8 + |f|..] == n + rest;
    UvarintIsCanonical(s[8..], r.from);
    UvarintIsCanonical(s[8 + |f|..], Span(r));
  }

  lemma ReadRangeIsWritten(s: bytes)
    requires ParseRange(s).Ok?
    ensures var e := ParseRange(s).value;
            e.value.from >= 1 && WriteRange(e.value) <= s && e.length == |WriteRange(e.value)|
  {
    hide PutUvarint, CanonicalUvarint;
    var e := ParseRange(s).value;
    var from := CanonicalUvarint(s[8..]).value;
    var p := 8 + from.length;
    var span := CanonicalUvarint(s[p..]).value;
    UvarintIsCanonical(s[8..], from.value);
    UvarintIsCanonical(s[p..], span.value);
    assert s[..e.length] == s[..8] + s[8..p] + s[p..e.length];
  }

  lemma ReadRangeInverts()
    ensures Inverts(ReadRange, WriteRange, StartsAtOne)
  {
    hide ParseRange;
    forall s: bytes, r: Range | StartsAtOne(r) && WriteRange(r) <= s
      ensures ReadRange(s) == Ok(Entry(r, |WriteRange(r)|))
    {
      WrittenRangeReads(s, r);
    }
    forall s: bytes
      ensures ReadRange(s).Ok? ==>
                && StartsAtOne(ReadRange(s).value.value) && WriteRange(ReadRange(s).value.value) <= s
                && ReadRange(s).value.length == |WriteRange(ReadRange(s).value.value)|
      ensures ReadRange(s).Err? ==> ReadRange(s).error != UnsupportedVersion
    {
      if ParseRange(s).Ok? {
        ReadRangeIsWritten(s);
      } else {
        RangeErrors(s);
      }
    }
  }

  lemma RangeErrors(s: bytes)
    requires ParseRange(s).Err?
    ensures ParseRange(s).error != UnsupportedVersion
  {
  }

  datatype RangeReq = RangeReq(area: AreaTag, ranges: seq<Range>)

  function RangeReqWire(q: RangeReq): bytes {
    [MSG_RANGE_REQ, FORMAT] + q.area + [|q.ranges| % 0x100] + Concat(WriteRange, q.ranges)
  }

  ghost predicate IsRangeReq(q: RangeReq) {
    |q.ranges| <= MAX_RANGES && IsRun(q.ranges, RangeOrder, StartsAtOne)
  }

  function SortedReq(q: RangeReq): RangeReq {
    q.(ranges := Sorted(RangeOrder, q.ranges))
  }

  method EncodeRangeReq(q: RangeReq) returns (buf: bytes)
    ensures buf == RangeReqWire(SortedReq(q))
  {
    hide PutUvarint, Sorted;
    var ranges := new Range[|q.ranges|](i requires 0 <= i < |q.ranges| => q.ranges[i]);
    assert ranges[..] == q.ranges;
    SortInPlace(RangeOrder, ranges);
    ghost var sorted := Sorted(RangeOrder, q.ranges);
    buf := [MSG_RANGE_REQ, FORMAT] + q.area + [ranges.Length % 0x100];
    ghost var start := buf;
    for i := 0 to ranges.Length
      invariant ranges[..] == sorted
      invariant buf == start + Concat(WriteRange, sorted[..i])
    {
      ConcatLast(WriteRange, sorted[..i], sorted[i]);
      assert sorted[..i + 1] == sorted[..i] + [sorted[i]] && ranges[i] == sorted[i];
      buf := buf + (ranges[i].origin + PutUvarint(ranges[i].from) + PutUvarint(Span(ranges[i])));
    }
    assert sorted[..ranges.Length] == sorted;
  }

  ghost function ParseRangeReq(b: bytes): (q: Option<RangeReq>)
    ensures q.Some? ==> IsRangeReq(q.value) && RangeReqWire(q.value) == b
    ensures q.None? ==> forall x: RangeReq :: IsRangeReq(x) ==> RangeReqWire(x) != b
  {
    if exists x: RangeReq :: IsRangeReq(x) && RangeReqWire(x) == b then
      var x: RangeReq :| IsRangeReq(x) && RangeReqWire(x) == b;
      Some(x)
    else None
  }

  lemma RangeReqParts(x: RangeReq)
    requires |x.ranges| <= MAX_RANGES
    ensures var b := RangeReqWire(x);
            && Preflight(b, MSG_RANGE_REQ) == None && |b| >= 7 && b[2..6] == x.area && b[6] == |x.ranges|
            && b[7..] == Concat(WriteRange, x.ranges)
  {
  }

  lemma RangeReqsAreUnique(x: RangeReq, y: RangeReq)
    requires IsRangeReq(x) && IsRangeReq(y) && RangeReqWire(x) == RangeReqWire(y)
    ensures x == y
  {
    hide RangeReqWire;
    RangeReqParts(x);
    RangeReqParts(y);
    ReadRangeInverts();
    RunsArePrefixFree(ReadRange, WriteRange, StartsAtOne, x.ranges, y.ranges, RangeReqWire(x)[7..]);
  }

  method DecodeRangeReq(b: bytes) returns (r: Result<RangeReq, WireError>)
    ensures r.Ok? <==> ParseRangeReq(b).Some?
    ensures r.Ok? ==> Some(r.value) == ParseRangeReq(b)
    ensures r.Err? && r.error == UnsupportedVersion <==> Preflight(b, MSG_RANGE_REQ) == Some(UnsupportedVersion)
  {
    hide IsRun, Ascending, Concat;
    forall x: RangeReq | IsRangeReq(x) && RangeReqWire(x) == b
      ensures Preflight(b, MSG_RANGE_REQ) == None && |b| >= 7 && b[6] == |x.ranges|
              && b[7..] == Concat(WriteRange, x.ranges)
    {
      RangeReqParts(x);
    }
    var early := Preflight(b, MSG_RANGE_REQ);
    if early.Some? {
      return Err(early.value);
    }
    if |b| < 7 {
      return Err(Truncated);
    }
    var n: nat := b[6];
    if n > MAX_RANGES {
      return Err(TooMany);
    }
    ReadRangeInverts();
    var ranges := ReadRun(ReadRange, RangeOrder, b[7..], n, WriteRange, StartsAtOne);
    if ranges.Err? {
      return Err(ranges.error);
    }
    if 7 + ranges.value.length != |b| {
      if ParseRangeReq(b).Some? {
        SameRun(ranges.value.value, ParseRangeReq(b).value.ranges, b[7..]);
      }
      return Err(Malformed);
    }
    var q := RangeReq(b[2..6], ranges.value.value);
    assert b == [b[0], b[1]] + b[2..6] + [b[6]] + b[7..];
    assert RangeReqWire(q) == b;
    RangeReqsAreUnique(q, ParseRangeReq(b).value);
    return Ok(q);
  }

  lemma SameRun(xs: seq<Range>, ys: seq<Range>, b: bytes)
    requires IsRun(xs, RangeOrder, StartsAtOne) && IsRun(ys, RangeOrder, StartsAtOne) && |xs| == |ys|
    requires Concat(WriteRange, xs) <= b && Concat(WriteRange, ys) <= b
    ensures xs == ys
  {
    ReadRangeInverts();
    RunsArePrefixFree(ReadRange, WriteRange, StartsAtOne, xs, ys, b);
  }

  predicate DistinctStarts(ranges: seq<Range>) {
    forall i, j :: 0 <= i < |ranges| && 0 <= j < |ranges| && i != j ==>
      ranges[i].origin != ranges[j].origin || ranges[i].from != ranges[j].from
  }

  /** What a range request encodes to decodes to it with its ranges sorted. */
  lemma RangeReqRoundTrip(q: RangeReq)
    requires |q.ranges| <= MAX_RANGES && DistinctStarts(q.ranges) && forall r :: r in q.ranges ==> r.from >= 1
    ensures ParseRangeReq(RangeReqWire(SortedReq(q))) == Some(SortedReq(q))
  {
    var sorted := SortedReq(q);
    RangeOrderIsStrict();
    forall i, j | 0 <= i < |q.ranges| && 0 <= j < |q.ranges| && i != j
      ensures RangeOrder(q.ranges[i], q.ranges[j]) || RangeOrder(q.ranges[j], q.ranges[i])
    {
      LexTotal(q.ranges[i].origin, q.ranges[j].origin);
    }
    SortedAscends(RangeOrder, q.ranges);
    SortedPermutes(RangeOrder, q.ranges);
    forall i | 0 <= i < |sorted.ranges|
      ensures StartsAtOne(sorted.ranges[i])
    {
      var j := SameElements(sorted.ranges, q.ranges, i);
      assert q.ranges[j] in q.ranges;
    }
    assert IsRangeReq(sorted);
    RangeReqsAreUnique(sorted, ParseRangeReq(RangeReqWire(sorted)).value);
  }

  // ---- fitting a request into one packet -----------------------------------------------------------

  function RequestSize(ranges: seq<Range>): nat {
    7 + |Concat(WriteRange, ranges)|
  }

  lemma EncodedSize(area: AreaTag, ranges: seq<Range>)
    ensures |RangeReqWire(SortedReq(RangeReq(area, ranges)))| == RequestSize(ranges)
  {
    SortedKeepsSize(WriteRange, RangeOrder, ranges);
  }

  lemma RequestSizeGrows(ranges: seq<Range>, m: nat, n: nat)
    requires m <= n <= |ranges|
    ensures RequestSize(ranges[..m]) <= RequestSize(ranges[..n])
  {
    assert ranges[..n] == ranges[..m] + ranges[m..n];
    ConcatAppend(WriteRange, ranges[..m], ranges[m..n]);
  }

  lemma {:induction false} UvarintIsShort(v: nat, i: nat)
    requires i <= 9 && v < Limit(i)
    ensures |PutUvarint(v)| <= 10 - i
  {
    if v >= 0x80 {
      UvarintIsShort(v / 0x80, i + 1);
    }
  }

  /** One range always fits a control message. */
  lemma OneRangeFits(r: Range)
    ensures RequestSize([r]) <= 35 <= MAX_CONTROL_MESSAGE
  {
    hide PutUvarint;
    LimitIsUint64();
    UvarintIsShort(r.from, 0);
    UvarintIsShort(Span(r), 0);
    ConcatLast(WriteRange, [], r);
    assert [] + [r] == [r];
  }

  /** The longest prefix within both limits: it fits, every shorter prefix does too, and the next one
      would be one range too many or overflow. */
  method FitRanges(area: AreaTag, ranges: seq<Range>, maxBytes: int) returns (fitted: seq<Range>)
    ensures fitted <= ranges && |fitted| <= MAX_RANGES
    ensures |fitted| > 0 ==> RequestSize(fitted) <= maxBytes
    ensures |fitted| < |ranges| && |fitted| < MAX_RANGES ==> RequestSize(ranges[..|fitted| + 1]) > maxBytes
    ensures forall n :: |fitted| < n <= |ranges| && n <= MAX_RANGES ==> RequestSize(ranges[..n]) > maxBytes
    ensures fitted == Fitted(ranges, maxBytes)
  {
    hide RequestSize, RangeReqWire, Sorted;
    var bounded := if |ranges| > MAX_RANGES then ranges[..MAX_RANGES] else ranges;
    var n := |bounded|;
    while n > 0
      invariant 0 <= n <= |bounded|
      invariant forall m :: n < m <= |bounded| ==> RequestSize(ranges[..m]) > maxBytes
      invariant FittedFrom(ranges, n, maxBytes) == Fitted(ranges, maxBytes)
    {
      assert bounded[..n] == ranges[..n];
      var wire := EncodeRangeReq(RangeReq(area, bounded[..n]));
      EncodedSize(area, bounded[..n]);
      if |wire| <= maxBytes {
        return bounded[..n];
      }
      n := n - 1;
    }
    return [];
  }

  function FittedFrom(ranges: seq<Range>, n: nat, maxBytes: int): (fitted: seq<Range>)
    requires n <= |ranges|
  {
    if n == 0 || RequestSize(ranges[..n]) <= maxBytes then ranges[..n] else FittedFrom(ranges, n - 1, maxBytes)
  }

  function Fitted(ranges: seq<Range>, maxBytes: int): seq<Range> {
    FittedFrom(ranges, Min(|ranges|, MAX_RANGES), maxBytes)
  }

  lemma {:induction false} FittedIsNonEmpty(ranges: seq<Range>, n: nat)
    requires 1 <= n <= |ranges|
    ensures var f := FittedFrom(ranges, n, MAX_CONTROL_MESSAGE); 1 <= |f| <= n && f == ranges[..|f|]
  {
    hide RequestSize;
    if n == 1 {
      assert ranges[..1] == [ranges[0]];
      OneRangeFits(ranges[0]);
    } else if RequestSize(ranges[..n]) > MAX_CONTROL_MESSAGE {
      FittedIsNonEmpty(ranges, n - 1);
    }
  }

  lemma {:induction false} FittedFits(ranges: seq<Range>, n: nat, maxBytes: int)
    requires n <= |ranges|
    ensures var f := FittedFrom(ranges, n, maxBytes); f != [] ==> RequestSize(f) <= maxBytes
  {
    if n > 0 && RequestSize(ranges[..n]) > maxBytes {
      FittedFits(ranges, n - 1, maxBytes);
    }
  }
}
