/** Frozen examples from the repository's conformance corpus: bytes that a change which stays consistent with itself
    could still move. */
module Conformance {
  import opened Bytes
  import opened Varint
  import opened Sorting
  import opened Framing
  import opened GossipWire
  import Bundle
  import Fountain
  import Base32
  import Radix
  import FrameReader

  // ---- symbols ---------------------------------------------------------------------------------------------------

  /** An index past one byte is split around K. */
  lemma SymbolVector()
    ensures Fountain.EncodeSymbol(Fountain.Symbol(0xDEAD_BEEF, 256, 10, seq(16, _ => 0x41))) ==
            [0x40, 0xDE, 0xAD, 0xBE, 0xEF, 0x00, 0x0A, 0x01] + seq(16, _ => 0x41)
    ensures Fountain.EncodeSymbol(Fountain.Symbol(0x0102_0304, 0, 1, [0x68, 0x65, 0x6C, 0x6C, 0x6F])) ==
            [0x40, 0x01, 0x02, 0x03, 0x04, 0x00, 0x01, 0x00, 0x68, 0x65, 0x6C, 0x6C, 0x6F]
  {
  }

  // ---- digests and requests ----------------------------------------------------------------------------------

  const GENERAL: AreaTag := [0x79, 0xD4, 0x2C, 0x56]
  const ALPHA: AreaTag := [0x64, 0x4A, 0x9B, 0xC5]
  const MIKE: AreaTag := [0xCC, 0x1E, 0x30, 0xDE]
  const ZULU: AreaTag := [0x7B, 0x0D, 0x33, 0xE9]

  lemma OneEntry(tag: AreaTag, hash: AreaTag, count: uint16)
    ensures Concat(WriteArea, [AreaState(tag, hash, count)]) == tag + hash + BE16(count)
  {
  }

  lemma DigestVector()
    ensures DigestWire(Digest(0, [AreaState(GENERAL, [0xA1, 0xA1, 0xA1, 0xA1], 42)])) ==
            [0x01, 0x02, 0x00, 0x01, 0x79, 0xD4, 0x2C, 0x56, 0xA1, 0xA1, 0xA1, 0xA1, 0x00, 0x2A]
  {
    OneEntry(GENERAL, [0xA1, 0xA1, 0xA1, 0xA1], 42);
  }

  lemma TagsInOrder()
    ensures LexLess(ALPHA, ZULU) && LexLess(ZULU, MIKE) && LexLess(ALPHA, MIKE)
    ensures !LexLess(ZULU, ALPHA) && !LexLess(MIKE, ZULU) && !LexLess(MIKE, ALPHA)
  {
  }

  lemma ThreeSorted<T(!new)>(less: (T, T) -> bool, a: T, b: T, c: T)
    requires less(a, b) && less(b, c) && less(a, c) && !less(b, a) && !less(c, b) && !less(c, a)
    ensures Sorted(less, [b, a, c]) == [a, b, c]
  {
    assert [b, a, c][..2] == [b, a] && [b, a][..1] == [b] && [b][..0] == [];
    assert Sorted(less, [b]) == [b];
    assert Insert(less, [b], a) == [a, b];
    assert Sorted(less, [b, a]) == [a, b];
    assert Insert(less, [a, b], c) == [a, b, c];
  }

  /** Tags given in any order go out sorted. */
  lemma VectorReqVector()
    ensures VectorReqWire(Sorted(TagOrder, [ZULU, ALPHA, MIKE])) ==
            [0x02, 0x02, 0x03, 0x64, 0x4A, 0x9B, 0xC5, 0x7B, 0x0D, 0x33, 0xE9, 0xCC, 0x1E, 0x30, 0xDE]
  {
    TagsInOrder();
    ThreeSorted(TagOrder, ALPHA, ZULU, MIKE);
    assert [ALPHA, ZULU, MIKE][1..] == [ZULU, MIKE] && [ZULU, MIKE][1..] == [MIKE] && [MIKE][1..] == [];
    assert Concat(WriteTag, [MIKE]) == MIKE;
    assert Concat(WriteTag, [ZULU, MIKE]) == ZULU + MIKE;
  }

  const NODE_A: NodeID := [0xE4, 0x1B, 0xE1, 0x07, 0x56, 0xA2, 0x17, 0xE5]

  lemma UvarintVectors()
    ensures PutUvarint(4) == [0x04] && PutUvarint(98) == [0x62] && PutUvarint(200) == [0xC8, 0x01]
    ensures PutVarint(0) == [0x00] && PutVarint(-3600) == [0x9F, 0x38]
  {
    assert PutUvarint(1) == [0x01];
    assert ZigZag(-3600) == 7199 && PutUvarint(56) == [0x38];
  }

  const NODE_B: NodeID := [0x9E, 0xE3, 0x16, 0x90, 0x99, 0x92, 0x4F, 0x49]
  const NODE_C: NodeID := [0x2C, 0xB2, 0x2D, 0x88, 0x88, 0xC9, 0x35, 0x37]

  // The ranges of the frozen request, in the order they go out.
  const RANGES: seq<Range> := [Range(NODE_C, 10, 10), Range(NODE_B, 0, 127), Range(NODE_A, 1, 3),
    Range(NODE_A, 200, 400)]

  lemma RangeBytes()
    ensures WriteRange(Range(NODE_C, 10, 10)) == NODE_C + [0x0A, 0x00]
    ensures WriteRange(Range(NODE_B, 0, 127)) == NODE_B + [0x00, 0x7F]
    ensures WriteRange(Range(NODE_A, 1, 3)) == NODE_A + [0x01, 0x02]
    ensures WriteRange(Range(NODE_A, 200, 400)) == NODE_A + [0xC8, 0x01, 0xC8, 0x01]
  {
    UvarintVectors();
    assert PutUvarint(10) == [0x0A] && PutUvarint(0) == [0x00] && PutUvarint(127) == [0x7F];
    assert PutUvarint(1) == [0x01] && PutUvarint(2) == [0x02];
    hide PutUvarint;
  }

  lemma FourRanges(a: Range, b: Range, c: Range, d: Range)
    ensures Concat(WriteRange, [a, b, c, d]) == WriteRange(a) + (WriteRange(b) + (WriteRange(c) + WriteRange(d)))
  {
    assert [a, b, c, d][1..] == [b, c, d] && [b, c, d][1..] == [c, d] && [c, d][1..] == [d] && [d][1..] == [];
    assert Concat(WriteRange, [d]) == WriteRange(d);
    assert Concat(WriteRange, [c, d]) == WriteRange(c) + WriteRange(d);
    assert Concat(WriteRange, [b, c, d]) == WriteRange(b) + (WriteRange(c) + WriteRange(d));
  }

  lemma RangesInOrder()
    ensures Ascending(RangeOrder, RANGES)
  {
    assert LexLess(NODE_C, NODE_B) && LexLess(NODE_B, NODE_A) && !LexLess(NODE_A, NODE_A);
  }

  /** Ranges go out by origin and start, each as its start and its span, not its upper end, in as many bytes as they
      need. */
  lemma RangeReqVector()
    ensures Ascending(RangeOrder, RANGES)
    ensures RangeReqWire(RangeReq(GENERAL, RANGES)) ==
            [0x04, 0x02] + GENERAL + [0x04] +
            (NODE_C + [0x0A, 0x00] +
             (NODE_B + [0x00, 0x7F] + (NODE_A + [0x01, 0x02] + (NODE_A + [0xC8, 0x01, 0xC8, 0x01]))))
  {
    RangesInOrder();
    RangeBytes();
    FourRanges(RANGES[0], RANGES[1], RANGES[2], RANGES[3]);
  }

  // ---- bundles -----------------------------------------------------------------------------------------------------

  /** A body of one record: area, base time, the table of its one origin, the count, and the record as its index in the
      table, the time after the base, its length and its bytes. */
  lemma BodyVector(codec: Bundle.RecordCodec, r: Bundle.Record)
    requires r.origin == NODE_A && r.ts == 1700000000 && |codec.marshal(r)| == 98
    ensures Bundle.EncodeBody(codec, Bundle.Batch(GENERAL, 1700000000, 0, [r])) ==
            [0x79, 0xD4, 0x2C, 0x56, 0x65, 0x53, 0xF1, 0x00, 0x01, 0xE4, 0x1B, 0xE1, 0x07, 0x56, 0xA2, 0x17, 0xE5,
             0x01, 0x00, 0x00, 0x62] + codec.marshal(r)
  {
    UvarintVectors();
    HeaderOfOne();
    OneRecord(codec, r);
    assert [r][..0] == [] && Bundle.Origins([r]) == [NODE_A];
    hide PutUvarint, PutVarint, Bundle.Header, Bundle.EncodeRecords, Bundle.Origins, BE32;
    var raw := codec.marshal(r);
    assert [0] + [0x00] + [0x62] + raw == [0x00, 0x00, 0x62] + raw;
  }

  lemma OneAndBase()
    ensures PutUvarint(1) == [0x01] && BE32(1700000000) == [0x65, 0x53, 0xF1, 0x00]
  {
  }

  lemma HeaderOfOne()
    ensures Bundle.Header(GENERAL, 1700000000, [NODE_A], 1) ==
            [0x79, 0xD4, 0x2C, 0x56, 0x65, 0x53, 0xF1, 0x00, 0x01, 0xE4, 0x1B, 0xE1, 0x07, 0x56, 0xA2, 0x17, 0xE5, 0x01]
  {
    TableOfOne();
    OneAndBase();
    hide PutUvarint, BE32, Bundle.Table;
  }

  lemma TableOfOne()
    ensures Bundle.Table([NODE_A]) == NODE_A
  {
    assert [NODE_A][..0] == [] && Bundle.Table([]) == [];
  }

  lemma OneRecord(codec: Bundle.RecordCodec, r: Bundle.Record)
    requires r.origin == NODE_A
    ensures Bundle.EncodeRecords(codec, r.ts, [NODE_A], [r]) ==
            [0] + PutVarint(0) + PutUvarint(|codec.marshal(r)|) + codec.marshal(r)
  {
    assert Bundle.IndexOf(NODE_A, [NODE_A]) == 0 && [r][1..] == [];
  }

  // ---- node IDs ----------------------------------------------------------------------------------------------------

  // One digit more.
  lemma ValueSteps(digits: seq<nat>, base: nat, i: nat, v: nat)
    requires i < |digits| && Radix.Value(digits[..i], base) == v
    ensures Radix.Value(digits[..i + 1], base) == v * base + digits[i]
  {
    assert digits[..i + 1][..i] == digits[..i];
  }

  lemma NodeAValue()
    ensures Radix.Value(NODE_A, 256) == 0xE41B_E107_56A2_17E5
  {
    var b: seq<nat> := NODE_A;
    assert b[..0] == [] && Radix.Value([], 256) == 0 && b[..8] == b;
    hide Radix.Value;
    ValueSteps(b, 256, 0, 0);
    ValueSteps(b, 256, 1, 0xE4);
    ValueSteps(b, 256, 2, 0xE41B);
    ValueSteps(b, 256, 3, 0xE41B_E1);
    ValueSteps(b, 256, 4, 0xE41B_E107);
    ValueSteps(b, 256, 5, 0xE41B_E107_56);
    ValueSteps(b, 256, 6, 0xE41B_E107_56A2);
    ValueSteps(b, 256, 7, 0xE41B_E107_56A2_17);
  }

  // W G D Y 2 1 T P M 8 B Y A
  const SYMBOLS_A: seq<nat> := [28, 16, 13, 30, 2, 1, 26, 22, 20, 8, 11, 30, 10]

  lemma FirstSymbolsValue()
    ensures Radix.Value(SYMBOLS_A[..6], 32) == 956758081
  {
    var b := SYMBOLS_A;
    assert b[..0] == [] && Radix.Value([], 32) == 0;
    hide Radix.Value;
    ValueSteps(b, 32, 0, 0);
    ValueSteps(b, 32, 1, 28);
    ValueSteps(b, 32, 2, 912);
    ValueSteps(b, 32, 3, 29197);
    ValueSteps(b, 32, 4, 934334);
    ValueSteps(b, 32, 5, 29898690);
  }

  lemma SymbolsAValue()
    ensures Radix.Value(SYMBOLS_A, 32) == 2 * 0xE41B_E107_56A2_17E5
  {
    FirstSymbolsValue();
    var b := SYMBOLS_A;
    assert b[..13] == b;
    hide Radix.Value;
    ValueSteps(b, 32, 6, 956758081);
    ValueSteps(b, 32, 7, 30616258618);
    ValueSteps(b, 32, 8, 979720275798);
    ValueSteps(b, 32, 9, 31351048825556);
    ValueSteps(b, 32, 10, 1003233562417800);
    ValueSteps(b, 32, 11, 32103473997369611);
    ValueSteps(b, 32, 12, 1027311167915827582);
  }

  lemma EncodedIs()
    ensures Base32.Encoded(NODE_A) == SYMBOLS_A
  {
    NodeAValue();
    SymbolsAValue();
    assert Base32.Base32Len(8) == 13 && Base32.Padding(8) == 1 && Pow2(1) == 2;
    hide Radix.Value, Radix.Digits, Base32.Padding, Base32.Base32Len, Pow2;
    Radix.DigitsOfValue(SYMBOLS_A, 32);
  }

  lemma SpelledIs()
    ensures Radix.Within(SYMBOLS_A, 32) && Base32.Spell(SYMBOLS_A) == "WGDY21TPM8BYA"
  {
  }

  /** The compact form of a node ID. */
  lemma NodeIDVector()
    ensures Base32.Spell(Base32.Encoded(NODE_A)) == "WGDY21TPM8BYA"
  {
    EncodedIs();
    SpelledIs();
    hide *;
  }

  // ---- frames ------------------------------------------------------------------------------------------------------

  /** A frame of three hundred bytes: the two markers and the length, high byte first. */
  lemma FrameVector(payload: bytes)
    requires |payload| == 300
    ensures FrameReader.Framed(payload) == [0x94, 0xC3, 0x01, 0x2C] + payload
  {
  }
}
