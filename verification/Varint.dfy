/** Base-128 variable-length integers, read the way Go's encoding/binary reads them and then held to
    the one shortest form. */
module Varint {
  import opened Bytes

  datatype VarintError = CutShort | Overlong

  function PutUvarint(v: nat): (b: bytes)
    ensures |b| >= 1
  {
    if v < 0x80 then [v] else [0x80 + v % 0x80] + PutUvarint(v / 0x80)
  }

  // A reading: the value and how many bytes it took.
  datatype Reading = Reading(value: nat, length: nat)

  // The library reader, i bytes into a varint. It accepts padding and stops at ten bytes.
  function RawUvarint(b: bytes, i: nat): (r: Option<Reading>)
    ensures r.Some? ==> 1 <= r.value.length <= |b|
  {
    if b == [] || i >= 10 then None
    else if b[0] < 0x80 then
      if i == 9 && b[0] > 1 then None else Some(Reading(b[0], 1))
    else
      match RawUvarint(b[1..], i + 1)
      case None => None
      case Some(rest) => Some(Reading(b[0] - 0x80 + 0x80 * rest.value, rest.length + 1))
  }

  function CanonicalUvarint(b: bytes): (r: Result<Reading, VarintError>)
    ensures r.Ok? ==> 1 <= r.value.length <= |b|
  {
    match RawUvarint(b, 0)
    case None => Err(CutShort)
    case Some(rd) => if |PutUvarint(rd.value)| != rd.length then Err(Overlong) else Ok(rd)
  }

  // What still fits when the i lowest groups of seven bits have been read.
  function Limit(i: nat): (l: nat)
    requires i <= 9
    ensures i < 9 ==> l >= 0x80
    ensures l >= 2
    decreases 9 - i
  {
    if i == 9 then 2 else 0x80 * Limit(i + 1)
  }

  lemma LimitIsUint64()
    ensures Limit(0) == 0x1_0000_0000_0000_0000
  {
    assert Limit(8) == 0x100;
    assert Limit(6) == 0x40_0000;
    assert Limit(4) == 0x10_0000_0000;
    assert Limit(2) == 0x4_0000_0000_0000;
  }

  lemma {:induction false} RawReadsWhatWasPut(v: nat, rest: bytes, i: nat)
    requires i <= 9 && v < Limit(i)
    ensures RawUvarint(PutUvarint(v) + rest, i) == Some(Reading(v, |PutUvarint(v)|))
  {
    var b := PutUvarint(v) + rest;
    if v >= 0x80 {
      RawReadsWhatWasPut(v / 0x80, rest, i + 1);
      assert b[1..] == PutUvarint(v / 0x80) + rest;
    }
  }

  lemma {:induction false} ShortestIsWhatWasPut(b: bytes, i: nat)
    requires i <= 9 && RawUvarint(b, i).Some?
    ensures var rd := RawUvarint(b, i).value;
            && rd.value < Limit(i)
            && |PutUvarint(rd.value)| <= rd.length
            && (|PutUvarint(rd.value)| == rd.length ==> b[..rd.length] == PutUvarint(rd.value))
  {
    if b[0] >= 0x80 {
      ShortestIsWhatWasPut(b[1..], i + 1);
      var rest := RawUvarint(b[1..], i + 1).value;
      var v := b[0] - 0x80 + 0x80 * rest.value;
      if v >= 0x80 {
        assert v / 0x80 == rest.value && v % 0x80 == b[0] - 0x80;
        assert b[..rest.length + 1] == [b[0]] + b[1..][..rest.length];
      }
    }
  }

  /** A canonical reading is exactly a prefix that PutUvarint would write. */
  lemma UvarintIsCanonical(b: bytes, v: nat)
    ensures CanonicalUvarint(b) == Ok(Reading(v, |PutUvarint(v)|)) <==>
            v < 0x1_0000_0000_0000_0000 && PutUvarint(v) <= b
    ensures CanonicalUvarint(b).Ok? ==>
              CanonicalUvarint(b).value.length == |PutUvarint(CanonicalUvarint(b).value.value)|
  {
    LimitIsUint64();
    if v < 0x1_0000_0000_0000_0000 && PutUvarint(v) <= b {
      RawReadsWhatWasPut(v, b[|PutUvarint(v)|..], 0);
      assert b == PutUvarint(v) + b[|PutUvarint(v)|..];
    }
    if CanonicalUvarint(b).Ok? {
      ShortestIsWhatWasPut(b, 0);
    }
  }

  /** Two uvarints at the front of one string are the same uvarint. */
  lemma UvarintsArePrefixFree(v: nat, w: nat, b: bytes)
    requires v < 0x1_0000_0000_0000_0000 && w < 0x1_0000_0000_0000_0000
    requires PutUvarint(v) <= b && PutUvarint(w) <= b
    ensures v == w
  {
    UvarintIsCanonical(b, v);
    UvarintIsCanonical(b, w);
  }

  // ---- signed ------------------------------------------------------------------------------

  type int64 = x: int | -0x8000_0000_0000_0000 <= x < 0x8000_0000_0000_0000

  function ZigZag(x: int64): uint64 {
    if x >= 0 then 2 * x else -2 * x - 1
  }

  function UnZigZag(u: uint64): int64 {
    if u % 2 == 0 then u / 2 else -(u / 2) - 1
  }

  function PutVarint(x: int64): bytes {
    PutUvarint(ZigZag(x))
  }

  datatype SignedReading = SignedReading(value: int64, length: nat)

  function CanonicalVarint(b: bytes): (r: Result<SignedReading, VarintError>)
    ensures r.Ok? ==> 1 <= r.value.length <= |b|
  {
    match RawUvarint(b, 0)
    case None => Err(CutShort)
    case Some(rd) =>
      RawFits(b);
      var x := UnZigZag(rd.value);
      if |PutVarint(x)| != rd.length then Err(Overlong) else Ok(SignedReading(x, rd.length))
  }

  lemma RawFits(b: bytes)
    requires RawUvarint(b, 0).Some?
    ensures RawUvarint(b, 0).value.value < 0x1_0000_0000_0000_0000
  {
    LimitIsUint64();
    ShortestIsWhatWasPut(b, 0);
  }

  lemma ZigZagRoundTrip(x: int64, u: uint64)
    ensures UnZigZag(ZigZag(x)) == x && ZigZag(UnZigZag(u)) == u
  {
  }

  lemma VarintIsCanonical(b: bytes, x: int64)
    ensures CanonicalVarint(b) == Ok(SignedReading(x, |PutVarint(x)|)) <==> PutVarint(x) <= b
    ensures CanonicalVarint(b).Ok? ==> CanonicalVarint(b).value.length == |PutVarint(CanonicalVarint(b).value.value)|
  {
    UvarintIsCanonical(b, ZigZag(x));
    ZigZagRoundTrip(x, 0);
    if RawUvarint(b, 0).Some? {
      RawFits(b);
      ZigZagRoundTrip(x, RawUvarint(b, 0).value.value);
    }
  }
}
