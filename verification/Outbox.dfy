/** The sending half of the transport seam: bundles go out as fountain symbols under a cursor that
    remembers how far each one got. */
module Outbox {
  import opened Bytes
  import opened Bundle
  import opened GF2
  import opened Fountain
  import opened Encoder
  import RepairCount

  const FRAME_SYMBOL: byte := 2
  const FRAME_OVERHEAD := 1 + 4
  const MAX_SYMBOLS_PER_BUNDLE := 4 * MAX_K
  const MAX_LOSS_RATE: real := 0.5

  // What the link says to one frame.
  datatype Answer = Aired | NoBudget | Failed

  datatype SendResult = Done | Interrupted | LinkFailed | Abandoned | Barred | Refused

  function BundleID(hash: Hash, packed: bytes): uint32 {
    FromBE32(hash(packed)[..4])
  }

  // ---- the cursor ----------------------------------------------------------------------------------

  // Where a call that starts at `start` would stop if nothing refused it.
  function Total(k: nat, start: nat, loss: real): nat
    requires k >= 1
  {
    var first := k + RepairCount.Count(k, loss);
    var total := if start >= first then start + RepairCount.Count(k, loss) else first;
    if total > MAX_SYMBOLS_PER_BUNDLE then MAX_SYMBOLS_PER_BUNDLE else total
  }

  // The first index at or after i, below total, that the link does not take; total if it takes them all.
  function Stop(i: nat, total: nat, answers: nat -> Answer): (s: nat)
    requires i <= total
    ensures i <= s <= total && (forall j :: i <= j < s ==> answers(j) == Aired) && (s < total ==> answers(s) != Aired)
    decreases total - i
  {
    if i == total || answers(i) != Aired then i else Stop(i + 1, total, answers)
  }

  // One call for a bundle: the loss rate of the moment, the link's answers by symbol index, and whether
  // policy stops it before anything is sent.
  datatype Call = Call(loss: real, answers: nat -> Answer, barred: bool)

  function CursorAfter(k: nat, start: nat, call: Call): nat
    requires k >= 1
  {
    if start >= MAX_SYMBOLS_PER_BUNDLE || call.barred then start
    else
      TotalMovesOn(k, start, call.loss);
      Stop(start, Total(k, start, call.loss), call.answers)
  }

  // What a call reports: past the bound, barred by policy, stopped by the link, or everything aired.
  function Verdict(k: nat, start: nat, call: Call): SendResult
    requires k >= 1
  {
    var after := CursorAfter(k, start, call);
    if start >= MAX_SYMBOLS_PER_BUNDLE then Abandoned
    else if call.barred then Barred
    else if after == Total(k, start, call.loss) then Done
    else if call.answers(after) == NoBudget then Interrupted
    else LinkFailed
  }

  lemma TotalMovesOn(k: nat, start: nat, loss: real)
    requires 1 <= k && start < MAX_SYMBOLS_PER_BUNDLE
    ensures start < Total(k, start, loss) <= MAX_SYMBOLS_PER_BUNDLE
  {
    RepairCount.CountIsPositive(k, loss);
  }

  function Naturals(from: nat, to: nat): (s: seq<nat>)
    requires from <= to
    ensures |s| == to - from && forall i :: 0 <= i < |s| ==> s[i] == from + i
  {
    seq(to - from, i => from + i)
  }

  // The cursor and the indices aired after a run of calls for one bundle.
  datatype Transmission = Transmission(cursor: nat, aired: seq<nat>)

  function AfterCalls(k: nat, calls: seq<Call>): Transmission
    requires k >= 1
  {
    if calls == [] then Transmission(0, [])
    else
      var before := AfterCalls(k, calls[..|calls| - 1]);
      var cursor := CursorAfter(k, before.cursor, calls[|calls| - 1]);
      CursorRises(k, before.cursor, calls[|calls| - 1]);
      Transmission(cursor, before.aired + Naturals(before.cursor, cursor))
  }

  lemma CursorRises(k: nat, start: nat, call: Call)
    requires k >= 1
    ensures start <= CursorAfter(k, start, call)
    ensures start <= MAX_SYMBOLS_PER_BUNDLE ==> CursorAfter(k, start, call) <= MAX_SYMBOLS_PER_BUNDLE
  {
    if start < MAX_SYMBOLS_PER_BUNDLE {
      TotalMovesOn(k, start, call.loss);
    }
  }

  /** Over any run of calls, however they are refused or fail, the symbols aired are exactly
      0 .. cursor-1, each once and in order, and never more than the bound. */
  lemma {:induction false} EachSymbolIsAiredOnce(k: nat, calls: seq<Call>)
    requires k >= 1
    ensures var t := AfterCalls(k, calls); t.aired == Naturals(0, t.cursor) && t.cursor <= MAX_SYMBOLS_PER_BUNDLE
  {
    hide CursorAfter;
    if calls != [] {
      EachSymbolIsAiredOnce(k, calls[..|calls| - 1]);
      CursorRises(k, AfterCalls(k, calls[..|calls| - 1]).cursor, calls[|calls| - 1]);
    }
  }

  /** Below the bound a call moves the cursor exactly when policy lets it start and the link takes its
      first symbol. */
  lemma CallMakesProgress(k: nat, start: nat, call: Call)
    requires k >= 1 && start < MAX_SYMBOLS_PER_BUNDLE
    ensures start < CursorAfter(k, start, call) <==> !call.barred && call.answers(start) == Aired
  {
    TotalMovesOn(k, start, call.loss);
  }

  /** What Done means. Of a first transmission, resumed or not: every source symbol and all the repair symbols the
      loss rate asks for are on the air, up to the bound. Past it: exactly that many repair symbols more. */
  lemma DoneMeansAllOnTheAir(k: nat, start: nat, call: Call)
    requires 1 <= k <= MAX_K && Verdict(k, start, call) == Done
    ensures var repair, after := RepairCount.Count(k, call.loss), CursorAfter(k, start, call);
            && after >= Min(k + repair, MAX_SYMBOLS_PER_BUNDLE) >= k
            && (start < k + repair ==> after == Min(k + repair, MAX_SYMBOLS_PER_BUNDLE))
            && (start >= k + repair ==> after == Min(start + repair, MAX_SYMBOLS_PER_BUNDLE))
            && forall i :: start <= i < after ==> call.answers(i) == Aired
  {
    RepairCount.CountIsPositive(k, call.loss);
    TotalMovesOn(k, start, call.loss);
  }

  lemma DoneAirsTheSources(k: nat, calls: seq<Call>)
    requires 1 <= k <= MAX_K && calls != []
    requires Verdict(k, AfterCalls(k, calls[..|calls| - 1]).cursor, calls[|calls| - 1]) == Done
    ensures var t := AfterCalls(k, calls); k <= t.cursor <= MAX_SYMBOLS_PER_BUNDLE && t.aired == Naturals(0, t.cursor)
  {
    EachSymbolIsAiredOnce(k, calls);
    DoneMeansAllOnTheAir(k, AfterCalls(k, calls[..|calls| - 1]).cursor, calls[|calls| - 1]);
  }

  /** With a link that takes everything and no policy against it a call is always Done, until the bound. */
  lemma WillingLinkMeansDone(k: nat, start: nat, call: Call)
    requires 1 <= k && start < MAX_SYMBOLS_PER_BUNDLE && !call.barred && forall i :: call.answers(i) == Aired
    ensures Verdict(k, start, call) == Done
  {
    TotalMovesOn(k, start, call.loss);
  }

  /** Different bundles need not share an ID: for any two some hash tells them apart. */
  lemma BundleIDsCanDiffer(p: bytes, q: bytes) returns (hash: Hash)
    requires p != q
    ensures BundleID(hash, p) != BundleID(hash, q)
  {
    var ones: Digest256 := seq(32, _ => 1);
    hash := (b: bytes) => if b == p then ones else Zeros(32);
  }

  // ---- frames ---------------------------------------------------------------------------------------

  function FrameOf(hash: Hash, e: SourceBlock, index: uint16): bytes
    requires 1 <= e.k <= MAX_K && IsBlock(e.source, e.k, e.symSize) && e.origLen < 0x1_0000_0000
  {
    [FRAME_SYMBOL] + BE32(e.origLen) + EncodeSymbol(SymbolOf(hash, e, index))
  }

  ghost function Frames(hash: Hash, e: SourceBlock, from: nat, to: nat): (f: seq<bytes>)
    requires 1 <= e.k <= MAX_K && IsBlock(e.source, e.k, e.symSize) && e.origLen < 0x1_0000_0000
    requires from <= to <= 0x1_0000
    ensures |f| == to - from
  {
    seq(to - from, i requires 0 <= i < to - from => FrameOf(hash, e, from + i))
  }

  function ClampedRate(rate: real): (r: real)
    ensures 0.0 <= r <= MAX_LOSS_RATE
    ensures 0.0 <= rate <= MAX_LOSS_RATE ==> r == rate
    ensures rate < 0.0 ==> r == 0.0
    ensures rate > MAX_LOSS_RATE ==> r == MAX_LOSS_RATE
  {
    if rate < 0.0 then 0.0 else if rate > MAX_LOSS_RATE then MAX_LOSS_RATE else rate
  }

  // ---- the object ------------------------------------------------------------------------------------

  // A configured loss rate need only be a fraction below one, and the node must have an ID.
  method NewOutbox(hash: Hash, codec: RecordCodec, self: NodeID, mtu: int, dict: Dictionary, lossRate: real)
    returns (o: Option<Outbox>)
    ensures o.Some? <==> 0.0 <= lossRate < 1.0 && self != Zeros(8)
    ensures o.Some? ==> fresh(o.value) && o.value.Valid() && o.value.lossRate == lossRate && o.value.cursor == map[]
  {
    if lossRate < 0.0 || lossRate >= 1.0 || self == Zeros(8) {
      return None;
    }
    var made := new Outbox(hash, codec, self, mtu, dict, lossRate);
    return Some(made);
  }

  class Outbox {
    const hash: Hash
    const codec: RecordCodec
    const self: NodeID
    const mtu: int
    var dict: Dictionary
    var lossRate: real
    var cursor: map<uint32, nat>
    var air: seq<bytes>

    ghost predicate Valid()
      reads this
    {
      0.0 <= lossRate < 1.0 && forall id :: id in cursor ==> cursor[id] <= MAX_SYMBOLS_PER_BUNDLE
    }

    constructor (hash: Hash, codec: RecordCodec, self: NodeID, mtu: int, dict: Dictionary, lossRate: real)
      requires 0.0 <= lossRate < 1.0
      ensures Valid() && cursor == map[] && air == [] && this.lossRate == lossRate
      ensures this.hash == hash && this.codec == codec && this.self == self && this.mtu == mtu && this.dict == dict
    {
      this.hash, this.codec, this.self, this.mtu, this.dict, this.lossRate := hash, codec, self, mtu, dict, lossRate;
      cursor, air := map[], [];
    }

    function CursorOf(id: uint32): nat
      reads this
    {
      if id in cursor then cursor[id] else 0
    }

    function SymSize(): int {
      mtu - FRAME_OVERHEAD - HEADER_SIZE
    }

    // A rate above the clamp only ever comes from the configuration.
    method SetLossRate(rate: real)
      requires Valid()
      modifies this`lossRate
      ensures Valid() && lossRate == ClampedRate(rate) <= MAX_LOSS_RATE
    {
      lossRate := if rate < 0.0 then 0.0 else if rate > MAX_LOSS_RATE then MAX_LOSS_RATE else rate;
    }

    method Forget(id: uint32)
      requires Valid()
      modifies this`cursor
      ensures Valid() && cursor == old(cursor) - {id}
    {
      cursor := cursor - {id};
    }

    // The source block of a bundle on this link, when there is one.
    ghost predicate Codes(e: SourceBlock, packed: bytes)
      reads this
    {
      && IsEncoding(e, packed) && e.sender == self && e.bundleID == BundleID(hash, packed)
      && e.symSize == SymSize() && e.origLen < 0x1_0000_0000
    }

    method Prepare(area: AreaTag, recs: seq<Record>) returns (e: Option<SourceBlock>)
      ensures var packed := Packed(codec, Batch(area, 0, dict.id, recs), dict);
              && (e.Some? <==> packed.Ok? && 1 <= SymSize() <= MAX_SYMBOL_SIZE
                               && packed.value != [] && SymbolCount(|packed.value|, SymSize()) <= MAX_K)
              && (e.Some? ==> Codes(e.value, packed.value))
    {
      hide Packed, IsEncoding;
      var packed := Pack(codec, Batch(area, 0, dict.id, recs), dict);
      if packed.Err? || SymSize() <= 0 {
        return None;
      }
      var enc := NewEncoder(self, BundleID(hash, packed.value), packed.value, SymSize());
      if enc.Err? {
        return None;
      }
      PayloadFits(enc.value, packed.value);
      return Some(enc.value);
    }

    // Airs symbols start..total-1 until the link refuses or fails, and remembers where it stopped.
    method SendFrom(e: SourceBlock, start: nat, total: nat, answers: nat -> Answer) returns (r: SendResult)
      requires 1 <= e.k <= MAX_K && IsBlock(e.source, e.k, e.symSize) && e.origLen < 0x1_0000_0000
      requires start <= total <= MAX_SYMBOLS_PER_BUNDLE
      modifies this`cursor, this`air
      ensures cursor == old(cursor)[e.bundleID := Stop(start, total, answers)]
      ensures air == old(air) + Frames(hash, e, start, Stop(start, total, answers))
      ensures r == if Stop(start, total, answers) == total then Done
                   else if answers(Stop(start, total, answers)) == NoBudget then Interrupted else LinkFailed
    {
      var i := start;
      while i < total
        invariant start <= i <= total && Stop(i, total, answers) == Stop(start, total, answers)
        invariant air == old(air) + Frames(hash, e, start, i)
        invariant cursor == old(cursor)
      {
        var s := EmitSymbol(hash, e, i);
        var frame := [FRAME_SYMBOL] + BE32(e.origLen) + EncodeSymbol(s);
        if answers(i) == NoBudget {
          cursor := cursor[e.bundleID := i];
          return Interrupted;
        }
        if answers(i) == Failed {
          cursor := cursor[e.bundleID := i];
          return LinkFailed;
        }
        MoreFrames(hash, e, start, i);
        air := air + [frame];
        i := i + 1;
      }
      cursor := cursor[e.bundleID := total];
      return Done;
    }

    // Where this call would stop: all of the first transmission, or as many repair symbols again.
    method Target(k: nat, start: nat) returns (total: nat)
      requires k >= 1 && start < MAX_SYMBOLS_PER_BUNDLE
      ensures total == Total(k, start, lossRate) && start < total <= MAX_SYMBOLS_PER_BUNDLE
    {
      TotalMovesOn(k, start, lossRate);
      var repair := RepairCount.ComputeCount(k, lossRate);
      total := k + repair;
      if start >= total {
        total := start + repair;
      }
      if total > MAX_SYMBOLS_PER_BUNDLE {
        total := MAX_SYMBOLS_PER_BUNDLE;
      }
    }

    // One block, from its cursor on.
    method Resume(e: SourceBlock, answers: nat -> Answer, barred: bool) returns (r: SendResult)
      requires Valid() && 1 <= e.k <= MAX_K && IsBlock(e.source, e.k, e.symSize) && e.origLen < 0x1_0000_0000
      modifies this`cursor, this`air
      ensures Valid()
      ensures var start, call := old(CursorOf(e.bundleID)), Call(lossRate, answers, barred);
              var after := CursorAfter(e.k, start, call);
              && start <= after <= MAX_SYMBOLS_PER_BUNDLE && CursorOf(e.bundleID) == after
              && (forall id :: id != e.bundleID ==> CursorOf(id) == old(CursorOf(id)))
              && air == old(air) + Frames(hash, e, start, after) && r == Verdict(e.k, start, call)
    {
      hide Total;
      var start := CursorOf(e.bundleID);
      assert Frames(hash, e, start, start) == [];
      if start >= MAX_SYMBOLS_PER_BUNDLE {
        return Abandoned;
      }
      var total := Target(e.k, start);
      if barred {
        return Barred;
      }
      r := SendFrom(e, start, total, answers);
    }

    // barred is the amateur-licence rule's verdict on this area.
    method SendRecords(area: AreaTag, recs: seq<Record>, answers: nat -> Answer, barred: bool)
      returns (r: SendResult, ghost e: Option<SourceBlock>)
      requires Valid()
      modifies this`cursor, this`air
      ensures Valid()
      ensures var packed := Packed(codec, Batch(area, 0, dict.id, recs), dict);
              && (e.Some? <==> packed.Ok? && 1 <= SymSize() <= MAX_SYMBOL_SIZE
                               && packed.value != [] && SymbolCount(|packed.value|, SymSize()) <= MAX_K)
              && (e.Some? ==> Codes(e.value, packed.value))
      ensures e.None? ==> r == Refused && cursor == old(cursor) && air == old(air)
      ensures e.Some? ==>
                var start, call := old(CursorOf(e.value.bundleID)), Call(lossRate, answers, barred);
                var after := CursorAfter(e.value.k, start, call);
                && start <= after <= MAX_SYMBOLS_PER_BUNDLE && CursorOf(e.value.bundleID) == after
                && (forall id :: id != e.value.bundleID ==> CursorOf(id) == old(CursorOf(id)))
                && air == old(air) + Frames(hash, e.value, start, after) && r == Verdict(e.value.k, start, call)
    {
      hide Packed, IsEncoding, CursorAfter, Verdict;
      var block := Prepare(area, recs);
      e := block;
      if block.None? {
        r := Refused;
        return;
      }
      BlockShape(block.value, Packed(codec, Batch(area, 0, dict.id, recs), dict).value);
      r := Resume(block.value, answers, barred);
    }
  }

  lemma BlockShape(e: SourceBlock, payload: bytes)
    requires IsEncoding(e, payload)
    ensures 1 <= e.k <= MAX_K && IsBlock(e.source, e.k, e.symSize)
  {
  }

  lemma MoreFrames(hash: Hash, e: SourceBlock, from: nat, to: nat)
    requires 1 <= e.k <= MAX_K && IsBlock(e.source, e.k, e.symSize) && e.origLen < 0x1_0000_0000
    requires from <= to < 0x1_0000
    ensures Frames(hash, e, from, to + 1) == Frames(hash, e, from, to) + [FrameOf(hash, e, to)]
  {
  }

  /** Resuming continues exactly where the last call stopped. */
  lemma FramesContinue(hash: Hash, e: SourceBlock, a: nat, b: nat)
    requires 1 <= e.k <= MAX_K && IsBlock(e.source, e.k, e.symSize) && e.origLen < 0x1_0000_0000
    requires a <= b <= 0x1_0000
    ensures Frames(hash, e, 0, a) + Frames(hash, e, a, b) == Frames(hash, e, 0, b)
  {
  }

  lemma PayloadFits(e: SourceBlock, payload: bytes)
    requires IsEncoding(e, payload)
    ensures e.origLen <= MAX_K * MAX_SYMBOL_SIZE
  {
    assert e.k * e.symSize <= MAX_K * MAX_SYMBOL_SIZE by {
      Scale(e.k, MAX_K, e.symSize);
      Scale(e.symSize, MAX_SYMBOL_SIZE, MAX_K);
    }
  }
}
