/** From the records one node sends to the records another node's store holds. */
module EndToEnd {
  import opened Bytes
  import opened Bundle
  import opened Encoder
  import opened Fountain
  import opened Outbox
  import opened Inbox
  import opened Delivery
  import opened Lifetime
  import B = Bundle
  import D = Decoder
  import S = Store
  import opened GF2

  // What the sender packs, and what its source block promises about it.
  ghost predicate Sends(hash: Hash, codec: RecordCodec, sent: Batch, dict: Dictionary, e: SourceBlock) {
    var packed := Packed(codec, sent, dict);
    packed.Ok? && IsEncoding(e, packed.value) && e.bundleID == BundleID(hash, packed.value)
  }

  // What the receiver needs to read it.
  ghost predicate Readable(codec: RecordCodec, sent: Batch, dict: Dictionary, dicts: map<byte, Dictionary>) {
    && B.Lawful(codec) && Faithful(dict) && dict.id in dicts && dicts[dict.id] == dict
    && Packed(codec, sent, dict).Ok? && |EncodeBody(codec, sent)| <= MAX_DECOMPRESSED
  }

  /** The block SendRecords airs symbols of is a bundle as the receiver's results need it. */
  lemma SentIsCoded(hash: Hash, codec: RecordCodec, sent: Batch, dict: Dictionary, e: SourceBlock)
    requires Sends(hash, codec, sent, dict, e)
    ensures Coded(hash, e, Packed(codec, sent, dict).value)
  {
    PayloadFits(e, Packed(codec, sent, dict).value);
  }

  lemma CodesIsSends(o: Outbox, area: AreaTag, recs: seq<Record>, e: SourceBlock)
    requires var packed := Packed(o.codec, Batch(area, 0, o.dict.id, recs), o.dict);
             packed.Ok? && o.Codes(e, packed.value)
    ensures Sends(o.hash, o.codec, Batch(area, 0, o.dict.id, recs), o.dict, e) && e.sender == o.self
  {
  }

  // What the sender has put on the air when its cursor stands here.
  ghost function AirUpTo(hash: Hash, e: SourceBlock, cursor: nat): seq<bytes> {
    if 1 <= e.k <= MAX_K && IsBlock(e.source, e.k, e.symSize) && e.origLen < 0x1_0000_0000
      && cursor <= MAX_SYMBOLS_PER_BUNDLE
    then Frames(hash, e, 0, cursor)
    else []
  }

  // Under this key, what arrives is what was put on the air.
  ghost predicate FromTheAir(air: seq<bytes>, key: Key, arrivals: seq<Arrival>) {
    forall i :: 0 <= i < |arrivals| && KeyOf(arrivals[i]) == key ==>
      exists frame :: frame in air && ParseFrame(frame) == Some(arrivals[i].frame)
  }

  lemma AiredIsGenuine(hash: Hash, e: SourceBlock, payload: bytes, cursor: nat, arrivals: seq<Arrival>, i: nat)
    requires Coded(hash, e, payload) && FromTheAir(AirUpTo(hash, e, cursor), SenderKey(e), arrivals) && i < |arrivals|
    ensures 1 <= e.k <= MAX_K && IsBlock(e.source, e.k, e.symSize) && Genuine(hash, e, arrivals[i])
  {
    CodedShape(hash, e, payload);
    if KeyOf(arrivals[i]) == SenderKey(e) {
      var air := AirUpTo(hash, e, cursor);
      var frame :| frame in air && ParseFrame(frame) == Some(arrivals[i].frame);
      var x :| 0 <= x < |air| && air[x] == frame;
      hide SymbolOf;
      FrameParses(hash, e, payload, x);
    }
  }

  lemma AiredRunIsGenuine(hash: Hash, e: SourceBlock, payload: bytes, cursor: nat, arrivals: seq<Arrival>)
    requires Coded(hash, e, payload) && FromTheAir(AirUpTo(hash, e, cursor), SenderKey(e), arrivals)
    ensures 1 <= e.k <= MAX_K && IsBlock(e.source, e.k, e.symSize) && GenuineRun(hash, e, arrivals)
  {
    CodedShape(hash, e, payload);
    hide FromTheAir, AirUpTo, Genuine, Coded;
    forall i | 0 <= i < |arrivals|
      ensures Genuine(hash, e, arrivals[i])
    {
      AiredIsGenuine(hash, e, payload, cursor, arrivals, i);
    }
  }

  // What the inbox hands to the store for one outcome.
  ghost function Handed(codec: RecordCodec, dicts: map<byte, Dictionary>, o: Outcome): Option<Batch> {
    if o.Decoded? then Unpacked(codec, o.packed, dicts) else None
  }

  lemma PayloadIsWhatWasSent(hash: Hash, codec: RecordCodec, sent: Batch, dict: Dictionary,
                             dicts: map<byte, Dictionary>, e: SourceBlock)
    requires Sends(hash, codec, sent, dict, e) && Readable(codec, sent, dict, dicts)
    ensures Unpacked(codec, Packed(codec, sent, dict).value, dicts) == Some(sent.(dictID := 0))
  {
    PackRoundTrip(codec, sent, dict, dicts);
  }

  /** Whatever arrives, in any order, any number of times, among any other traffic, and whatever expires or is
      evicted: under the sender's key the inbox hands over nothing but exactly the records sent. */
  lemma OnlyTheRecordsSentArrive(hash: Hash, codec: RecordCodec, sent: Batch, dict: Dictionary,
                                 dicts: map<byte, Dictionary>, e: SourceBlock, cursor: nat,
                                 states: seq<State>, arrivals: seq<Arrival>, i: nat)
    requires Sends(hash, codec, sent, dict, e) && Readable(codec, sent, dict, dicts)
    requires Run(hash, states, arrivals) && SenderKey(e) !in states[0].open
    requires FromTheAir(AirUpTo(hash, e, cursor), SenderKey(e), arrivals) && i < |arrivals|
             && KeyOf(arrivals[i]) == SenderKey(e)
    ensures var o := OutcomeAt(hash, states, arrivals, i);
            && (o.Duplicate? || o.Gathered? || o.Decoded?)
            && (o.Decoded? ==> Handed(codec, dicts, o) == Some(sent.(dictID := 0)))
  {
    var payload := Packed(codec, sent, dict).value;
    SentIsCoded(hash, codec, sent, dict, e);
    PayloadIsWhatWasSent(hash, codec, sent, dict, dicts, e);
    AiredRunIsGenuine(hash, e, payload, cursor, arrivals);
    hide Run, Coded, GenuineRun, Packed, Unpacked, FromTheAir, AirUpTo, Sends, Readable;
    OnlyThePayloadIsDecoded(hash, e, payload, states, arrivals, i);
  }

  ghost function IndicesUpTo(cursor: nat): (I: set<uint16>)
    requires cursor <= MAX_SYMBOLS_PER_BUNDLE
    ensures forall i: uint16 :: i in I <==> i < cursor
  {
    if cursor == 0 then {} else IndicesUpTo(cursor - 1) + {cursor - 1}
  }

  lemma EnoughAired(hash: Hash, e: SourceBlock, cursor: nat)
    requires 1 <= e.k <= MAX_K && e.k <= cursor <= MAX_SYMBOLS_PER_BUNDLE
    ensures D.Resolves(hash, e, IndicesUpTo(cursor))
  {
    hide D.Resolves;
    D.SystematicSymbolsSuffice(hash, e, IndicesUpTo(cursor));
  }

  /** After any run of calls for a bundle of which the last reports Done, what is on the air, all below the cursor,
      resolves the block: whoever hears all of it can decode. */
  lemma DoneMeansResolvable(hash: Hash, e: SourceBlock, calls: seq<Call>)
    requires 1 <= e.k <= MAX_K && calls != []
    requires Verdict(e.k, AfterCalls(e.k, calls[..|calls| - 1]).cursor, calls[|calls| - 1]) == Done
    ensures var t := AfterCalls(e.k, calls);
            && t.cursor <= MAX_SYMBOLS_PER_BUNDLE && t.aired == Naturals(0, t.cursor)
            && D.Resolves(hash, e, IndicesUpTo(t.cursor))
  {
    DoneAirsTheSources(e.k, calls);
    hide AfterCalls, Verdict, D.Resolves, IndicesUpTo;
    EnoughAired(hash, e, AfterCalls(e.k, calls).cursor);
  }

  /** What SendRecords promises of an outbox's block is enough: of all that the outbox has aired of it so far,
      nothing but the area and records it was called with is ever handed over. */
  lemma OutboxDeliversWhatItSends(o: Outbox, area: AreaTag, recs: seq<Record>, e: SourceBlock,
                                  dicts: map<byte, Dictionary>, states: seq<State>, arrivals: seq<Arrival>, i: nat)
    requires var packed := Packed(o.codec, Batch(area, 0, o.dict.id, recs), o.dict);
             packed.Ok? && o.Codes(e, packed.value)
    requires Readable(o.codec, Batch(area, 0, o.dict.id, recs), o.dict, dicts)
    requires Run(o.hash, states, arrivals) && SenderKey(e) !in states[0].open
    requires FromTheAir(AirUpTo(o.hash, e, o.CursorOf(e.bundleID)), SenderKey(e), arrivals)
    requires i < |arrivals| && KeyOf(arrivals[i]) == SenderKey(e)
    ensures SenderKey(e).from == o.self
    ensures var outcome := OutcomeAt(o.hash, states, arrivals, i);
            && (outcome.Duplicate? || outcome.Gathered? || outcome.Decoded?)
            && (outcome.Decoded? ==> Handed(o.codec, dicts, outcome) == Some(Batch(area, 0, 0, recs)))
  {
    CodesIsSends(o, area, recs, e);
    hide Run, Packed, Unpacked, FromTheAir, AirUpTo, Sends, Readable;
    OnlyTheRecordsSentArrive(o.hash, o.codec, Batch(area, 0, o.dict.id, recs), o.dict, dicts, e,
                             o.CursorOf(e.bundleID), states, arrivals, i);
  }

  lemma DecodedIsThePayload(hash: Hash, e: SourceBlock, payload: bytes, states: seq<State>, arrivals: seq<Arrival>,
                            j: nat)
    requires Run(hash, states, arrivals) && Coded(hash, e, payload) && GenuineRun(hash, e, arrivals) && j < |arrivals|
    requires SenderKey(e) !in states[0].open && KeyOf(arrivals[j]) == SenderKey(e)
    requires OutcomeAt(hash, states, arrivals, j).Decoded?
    ensures OutcomeAt(hash, states, arrivals, j) == Decoded(payload)
  {
    hide Run, Coded, GenuineRun, OutcomeAt;
    OnlyThePayloadIsDecoded(hash, e, payload, states, arrivals, j);
  }

  // The symbol that resolves the block decodes, unless one before it did.
  lemma DecodesHereOrBefore(hash: Hash, e: SourceBlock, payload: bytes, states: seq<State>, arrivals: seq<Arrival>,
                            n: nat)
    returns (i: nat)
    requires Run(hash, states, arrivals) && Coded(hash, e, payload) && GenuineRun(hash, e, arrivals)
    requires Steady(e, states, arrivals, n) && D.Resolves(hash, e, Heard(e, arrivals, n + 1))
    ensures i <= n && KeyOf(arrivals[i]) == SenderKey(e) && OutcomeAt(hash, states, arrivals, i) == Decoded(payload)
  {
    hide Run, Coded, GenuineRun, Timely, Uncrowded, D.Resolves, Heard, OutcomeAt;
    i := n;
    if j: nat :| j < n && KeyOf(arrivals[j]) == SenderKey(e) && OutcomeAt(hash, states, arrivals, j).Decoded? {
      i := j;
      DecodedIsThePayload(hash, e, payload, states, arrivals, j);
    } else {
      DecodesOnceResolved(hash, e, payload, states, arrivals, n);
    }
  }

  /** As long as the symbols heard follow each other within a decoder's lifetime and not too many other keys are heard
      of in between, once they resolve the block the records sent have been handed over, and every one the store
      admits fills its slot there; unless another record claims that slot it is that record. */
  lemma RecordsSentAreHeld(hash: Hash, codec: RecordCodec, sent: Batch, dict: Dictionary,
                           dicts: map<byte, Dictionary>, e: SourceBlock, cursor: nat,
                           states: seq<State>, arrivals: seq<Arrival>, n: nat,
                           trust: S.Trust, log: S.AreaLog, r: Record) returns (i: nat)
    requires Sends(hash, codec, sent, dict, e) && Readable(codec, sent, dict, dicts)
    requires Run(hash, states, arrivals) && Steady(e, states, arrivals, n)
    requires FromTheAir(AirUpTo(hash, e, cursor), SenderKey(e), arrivals)
    requires D.Resolves(hash, e, Heard(e, arrivals, n + 1))
    requires r in sent.records && S.Admits(trust, sent.area, r)
    ensures i <= n && KeyOf(arrivals[i]) == SenderKey(e)
    ensures Handed(codec, dicts, OutcomeAt(hash, states, arrivals, i)) == Some(sent.(dictID := 0))
    ensures var b := Handed(codec, dicts, OutcomeAt(hash, states, arrivals, i)).value;
            var slots := S.Slots(S.Applied(trust, b.area, log, b.records), r.origin);
            r.seqNo in slots && (Alone(log, sent.records, r) ==> slots[r.seqNo as nat] == r)
  {
    var payload := Packed(codec, sent, dict).value;
    SentIsCoded(hash, codec, sent, dict, e);
    PayloadIsWhatWasSent(hash, codec, sent, dict, dicts, e);
    AiredRunIsGenuine(hash, e, payload, cursor, arrivals);
    hide Run, Coded, GenuineRun, Packed, Unpacked, FromTheAir, AirUpTo, Sends, Readable, Timely, Uncrowded,
      D.Resolves, Heard, OutcomeAt;
    i := DecodesHereOrBefore(hash, e, payload, states, arrivals, n);
    AdmittedIsFiled(trust, sent.area, log, sent.records, r);
  }

  // No other record claims its slot.
  ghost predicate Alone(log: S.AreaLog, recs: seq<Record>, r: Record) {
    && (r.seqNo in S.Slots(log, r.origin) ==> S.Slots(log, r.origin)[r.seqNo as nat] == r)
    && (forall q :: q in recs && q.origin == r.origin && q.seqNo == r.seqNo ==> q == r)
  }

  lemma AdmittedIsFiled(trust: S.Trust, area: AreaTag, log: S.AreaLog, recs: seq<Record>, r: Record)
    requires r in recs && S.Admits(trust, area, r)
    ensures var slots := S.Slots(S.Applied(trust, area, log, recs), r.origin);
            r.seqNo in slots && (Alone(log, recs, r) ==> slots[r.seqNo as nat] == r)
  {
    S.FiledFromSomewhere(trust, area, log, recs, r.origin, r.seqNo);
    assert S.Fills(trust, area, r, r.origin, r.seqNo);
  }
}
