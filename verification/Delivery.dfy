/** End to end: what an outbox airs and an inbox hears, in any order and among any other traffic. */
module Delivery {
  import opened Bytes
  import opened Bundle
  import opened Fountain
  import opened Encoder
  import opened Outbox
  import opened Inbox
  import B = Bundle
  import D = Decoder
  import opened GF2

  // One accepted frame, when it arrived, and whom the cap evicted for it.
  datatype Arrival = Arrival(from: NodeID, frame: SymbolFrame, now: int, victim: Option<Key>)

  function KeyOf(a: Arrival): Key {
    Key(a.from, a.frame.symbol.bundleID)
  }

  // The victim is whom evictToCap may choose.
  ghost predicate Lawful(st: State, a: Arrival) {
    if KeyOf(a) !in st.done && DecoderFor(Expired(st, a.now), a.from, a.frame, a.now).Some?
    then Evicts(Crowded(st, a.from, a.frame, a.now), a.victim)
    else a.victim.None?
  }

  ghost function Next(hash: Hash, st: State, a: Arrival): Step
    requires WellFormed(st)
  {
    Receive(hash, st, a.from, a.frame, a.now, a.victim)
  }

  // The states an inbox goes through: states[i] is the one arrival i meets.
  ghost predicate Run(hash: Hash, states: seq<State>, arrivals: seq<Arrival>) {
    && |states| == |arrivals| + 1
    && (forall i :: 0 <= i < |states| ==> WellFormed(states[i]))
    && (forall i :: 0 <= i < |arrivals| ==>
          Lawful(states[i], arrivals[i]) && states[i + 1] == Next(hash, states[i], arrivals[i]).state)
    && (forall i, j :: 0 <= i <= j < |arrivals| ==> arrivals[i].now <= arrivals[j].now)
  }

  ghost function OutcomeAt(hash: Hash, states: seq<State>, arrivals: seq<Arrival>, i: nat): Outcome
    requires Run(hash, states, arrivals) && i < |arrivals|
  {
    Next(hash, states[i], arrivals[i]).outcome
  }

  // ---- the cap ---------------------------------------------------------------------------------------------

  lemma ArrivalKeepsTheCap(hash: Hash, st: State, a: Arrival)
    requires WellFormed(st) && Lawful(st, a) && |st.open| <= MAX_OPEN_DECODERS
    ensures |Next(hash, st, a).state.open| <= MAX_OPEN_DECODERS
  {
    hide D.WellFormed, DecoderFor, Fed, Expired;
    var key := KeyOf(a);
    if key !in st.done {
      var live := Expired(st, a.now);
      ExpiryShrinks(st, a.now);
      var od := DecoderFor(live, a.from, a.frame, a.now);
      if od.Some? {
        GrowsByOne(live.open, key, od.value);
        FedKeepsSize(hash, State(Without(live.open[key := od.value], a.victim), live.done), key, od.value,
          a.frame.symbol, a.now);
      }
    }
  }

  lemma ExpiryShrinks(st: State, now: int)
    ensures |Expired(st, now).open| <= |st.open|
  {
    SmallerMap(Expired(st, now).open, st.open);
  }

  lemma FedKeepsSize(hash: Hash, st: State, key: Key, od: OpenDecoder, s: Symbol, now: int)
    requires WellFormed(st) && D.WellFormed(od.dec)
    ensures |Fed(hash, st, key, od, s, now).state.open| <= |st.open|
  {
    hide D.Add, D.WellFormed, D.PayloadOf, D.Fits;
    var out := Fed(hash, st, key, od, s, now).state.open;
    assert out.Keys <= st.open.Keys;
    SmallerMap(out, st.open);
  }

  /** Open decoders never exceed the cap. */
  lemma {:induction false} CapHolds(hash: Hash, states: seq<State>, arrivals: seq<Arrival>, i: nat)
    requires Run(hash, states, arrivals) && |states[0].open| <= MAX_OPEN_DECODERS && i < |states|
    ensures |states[i].open| <= MAX_OPEN_DECODERS
  {
    hide Lawful, WellFormed;
    if i > 0 {
      CapHolds(hash, states, arrivals, i - 1);
      assert Lawful(states[i - 1], arrivals[i - 1])
             && states[i - 1 + 1] == Next(hash, states[i - 1], arrivals[i - 1]).state;
      ArrivalKeepsTheCap(hash, states[i - 1], arrivals[i - 1]);
    }
  }

  /** When the cap is exceeded, the frame's own decoder may be the one evicted exactly when every other open
      decoder was touched no earlier than now: under a monotone clock, exactly on a tie of clock readings. */
  lemma NewestMayGoExactlyOnTies(st: State, a: Arrival)
    requires KeyOf(a) !in st.done && DecoderFor(Expired(st, a.now), a.from, a.frame, a.now).Some?
    requires |Crowded(st, a.from, a.frame, a.now)| > MAX_OPEN_DECODERS
    ensures Lawful(st, a.(victim := Some(KeyOf(a)))) <==>
            forall k :: k in Expired(st, a.now).open && k != KeyOf(a) ==> Expired(st, a.now).open[k].touched >= a.now
  {
    var live, open := Expired(st, a.now).open, Crowded(st, a.from, a.frame, a.now);
    assert open[KeyOf(a)].touched == a.now;
    forall k | k in live && k != KeyOf(a)
      ensures k in open && open[k] == live[k]
    {
    }
  }

  // n decoders of one sender, for bundles 0 .. n-1, all touched at time 0.
  function Tied(n: nat): map<Key, OpenDecoder>
    requires n <= MAX_OPEN_DECODERS
  {
    if n == 0 then map[]
    else Tied(n - 1)[Key(Zeros(8), n - 1) := OpenDecoder(D.NewState(Zeros(8), n - 1, 2, 1, 2).value, 0, 0)]
  }

  lemma {:induction false} TiedIsFull(n: nat)
    requires n <= MAX_OPEN_DECODERS
    ensures |Tied(n)| == n && WellFormed(State(Tied(n), map[]))
    ensures forall k :: k in Tied(n) ==> k.bundleID < n && Tied(n)[k].touched == 0
  {
    if n > 0 {
      TiedIsFull(n - 1);
      GrowsByOne(Tied(n - 1), Key(Zeros(8), n - 1), OpenDecoder(D.NewState(Zeros(8), n - 1, 2, 1, 2).value, 0, 0));
    }
  }

  // A first symbol of two solves nothing.
  lemma OneOfTwo(hash: Hash, d: D.State, s: Symbol)
    requires D.WellFormed(d) && d.solved.None? && d.rows == [] && d.k == 2
    ensures D.Add(hash, d, s).solved.None?
  {
  }

  // A decoder evicted for its own frame still takes the symbol, and nobody keeps it.
  lemma GathersInVain(hash: Hash, st: State, a: Arrival, od: OpenDecoder)
    requires WellFormed(st) && KeyOf(a) !in st.done && a.victim == Some(KeyOf(a))
    requires DecoderFor(Expired(st, a.now), a.from, a.frame, a.now) == Some(od)
    requires D.Fits(od.dec, a.frame.symbol) && D.Add(hash, od.dec, a.frame.symbol).solved.None?
    ensures Next(hash, st, a).outcome == Gathered && KeyOf(a) !in Next(hash, st, a).state.open
  {
    hide D.Add, D.Fits, D.WellFormed, DecoderFor, Expired;
  }

  // A full table of ties, and a frame that opens one decoder more.
  lemma FullOfTies(hash: Hash, st: State, a: Arrival, od: OpenDecoder)
    requires WellFormed(st) && |st.open| == MAX_OPEN_DECODERS && st.done == map[]
    requires (forall k :: k in st.open ==> st.open[k].touched == a.now) && KeyOf(a) !in st.open
    requires DecoderFor(st, a.from, a.frame, a.now) == Some(od) && D.Fits(od.dec, a.frame.symbol)
    requires D.WellFormed(od.dec) && od.dec.solved.None? && od.dec.rows == [] && od.dec.k == 2
    requires a.victim == Some(KeyOf(a))
    ensures Lawful(st, a)
    ensures Next(hash, st, a).outcome == Gathered && KeyOf(a) !in Next(hash, st, a).state.open
  {
    OneOfTwo(hash, od.dec, a.frame.symbol);
    assert Expired(st, a.now) == st;
    hide D.Add, D.Fits, D.WellFormed, WellFormed, DecoderFor, Evicts, Expired;
    GrowsByOne(st.open, KeyOf(a), od);
    NewestMayGoExactlyOnTies(st, a);
    assert a.(victim := Some(KeyOf(a))) == a;
    GathersInVain(hash, st, a, od);
  }

  /** And so it happens: with every decoder touched at one reading, the cap may take the newest, whose symbol
      then goes into a decoder nobody keeps. */
  lemma ATieLosesTheNewest(hash: Hash) returns (st: State, a: Arrival)
    ensures WellFormed(st) && |st.open| == MAX_OPEN_DECODERS && Lawful(st, a) && a.victim == Some(KeyOf(a))
    ensures Next(hash, st, a).outcome == Gathered && KeyOf(a) !in Next(hash, st, a).state.open
  {
    TiedIsFull(MAX_OPEN_DECODERS);
    st := State(Tied(MAX_OPEN_DECODERS), map[]);
    var key := Key(Zeros(8), MAX_OPEN_DECODERS);
    a := Arrival(Zeros(8), SymbolFrame(2, Symbol(MAX_OPEN_DECODERS, 0, 2, [0])), 0, Some(key));
    hide Tied, WellFormed, Lawful;
    FullOfTies(hash, st, a, OpenDecoder(D.NewState(Zeros(8), MAX_OPEN_DECODERS, 2, 1, 2).value, 0, 0));
  }

  // ---- the memory of what is done -------------------------------------------------------------------------

  // After a decode at time t, the key stays done until something arrives later than the memory lasts.
  lemma ArrivalRemembers(hash: Hash, st: State, a: Arrival, key: Key, t: int)
    requires WellFormed(st) && key in st.done && st.done[key] == t && a.now - t <= DECODER_TTL
    ensures var st' := Next(hash, st, a).state; key in st'.done && st'.done[key] == t
    ensures KeyOf(a) == key ==> Next(hash, st, a).outcome == Duplicate
  {
    hide D.Add, D.WellFormed, D.PayloadOf, D.Fits, Without;
  }

  lemma {:induction false} StillRemembered(hash: Hash, states: seq<State>, arrivals: seq<Arrival>, i: nat, j: nat)
    requires Run(hash, states, arrivals) && i < j < |states| && OutcomeAt(hash, states, arrivals, i).Decoded?
    requires arrivals[j - 1].now - arrivals[i].now <= DECODER_TTL
    ensures KeyOf(arrivals[i]) in states[j].done && states[j].done[KeyOf(arrivals[i])] == arrivals[i].now
  {
    hide Lawful, WellFormed;
    assert states[j - 1 + 1] == Next(hash, states[j - 1], arrivals[j - 1]).state;
    if i == j - 1 {
    } else {
      assert arrivals[j - 2].now <= arrivals[j - 1].now;
      StillRemembered(hash, states, arrivals, i, j - 1);
      ArrivalRemembers(hash, states[j - 1], arrivals[j - 1], KeyOf(arrivals[i]), arrivals[i].now);
    }
  }

  /** Within the memory's lifetime of a decode, every further symbol of its key is a duplicate. */
  lemma AfterADecodeOnlyDuplicates(hash: Hash, states: seq<State>, arrivals: seq<Arrival>, i: nat, j: nat)
    requires Run(hash, states, arrivals) && i < j < |arrivals| && KeyOf(arrivals[i]) == KeyOf(arrivals[j])
    requires OutcomeAt(hash, states, arrivals, i).Decoded? && arrivals[j].now - arrivals[i].now <= DECODER_TTL
    ensures OutcomeAt(hash, states, arrivals, j) == Duplicate
  {
    assert arrivals[j - 1].now <= arrivals[j].now;
    StillRemembered(hash, states, arrivals, i, j);
    ArrivalRemembers(hash, states[j], arrivals[j], KeyOf(arrivals[i]), arrivals[i].now);
  }

  /** Two decodes of one key are more than the memory's lifetime apart. */
  lemma DecodesAreFarApart(hash: Hash, states: seq<State>, arrivals: seq<Arrival>, i: nat, j: nat)
    requires Run(hash, states, arrivals) && i < j < |arrivals| && KeyOf(arrivals[i]) == KeyOf(arrivals[j])
    requires OutcomeAt(hash, states, arrivals, i).Decoded? && OutcomeAt(hash, states, arrivals, j).Decoded?
    ensures arrivals[j].now - arrivals[i].now > DECODER_TTL
  {
    if arrivals[j].now - arrivals[i].now <= DECODER_TTL {
      AfterADecodeOnlyDuplicates(hash, states, arrivals, i, j);
    }
  }

  /** Whatever damage its symbols took, nothing is delivered that does not hash to the bundle ID they carried. What does
      not is dropped with its decoder and not remembered, so that the bundle can be sent again: the next symbol finds
      an empty decoder. */
  lemma OnlyIntactBundlesAreDelivered(hash: Hash, st: State, a: Arrival)
    requires WellFormed(st)
    ensures var step := Next(hash, st, a);
            && (step.outcome.Decoded? ==>
                  && BundleID(hash, step.outcome.packed) == a.frame.symbol.bundleID
                  && KeyOf(a) in step.state.done && KeyOf(a) !in step.state.open)
            && (step.outcome.Corrupt? ==>
                  && KeyOf(a) !in step.state.done && KeyOf(a) !in step.state.open
                  && forall f: SymbolFrame, now :: f.symbol.bundleID == a.frame.symbol.bundleID ==>
                       var od := DecoderFor(step.state, a.from, f, now);
                       od.Some? ==> od.value.dec.rows == [] && od.value.dec.seen == {})
  {
    hide D.Add, D.WellFormed, D.PayloadOf, D.Fits, Without, BundleID;
  }

  // ---- genuine symbols -------------------------------------------------------------------------------------

  // A bundle as its sender codes it.
  ghost predicate Coded(hash: Hash, e: SourceBlock, payload: bytes) {
    IsEncoding(e, payload) && e.bundleID == BundleID(hash, payload) && e.origLen <= MAX_ORIG_LEN
  }

  function SenderKey(e: SourceBlock): Key {
    Key(e.sender, e.bundleID)
  }

  // Under the bundle's own key, the frame carries the bundle's own symbol.
  ghost predicate Genuine(hash: Hash, e: SourceBlock, a: Arrival)
    requires 1 <= e.k <= MAX_K && IsBlock(e.source, e.k, e.symSize)
  {
    KeyOf(a) == SenderKey(e) ==>
      a.frame.origLen == e.origLen && a.frame.symbol == SymbolOf(hash, e, a.frame.symbol.index)
  }

  /** A frame an outbox airs is read back as the symbol it carries. */
  lemma FrameParses(hash: Hash, e: SourceBlock, payload: bytes, index: uint16)
    requires Coded(hash, e, payload)
    ensures ParseFrame(FrameOf(hash, e, index)) == Some(SymbolFrame(e.origLen, SymbolOf(hash, e, index)))
  {
    hide Combine, Coefficients;
    SymbolParses(e.origLen, SymbolOf(hash, e, index));
  }

  lemma SymbolParses(origLen: uint32, s: Symbol)
    requires 1 <= origLen <= MAX_ORIG_LEN && 1 <= s.k <= MAX_K && 1 <= |s.data| <= MAX_SYMBOL_SIZE
    ensures ParseFrame([FRAME_SYMBOL] + BE32(origLen) + EncodeSymbol(s)) == Some(SymbolFrame(origLen, s))
  {
    hide BE32, FromBE32, DecodeSymbol;
    var frame := [FRAME_SYMBOL] + BE32(origLen) + EncodeSymbol(s);
    BE32RoundTrip(origLen, BE32(origLen));
    assert frame[1..5] == BE32(origLen) && frame[FRAME_OVERHEAD..] == EncodeSymbol(s);
    SymbolFormIsCanonical(EncodeSymbol(s), s);
  }

  // The open decoder of the bundle has heard exactly the indices in I.
  ghost predicate Hears(hash: Hash, e: SourceBlock, st: State, I: set<uint16>) {
    SenderKey(e) in st.open && D.Tracks(hash, st.open[SenderKey(e)].dec, e, I)
  }

  // The decoder the frame goes to tracks I: the one already open, or a fresh one that has heard nothing.
  lemma DecoderTracks(hash: Hash, e: SourceBlock, payload: bytes, st: State, a: Arrival, I: set<uint16>)
    requires WellFormed(st) && Coded(hash, e, payload) && Genuine(hash, e, a) && KeyOf(a) == SenderKey(e)
    requires if SenderKey(e) in st.open then Hears(hash, e, st, I) else I == {}
    ensures var od := DecoderFor(st, a.from, a.frame, a.now);
            od.Some? && D.Tracks(hash, od.value.dec, e, I) && D.Fits(od.value.dec, a.frame.symbol)
  {
    hide D.Tracks, IsEncoding, Coefficients;
    CodedShape(hash, e, payload);
    if SenderKey(e) in st.open {
      TracksFits(hash, st.open[SenderKey(e)].dec, e, I, a.frame.symbol.index);
    } else {
      FreshDecoderTracks(hash, e, payload);
    }
  }

  lemma CodedShape(hash: Hash, e: SourceBlock, payload: bytes)
    requires Coded(hash, e, payload)
    ensures 1 <= e.k <= MAX_K && IsBlock(e.source, e.k, e.symSize)
  {
  }

  lemma FreshDecoderTracks(hash: Hash, e: SourceBlock, payload: bytes)
    requires Coded(hash, e, payload)
    ensures var d := D.NewState(e.sender, e.bundleID, e.k, e.symSize, e.origLen);
            d.Some? && D.Tracks(hash, d.value, e, {})
  {
    hide D.Tracks;
    D.FreshTracks(hash, D.NewState(e.sender, e.bundleID, e.k, e.symSize, e.origLen).value, e);
  }

  lemma TracksFits(hash: Hash, d: D.State, e: SourceBlock, I: set<uint16>, index: uint16)
    requires D.Tracks(hash, d, e, I) && 1 <= e.k <= MAX_K
    ensures D.Fits(d, SymbolOf(hash, e, index))
  {
  }

  /** A genuine symbol is never rejected and never corrupt: it adds its index, and when the indices heard
      resolve the block the bundle decodes to exactly the payload sent. */
  lemma GenuineSymbolCounts(hash: Hash, e: SourceBlock, payload: bytes, st: State, a: Arrival, I: set<uint16>)
    requires WellFormed(st) && Coded(hash, e, payload) && Genuine(hash, e, a) && KeyOf(a) == SenderKey(e)
    requires SenderKey(e) !in st.done
    requires var live := Expired(st, a.now); if SenderKey(e) in live.open then Hears(hash, e, live, I) else I == {}
    ensures var step, I' := Next(hash, st, a), I + {a.frame.symbol.index};
            if D.Resolves(hash, e, I') then step.outcome == Decoded(payload)
            else step.outcome == Gathered && (SenderKey(e) in step.state.open ==> Hears(hash, e, step.state, I'))
                 && (a.victim != Some(SenderKey(e)) ==> SenderKey(e) in step.state.open)
  {
    hide D.Tracks, D.Add, D.WellFormed, D.Resolves;
    var live := Expired(st, a.now);
    DecoderTracks(hash, e, payload, live, a, I);
    var od := DecoderFor(live, a.from, a.frame, a.now).value;
    D.AddTracks(hash, od.dec, e, I, a.frame.symbol.index);
    TrackedPayload(hash, D.Add(hash, od.dec, a.frame.symbol), e, payload, I + {a.frame.symbol.index});
  }

  lemma TrackedPayload(hash: Hash, d: D.State, e: SourceBlock, payload: bytes, I: set<uint16>)
    requires IsEncoding(e, payload) && D.Tracks(hash, d, e, I)
    ensures D.WellFormed(d) && (d.solved.Some? <==> D.Resolves(hash, e, I))
    ensures d.solved.Some? ==> D.PayloadOf(d) == Ok(payload)
  {
    SplitRoundTrip(payload, e.symSize);
  }

  // Another key's symbol leaves the bundle's decoder alone, unless time or the cap removes it.
  lemma OtherSymbolsDoNotMix(hash: Hash, e: SourceBlock, st: State, a: Arrival)
    requires WellFormed(st) && KeyOf(a) != SenderKey(e)
    ensures var st' := Next(hash, st, a).state;
            SenderKey(e) in st'.open ==> SenderKey(e) in st.open && st'.open[SenderKey(e)] == st.open[SenderKey(e)]
  {
    hide D.Add, D.WellFormed, D.PayloadOf, D.Fits;
  }

  // ---- whole runs --------------------------------------------------------------------------------------------

  ghost predicate GenuineRun(hash: Hash, e: SourceBlock, arrivals: seq<Arrival>)
    requires 1 <= e.k <= MAX_K && IsBlock(e.source, e.k, e.symSize)
  {
    forall i :: 0 <= i < |arrivals| ==> Genuine(hash, e, arrivals[i])
  }

  lemma {:induction false} AlwaysTracks(hash: Hash, e: SourceBlock, payload: bytes, states: seq<State>,
                                        arrivals: seq<Arrival>, i: nat)
    returns (I: set<uint16>)
    requires Run(hash, states, arrivals) && Coded(hash, e, payload) && GenuineRun(hash, e, arrivals) && i < |states|
    requires SenderKey(e) !in states[0].open
    ensures if SenderKey(e) in states[i].open then Hears(hash, e, states[i], I) else I == {}
  {
    hide Lawful, Hears, WellFormed;
    I := {};
    if i > 0 {
      var st, a := states[i - 1], arrivals[i - 1];
      assert states[i - 1 + 1] == Next(hash, st, a).state && Genuine(hash, e, a);
      var J := AlwaysTracks(hash, e, payload, states, arrivals, i - 1);
      I := TracksOn(hash, e, payload, st, a, J);
    }
  }

  // One arrival, whatever it is, keeps the bundle's decoder a record of genuine symbols.
  lemma TracksOn(hash: Hash, e: SourceBlock, payload: bytes, st: State, a: Arrival, J: set<uint16>)
    returns (I: set<uint16>)
    requires WellFormed(st) && Coded(hash, e, payload) && Genuine(hash, e, a)
    requires if SenderKey(e) in st.open then Hears(hash, e, st, J) else J == {}
    ensures var st' := Next(hash, st, a).state; if SenderKey(e) in st'.open then Hears(hash, e, st', I) else I == {}
  {
    hide D.Tracks, D.WellFormed;
    var step := Next(hash, st, a);
    var key := SenderKey(e);
    if step.outcome.Decoded? {
      DecodedIsClosed(hash, st, a);
    }
    if key !in step.state.open {
      I := {};
    } else if KeyOf(a) != key {
      OtherSymbolsDoNotMix(hash, e, st, a);
      I := J;
    } else if key in st.done {
      I := J;
    } else {
      var L := if key in Expired(st, a.now).open then J else {};
      GenuineSymbolCounts(hash, e, payload, st, a, L);
      I := L + {a.frame.symbol.index};
    }
  }

  lemma DecodedIsClosed(hash: Hash, st: State, a: Arrival)
    requires WellFormed(st) && Next(hash, st, a).outcome.Decoded?
    ensures KeyOf(a) !in Next(hash, st, a).state.open
  {
    hide D.Add, D.WellFormed, D.PayloadOf, D.Fits, Without, BundleID;
  }

  /** Nothing else is ever delivered: whatever the order, the duplicates and the other traffic, and whatever
      expires or is evicted, a bundle's symbols only ever decode to exactly the bytes its sender packed. */
  lemma OnlyThePayloadIsDecoded(hash: Hash, e: SourceBlock, payload: bytes, states: seq<State>,
                                arrivals: seq<Arrival>, i: nat)
    requires Run(hash, states, arrivals) && Coded(hash, e, payload) && GenuineRun(hash, e, arrivals) && i < |arrivals|
    requires SenderKey(e) !in states[0].open && KeyOf(arrivals[i]) == SenderKey(e)
    ensures OutcomeAt(hash, states, arrivals, i) in {Duplicate, Gathered, Decoded(payload)}
  {
    var st, a := states[i], arrivals[i];
    var J := AlwaysTracks(hash, e, payload, states, arrivals, i);
    if SenderKey(e) !in st.done {
      var L := if SenderKey(e) in Expired(st, a.now).open then J else {};
      assert Genuine(hash, e, a);
      GenuineSymbolCounts(hash, e, payload, st, a, L);
    }
  }

  // The bundle's indices among the first n arrivals.
  ghost function Heard(e: SourceBlock, arrivals: seq<Arrival>, n: nat): set<uint16>
    requires n <= |arrivals|
  {
    set i | 0 <= i < n && KeyOf(arrivals[i]) == SenderKey(e) :: arrivals[i].frame.symbol.index
  }

  lemma HeardGrows(e: SourceBlock, arrivals: seq<Arrival>, n: nat)
    requires n < |arrivals|
    ensures Heard(e, arrivals, n + 1) ==
            if KeyOf(arrivals[n]) == SenderKey(e) then Heard(e, arrivals, n) + {arrivals[n].frame.symbol.index}
            else Heard(e, arrivals, n)
  {
    var more := Heard(e, arrivals, n + 1);
    forall i: nat | i < n && KeyOf(arrivals[i]) == SenderKey(e)
      ensures arrivals[i].frame.symbol.index in more
    {
    }
  }

  lemma HeardNothing(e: SourceBlock, arrivals: seq<Arrival>)
    ensures Heard(e, arrivals, 0) == {}
  {
  }

  lemma HearsOneMore(hash: Hash, e: SourceBlock, payload: bytes, st: State, a: Arrival, I: set<uint16>)
    requires WellFormed(st) && Coded(hash, e, payload) && Genuine(hash, e, a) && SenderKey(e) !in st.done
    requires if SenderKey(e) in st.open then Hears(hash, e, st, I) else I == {}
    requires a.victim != Some(SenderKey(e))
    requires SenderKey(e) in st.open && KeyOf(a) != SenderKey(e) ==> SenderKey(e) in Next(hash, st, a).state.open
    requires SenderKey(e) in st.open && KeyOf(a) == SenderKey(e) ==> SenderKey(e) in Expired(st, a.now).open
    requires KeyOf(a) == SenderKey(e) ==> !Next(hash, st, a).outcome.Decoded?
    ensures var st' := Next(hash, st, a).state;
            var I' := if KeyOf(a) == SenderKey(e) then I + {a.frame.symbol.index} else I;
            && SenderKey(e) !in st'.done
            && if SenderKey(e) in st'.open then Hears(hash, e, st', I') else I' == {}
  {
    hide D.Tracks, D.WellFormed;
    OthersStayUndone(hash, st, a, SenderKey(e));
    if KeyOf(a) == SenderKey(e) {
      GenuineSymbolCounts(hash, e, payload, st, a, I);
    } else {
      OtherSymbolsDoNotMix(hash, e, st, a);
    }
  }

  lemma OthersStayUndone(hash: Hash, st: State, a: Arrival, key: Key)
    requires WellFormed(st) && key !in st.done && !(KeyOf(a) == key && Next(hash, st, a).outcome.Decoded?)
    ensures key !in Next(hash, st, a).state.done
  {
    hide D.Add, D.WellFormed, D.PayloadOf, D.Fits, Without, BundleID;
  }
}
