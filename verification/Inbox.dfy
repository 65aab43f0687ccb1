/** The receiving half of the transport seam: symbols are gathered per (sender, bundle) until a bundle
    decodes, with expiry, a cap on open decoders and a memory of what is done. */
module Inbox {
  import opened Bytes
  import opened Fountain
  import opened Encoder
  import opened Outbox
  import D = Decoder

  const MAX_ORIG_LEN := 0x10_0000
  const MAX_OPEN_DECODERS := 64
  const DECODER_TTL := 6 * 3600 * 1_000_000_000

  datatype Key = Key(from: NodeID, bundleID: uint32)

  datatype OpenDecoder = OpenDecoder(dec: D.State, started: int, touched: int)

  // What one symbol frame carries once its header is accepted.
  datatype SymbolFrame = SymbolFrame(origLen: nat, symbol: Symbol)

  datatype State = State(open: map<Key, OpenDecoder>, done: map<Key, int>)

  datatype Outcome = Duplicate | Rejected | Gathered | Corrupt | Decoded(packed: bytes)

  function ParseFrame(data: bytes): (f: Option<SymbolFrame>)
    ensures f.Some? ==> 1 <= f.value.origLen <= MAX_ORIG_LEN && 1 <= f.value.symbol.k <= MAX_K
                        && 1 <= |f.value.symbol.data| <= MAX_SYMBOL_SIZE
  {
    if |data| < FRAME_OVERHEAD + HEADER_SIZE then None
    else
      var origLen := FromBE32(data[1..5]);
      if origLen == 0 || origLen > MAX_ORIG_LEN then None
      else
        match DecodeSymbol(data[FRAME_OVERHEAD..])
        case Err(_) => None
        case Ok(s) => Some(SymbolFrame(origLen, s))
  }

  /** A datagram is read as a symbol exactly when it is that symbol's one frame, within the limits; its first byte, by
      which it was told apart from other frames, is not looked at again. */
  lemma FrameFormIsCanonical(data: bytes, f: SymbolFrame)
    requires data != []
    ensures ParseFrame(data) == Some(f) <==>
            && 1 <= f.origLen <= MAX_ORIG_LEN && 1 <= f.symbol.k <= MAX_K && 1 <= |f.symbol.data| <= MAX_SYMBOL_SIZE
            && data[1..] == BE32(f.origLen) + EncodeSymbol(f.symbol)
  {
    if 1 <= f.origLen <= MAX_ORIG_LEN && data[1..] == BE32(f.origLen) + EncodeSymbol(f.symbol) {
      assert data[1..5] == data[1..][..4] == BE32(f.origLen);
      assert data[5..] == data[1..][4..] == EncodeSymbol(f.symbol);
      BE32RoundTrip(f.origLen, BE32(f.origLen));
      SymbolFormIsCanonical(data[5..], f.symbol);
    }
    if ParseFrame(data) == Some(f) {
      BE32RoundTrip(0, data[1..5]);
      SymbolFormIsCanonical(data[5..], f.symbol);
      assert data[1..] == data[1..5] + data[5..];
    }
  }

  // ---- one symbol, as a function of the state and of which decoder the cap evicts --------------------

  function Expired(st: State, now: int): (st': State)
    ensures WellFormed(st) ==> WellFormed(st')
  {
    State(Fresh(st.open, now), Recent(st.done, now))
  }

  function Fresh(open: map<Key, OpenDecoder>, now: int): map<Key, OpenDecoder> {
    map k | k in open && now - open[k].touched <= DECODER_TTL :: open[k]
  }

  function Recent(done: map<Key, int>, now: int): map<Key, int> {
    map k | k in done && now - done[k] <= DECODER_TTL :: done[k]
  }

  // The decoder a frame goes to, opened if there is none yet; None when the header is impossible.
  function DecoderFor(st: State, from: NodeID, f: SymbolFrame, now: int): (od: Option<OpenDecoder>)
    ensures WellFormed(st) && od.Some? ==> D.WellFormed(od.value.dec) && od.value.dec.solved.None?
  {
    var key := Key(from, f.symbol.bundleID);
    if key in st.open then Some(st.open[key].(touched := now))
    else
      match D.NewState(from, f.symbol.bundleID, f.symbol.k, |f.symbol.data|, f.origLen)
      case None => None
      case Some(dec) => Some(OpenDecoder(dec, now, now))
  }

  // The least recently touched decoder, any one of them on ties.
  ghost predicate IsStalest(open: map<Key, OpenDecoder>, victim: Key) {
    victim in open && forall k :: k in open ==> open[victim].touched <= open[k].touched
  }

  ghost predicate Evicts(open: map<Key, OpenDecoder>, victim: Option<Key>) {
    if |open| > MAX_OPEN_DECODERS then victim.Some? && IsStalest(open, victim.value) else victim.None?
  }

  function Without(open: map<Key, OpenDecoder>, victim: Option<Key>): (rest: map<Key, OpenDecoder>)
    ensures forall k :: k in rest ==> k in open && rest[k] == open[k]
  {
    if victim.Some? then open - {victim.value} else open
  }

  datatype Step = Step(state: State, outcome: Outcome)

  ghost predicate WellFormed(st: State) {
    forall k :: k in st.open ==> D.WellFormed(st.open[k].dec) && st.open[k].dec.solved.None?
  }

  // The open decoders once the frame's own decoder has been touched, before the cap is enforced.
  function Crowded(st: State, from: NodeID, f: SymbolFrame, now: int): map<Key, OpenDecoder> {
    var od := DecoderFor(Expired(st, now), from, f, now);
    if od.None? then Expired(st, now).open else Expired(st, now).open[Key(from, f.symbol.bundleID) := od.value]
  }

  function Receive(hash: Hash, st: State, from: NodeID, f: SymbolFrame, now: int, victim: Option<Key>): (s: Step)
    requires WellFormed(st)
    ensures WellFormed(s.state)
  {
    var key := Key(from, f.symbol.bundleID);
    if key in st.done then Step(st, Duplicate)
    else
      var live := Expired(st, now);
      match DecoderFor(live, from, f, now)
      case None => Step(live, Rejected)
      case Some(od) =>
        Fed(hash, State(Without(live.open[key := od], victim), live.done), key, od, f.symbol, now)
  }

  // The symbol goes into its decoder, which is still in hand even when the cap has just taken it out.
  function Fed(hash: Hash, st: State, key: Key, od: OpenDecoder, s: Symbol, now: int): (step: Step)
    requires WellFormed(st) && D.WellFormed(od.dec)
    ensures WellFormed(step.state)
  {
    if !D.Fits(od.dec, s) then Step(st, Rejected)
    else
      var dec := D.Add(hash, od.dec, s);
      if dec.solved.None? then
        Step(st.(open := if key in st.open then st.open[key := od.(dec := dec)] else st.open), Gathered)
      else
        var packed := D.PayloadOf(dec).value;
        if BundleID(hash, packed) != key.bundleID then Step(st.(open := st.open - {key}), Corrupt)
        else Step(State(st.open - {key}, st.done[key := now]), Decoded(packed))
  }

  datatype Counts = Counts(symbols: nat, decoded: nat, rejected: nat, corrupt: nat, duplicates: nat, evicted: nat)

  // What one datagram adds to the counters, apart from the decoders it expires or evicts.
  function Counted(c: Counts, outcome: Outcome): Counts {
    match outcome
    case Duplicate => c.(duplicates := c.duplicates + 1)
    case Rejected => c.(rejected := c.rejected + 1)
    case Gathered => c.(symbols := c.symbols + 1)
    case Corrupt => c.(symbols := c.symbols + 1, corrupt := c.corrupt + 1)
    case Decoded(_) => c.(symbols := c.symbols + 1, decoded := c.decoded + 1)
  }

  // How many datagrams these counters have seen.
  function Seen(c: Counts): nat {
    c.symbols + c.rejected + c.duplicates
  }

  /** Every datagram is counted once, as a symbol, as rejected or as a duplicate, and only a symbol can decode or turn
      out corrupt. */
  lemma EachIsCountedOnce(c: Counts, outcome: Outcome)
    ensures Seen(Counted(c, outcome)) == Seen(c) + 1
    ensures c.decoded + c.corrupt <= c.symbols ==>
              Counted(c, outcome).decoded + Counted(c, outcome).corrupt <= Counted(c, outcome).symbols
    ensures Counted(c, outcome).decoded == c.decoded + 1 <==> outcome.Decoded?
    ensures Counted(c, outcome).corrupt == c.corrupt + 1 <==> outcome.Corrupt?
    ensures Counted(c, outcome).duplicates == c.duplicates + 1 <==> outcome.Duplicate?
    ensures Counted(c, outcome).rejected == c.rejected + 1 <==> outcome.Rejected?
  {
  }

  // How many decoders go before the symbol is looked at: those expired, and the one the cap takes.
  function Dropped(st: State, now: int, victim: Option<Key>): int {
    |st.open| - |Expired(st, now).open| + if victim.Some? then 1 else 0
  }

  // ---- the object -----------------------------------------------------------------------------------------

  class Inbox {
    const hash: Hash
    var decoders: map<Key, OpenDecoder>
    var done: map<Key, int>
    var symbols: nat
    var decoded: nat
    var rejected: nat
    var corrupt: nat
    var duplicates: nat
    var evicted: nat

    ghost function Value(): State
      reads this
    {
      State(decoders, done)
    }

    ghost function Counters(): Counts
      reads this
    {
      Counts(symbols, decoded, rejected, corrupt, duplicates, evicted)
    }

    ghost predicate Valid()
      reads this
    {
      WellFormed(Value()) && |decoders| <= MAX_OPEN_DECODERS
    }

    constructor (hash: Hash)
      ensures Valid() && Value() == State(map[], map[]) && Counters() == Counts(0, 0, 0, 0, 0, 0) && this.hash == hash
    {
      this.hash := hash;
      decoders, done := map[], map[];
      symbols, decoded, rejected, corrupt, duplicates, evicted := 0, 0, 0, 0, 0, 0;
    }

    method Symbol(from: NodeID, data: bytes, now: int) returns (outcome: Outcome, ghost victim: Option<Key>)
      requires Valid()
      modifies this
      ensures Valid()
      ensures ParseFrame(data).None? ==> outcome == Rejected && Value() == old(Value())
      ensures ParseFrame(data).Some? ==>
                var f := ParseFrame(data).value;
                && Step(Value(), outcome) == Receive(hash, old(Value()), from, f, now, victim)
                && (Key(from, f.symbol.bundleID) !in old(done)
                    && DecoderFor(Expired(old(Value()), now), from, f, now).Some? ==>
                      Evicts(Crowded(old(Value()), from, f, now), victim))
      ensures var looked := ParseFrame(data).Some? && Key(from, ParseFrame(data).value.symbol.bundleID) !in old(done);
              && 0 <= (if looked then Dropped(old(Value()), now, victim) else 0)
              && Counters() == Counted(old(Counters()), outcome).(
                   evicted := old(evicted) + if looked then Dropped(old(Value()), now, victim) else 0)
    {
      hide ParseFrame, DecoderFor, Expired, Fed, Evicts, Without, WellFormed;
      victim := None;
      var frame := ParseFrame(data);
      if frame.None? {
        rejected := rejected + 1;
        outcome := Rejected;
        return;
      }
      var f := frame.value;
      if Key(from, f.symbol.bundleID) in done {
        duplicates := duplicates + 1;
        outcome := Duplicate;
        return;
      }
      Expire(now);
      outcome, victim := Gather(from, f, now);
    }

    // The frame's decoder is opened or touched, the cap enforced, and then the symbol goes in.
    method Gather(from: NodeID, f: SymbolFrame, now: int) returns (outcome: Outcome, ghost victim: Option<Key>)
      requires Valid()
      modifies this
      ensures Valid()
      ensures var key, found := Key(from, f.symbol.bundleID), DecoderFor(old(Value()), from, f, now);
              if found.None? then Step(Value(), outcome) == Step(old(Value()), Rejected) && victim.None?
              else
                var open := old(decoders)[key := found.value];
                && Evicts(open, victim)
                && Step(Value(), outcome) == Fed(hash, State(Without(open, victim), old(done)), key, found.value,
                  f.symbol, now)
      ensures Counters() == Counted(old(Counters()), outcome).(evicted := old(evicted) + if victim.Some? then 1 else 0)
    {
      hide DecoderFor, Fed, Evicts, Without, D.WellFormed;
      victim := None;
      var key := Key(from, f.symbol.bundleID);
      var od := DecoderFor(State(decoders, done), from, f, now);
      if od.None? {
        rejected := rejected + 1;
        outcome := Rejected;
        return;
      }
      GrowsByOne(decoders, key, od.value);
      decoders := decoders[key := od.value];
      victim := EvictToCap();
      outcome := Feed(key, od.value, f.symbol, now);
    }

    method Feed(key: Key, od: OpenDecoder, s: Symbol, now: int) returns (outcome: Outcome)
      requires Valid() && D.WellFormed(od.dec)
      modifies this`decoders, this`done, this`symbols, this`decoded, this`rejected, this`corrupt
      ensures Valid() && Step(Value(), outcome) == Fed(hash, old(Value()), key, od, s, now)
      ensures Counters() == Counted(old(Counters()), outcome)
    {
      hide D.Add, D.WellFormed, D.PayloadOf, BundleID, D.Fits, WellFormed;
      if !D.Fits(od.dec, s) {
        rejected := rejected + 1;
        return Rejected;
      }
      var dec := D.Add(hash, od.dec, s);
      symbols := symbols + 1;
      if dec.solved.None? {
        if key in decoders {
          GrowsByOne(decoders, key, od.(dec := dec));
          decoders := decoders[key := od.(dec := dec)];
        }
        assert Value() == Fed(hash, old(Value()), key, od, s, now).state;
        return Gathered;
      }
      outcome := Finish(key, D.PayloadOf(dec).value, now);
    }

    // A solved block leaves its decoder; only bytes that hash to the bundle ID count as decoded.
    method Finish(key: Key, packed: bytes, now: int) returns (outcome: Outcome)
      requires Valid()
      modifies this`decoders, this`done, this`decoded, this`corrupt
      ensures Valid() && decoders == old(decoders) - {key}
      ensures if BundleID(hash, packed) == key.bundleID
              then outcome == Decoded(packed) && done == old(done)[key := now] && decoded == old(decoded) + 1
                && corrupt == old(corrupt)
              else outcome == Corrupt && done == old(done) && decoded == old(decoded) && corrupt == old(corrupt) + 1
    {
      hide BundleID, D.WellFormed;
      SmallerMap(decoders - {key}, decoders);
      decoders := decoders - {key};
      if BundleID(hash, packed) != key.bundleID {
        corrupt := corrupt + 1;
        return Corrupt;
      }
      done := done[key := now];
      decoded := decoded + 1;
      return Decoded(packed);
    }

    method Expire(now: int)
      modifies this`decoders, this`done, this`evicted
      ensures Value() == Expired(old(Value()), now)
      ensures evicted == old(evicted) + |old(decoders)| - |decoders|
      ensures |decoders| <= |old(decoders)|
    {
      DropStale(now);
      ForgetDone(now);
    }

    method DropStale(now: int)
      modifies this`decoders, this`evicted
      ensures decoders == Fresh(old(decoders), now)
      ensures evicted == old(evicted) + |old(decoders)| - |decoders| && |decoders| <= |old(decoders)|
    {
      var todo := decoders.Keys;
      while todo != {}
        invariant todo <= decoders.Keys
        invariant evicted + |decoders| == old(evicted) + |old(decoders)| && |decoders| <= |old(decoders)|
        invariant forall k :: k in decoders <==>
                    k in old(decoders) && (k in todo || now - old(decoders)[k].touched <= DECODER_TTL)
        invariant forall k :: k in decoders ==> decoders[k] == old(decoders)[k]
        decreases todo
      {
        var k :| k in todo;
        todo := todo - {k};
        if now - decoders[k].touched > DECODER_TTL {
          ShrinksByOne(decoders, k);
          decoders := decoders - {k};
          evicted := evicted + 1;
        }
      }
    }

    method ForgetDone(now: int)
      modifies this`done
      ensures done == Recent(old(done), now)
    {
      var todo := done.Keys;
      while todo != {}
        invariant todo <= done.Keys
        invariant forall k :: k in done <==> k in old(done) && (k in todo || now - old(done)[k] <= DECODER_TTL)
        invariant forall k :: k in done ==> done[k] == old(done)[k]
        decreases todo
      {
        var k :| k in todo;
        todo := todo - {k};
        if now - done[k] > DECODER_TTL {
          done := done - {k};
        }
      }
    }

    // Drops the stalest decoder while there are too many.
    method EvictToCap() returns (ghost victim: Option<Key>)
      requires |decoders| <= MAX_OPEN_DECODERS + 1
      modifies this`decoders, this`evicted
      ensures Evicts(old(decoders), victim) && decoders == Without(old(decoders), victim)
      ensures |decoders| <= MAX_OPEN_DECODERS
      ensures evicted == old(evicted) + if victim.Some? then 1 else 0
    {
      victim := None;
      while |decoders| > MAX_OPEN_DECODERS
        invariant evicted == old(evicted) + if victim.Some? then 1 else 0
        invariant if victim.None? then decoders == old(decoders) && |decoders| <= MAX_OPEN_DECODERS + 1
                  else && |decoders| <= MAX_OPEN_DECODERS && Evicts(old(decoders), victim)
                       && decoders == Without(old(decoders), victim)
        decreases |decoders|
      {
        var oldest := Stalest(decoders);
        victim := Some(oldest);
        ShrinksByOne(decoders, oldest);
        decoders := decoders - {oldest};
        evicted := evicted + 1;
      }
    }
  }

  lemma {:induction false} SmallerSet(a: set<Key>, b: set<Key>)
    requires a <= b
    ensures |a| <= |b|
    decreases a
  {
    if a != {} {
      var k :| k in a;
      SmallerSet(a - {k}, b - {k});
    }
  }

  lemma SmallerMap(a: map<Key, OpenDecoder>, b: map<Key, OpenDecoder>)
    requires a.Keys <= b.Keys
    ensures |a| <= |b|
  {
    assert |a| == |a.Keys| && |b| == |b.Keys|;
    SmallerSet(a.Keys, b.Keys);
  }

  lemma GrowsByOne(a: map<Key, OpenDecoder>, k: Key, od: OpenDecoder)
    ensures |a[k := od]| == if k in a then |a| else |a| + 1
  {
    assert |a| == |a.Keys| && |a[k := od]| == |a[k := od].Keys|;
    assert a[k := od].Keys == a.Keys + {k};
  }

  lemma ShrinksByOne(a: map<Key, OpenDecoder>, k: Key)
    requires k in a
    ensures |a - {k}| == |a| - 1
  {
    assert (a - {k}).Keys == a.Keys - {k};
  }

  // A strict comparison over an arbitrary iteration order.
  method Stalest(open: map<Key, OpenDecoder>) returns (oldest: Key)
    requires |open| > 0
    ensures IsStalest(open, oldest)
  {
    assert open.Keys != {};
    oldest :| oldest in open;
    var todo := open.Keys - {oldest};
    while todo != {}
      invariant todo <= open.Keys && oldest in open
      invariant forall k :: k in open && k !in todo ==> open[oldest].touched <= open[k].touched
      decreases todo
    {
      var k :| k in todo;
      todo := todo - {k};
      if open[k].touched < open[oldest].touched {
        oldest := k;
      }
    }
  }
}
