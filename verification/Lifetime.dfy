/** How long an open decoder lives, from the arrivals alone. */
module Lifetime {
  import opened Bytes
  import opened Fountain
  import opened Encoder
  import opened Outbox
  import opened Inbox
  import opened Delivery
  import D = Decoder

  // ---- one arrival -----------------------------------------------------------------------------------------------

  // The arrival looks at the open decoders at all.
  predicate Looks(st: State, a: Arrival) {
    KeyOf(a) !in st.done
  }

  /** An arrival under another key leaves an open decoder as it is exactly when it was touched no longer ago than its
      lifetime and the cap does not take it; a duplicate always does. */
  lemma OthersLeaveItExactlyWhen(hash: Hash, st: State, a: Arrival, key: Key)
    requires WellFormed(st) && Lawful(st, a) && key in st.open && KeyOf(a) != key
    ensures var open := Next(hash, st, a).state.open;
            && (key in open <==> Looks(st, a) ==> a.now - st.open[key].touched <= DECODER_TTL && a.victim != Some(key))
            && (key in open ==> open[key] == st.open[key])
  {
    hide D.Add, D.WellFormed, D.PayloadOf, D.Fits, BundleID, DecoderFor, Evicts;
    NoVictimUnopened(st, a, key);
  }

  // Without a decoder for the frame nobody is evicted.
  lemma NoVictimUnopened(st: State, a: Arrival, key: Key)
    requires Lawful(st, a)
    ensures KeyOf(a) in st.done || DecoderFor(Expired(st, a.now), a.from, a.frame, a.now).None? ==> a.victim.None?
  {
    hide DecoderFor, Expired;
  }

  /** What is done is remembered for its lifetime and no longer, except that only an arrival under a key not remembered
      forgets anything: a duplicate changes nothing, however old the memory is by then. */
  lemma RemembersExactly(hash: Hash, st: State, a: Arrival, key: Key)
    requires WellFormed(st)
    ensures var step := Next(hash, st, a);
            if !Looks(st, a) then step.state == st && step.outcome == Duplicate
            else
              key in step.state.done <==>
                (key in st.done && a.now - st.done[key] <= DECODER_TTL) || (key == KeyOf(a) && step.outcome.Decoded?)
  {
    hide D.Add, D.WellFormed, D.PayloadOf, D.Fits, BundleID, Without;
  }

  // When key was last heard of before arrival i: at its last symbol, or when its decoder was last touched at the start.
  function LastTouch(open: map<Key, OpenDecoder>, arrivals: seq<Arrival>, i: nat, key: Key): Option<int>
    requires i <= |arrivals|
  {
    if i == 0 then if key in open then Some(open[key].touched) else None
    else if KeyOf(arrivals[i - 1]) == key then Some(arrivals[i - 1].now)
    else LastTouch(open, arrivals, i - 1, key)
  }

  // An open decoder was not touched after its key was last heard of, nor after the next reading.
  ghost predicate TouchedBefore(open: map<Key, OpenDecoder>, arrivals: seq<Arrival>, st: State, i: nat, key: Key)
    requires i <= |arrivals|
  {
    key in st.open ==>
      var t := LastTouch(open, arrivals, i, key);
      && t.Some? && st.open[key].touched <= t.value
      && (i < |arrivals| ==> st.open[key].touched <= arrivals[i].now)
  }

  lemma StillTouchedBefore(hash: Hash, open: map<Key, OpenDecoder>, arrivals: seq<Arrival>, st: State, i: nat, key: Key)
    requires WellFormed(st) && i < |arrivals| && TouchedBefore(open, arrivals, st, i, key)
    requires i + 1 < |arrivals| ==> arrivals[i].now <= arrivals[i + 1].now
    ensures TouchedBefore(open, arrivals, Next(hash, st, arrivals[i]).state, i + 1, key)
  {
    hide WellFormed, Next;
    if key in Next(hash, st, arrivals[i]).state.open {
      TouchedAfter(hash, st, arrivals[i], key);
    }
  }

  lemma TouchedAtFirst(arrivals: seq<Arrival>, st: State, key: Key)
    requires forall k :: k in st.open && 0 < |arrivals| ==> st.open[k].touched <= arrivals[0].now
    ensures TouchedBefore(st.open, arrivals, st, 0, key)
  {
  }

  lemma TouchedOneMore(hash: Hash, states: seq<State>, arrivals: seq<Arrival>, i: nat, key: Key)
    requires Run(hash, states, arrivals) && i < |arrivals| && TouchedBefore(states[0].open, arrivals, states[i], i, key)
    ensures TouchedBefore(states[0].open, arrivals, states[i + 1], i + 1, key)
  {
    RunStep(hash, states, arrivals, i);
    hide Run, Lawful, WellFormed, Next, TouchedBefore;
    StillTouchedBefore(hash, states[0].open, arrivals, states[i], i, key);
  }

  lemma {:induction false} TouchedByThen(hash: Hash, states: seq<State>, arrivals: seq<Arrival>, i: nat, key: Key)
    requires |states| == |arrivals| + 1 && Run(hash, states, arrivals) && i < |states|
    requires forall k :: k in states[0].open && 0 < |arrivals| ==> states[0].open[k].touched <= arrivals[0].now
    ensures TouchedBefore(states[0].open, arrivals, states[i], i, key)
  {
    hide *;
    if i == 0 {
      TouchedAtFirst(arrivals, states[0], key);
    } else {
      TouchedByThen(hash, states, arrivals, i - 1, key);
      TouchedOneMore(hash, states, arrivals, i - 1, key);
    }
  }

  lemma RunStep(hash: Hash, states: seq<State>, arrivals: seq<Arrival>, i: nat)
    requires Run(hash, states, arrivals) && i < |arrivals|
    ensures |states| == |arrivals| + 1 && WellFormed(states[i]) && Lawful(states[i], arrivals[i])
    ensures states[i + 1] == Next(hash, states[i], arrivals[i]).state
    ensures i + 1 < |arrivals| ==> arrivals[i].now <= arrivals[i + 1].now
  {
    hide Lawful, WellFormed, Next;
  }

  lemma TouchedAfter(hash: Hash, st: State, a: Arrival, key: Key)
    requires WellFormed(st) && key in Next(hash, st, a).state.open
    ensures var after := Next(hash, st, a).state.open[key];
            if key in st.open && after.touched == st.open[key].touched then true
            else KeyOf(a) == key && after.touched == a.now
  {
    hide D.Add, D.WellFormed, D.PayloadOf, D.Fits, BundleID;
  }

  // ---- the cap ----------------------------------------------------------------------------------------------------

  // The other keys heard of at t or later, up to arrival i: only they can outlast a decoder touched at t.
  ghost function Rivals(open: map<Key, OpenDecoder>, arrivals: seq<Arrival>, i: nat, key: Key, t: int): set<Key>
    requires i <= |arrivals|
  {
    (set k | k in open.Keys && k != key && open[k].touched >= t) +
    (set j | 0 <= j < i && arrivals[j].now >= t && KeyOf(arrivals[j]) != key :: KeyOf(arrivals[j]))
  }

  lemma {:induction false} LastTouchIsARival(open: map<Key, OpenDecoder>, arrivals: seq<Arrival>, i: nat, key: Key,
                                             other: Key, t: int)
    requires i <= |arrivals| && other != key
    requires LastTouch(open, arrivals, i, other).Some? && LastTouch(open, arrivals, i, other).value >= t
    ensures other in Rivals(open, arrivals, i, key, t)
  {
    if i > 0 && KeyOf(arrivals[i - 1]) != other {
      LastTouchIsARival(open, arrivals, i - 1, key, other, t);
    }
  }

  // A stalest decoder is among the rivals of none with fewer of them than the cap leaves room for.
  lemma SparedByTheCap(open: map<Key, OpenDecoder>, key: Key, rivals: set<Key>, victim: Option<Key>)
    requires Evicts(open, victim) && key in open && |rivals| < MAX_OPEN_DECODERS
    requires forall k :: k in open && k != key && open[k].touched >= open[key].touched ==> k in rivals
    ensures victim != Some(key)
  {
    if victim == Some(key) {
      assert |open| == |open.Keys| == |open.Keys - {key}| + 1;
      SmallerSet(open.Keys - {key}, rivals);
    }
  }

  // ---- whole runs ----------------------------------------------------------------------------------------

  // Up to arrival n, no two symbols of the key in a row are further apart than a decoder's lifetime.
  ghost predicate Timely(open: map<Key, OpenDecoder>, arrivals: seq<Arrival>, n: nat, key: Key) {
    forall i: nat :: i <= n && i < |arrivals| && KeyOf(arrivals[i]) == key ==> InTime(open, arrivals, i, key)
  }

  ghost predicate InTime(open: map<Key, OpenDecoder>, arrivals: seq<Arrival>, i: nat, key: Key)
    requires i < |arrivals|
  {
    var t := LastTouch(open, arrivals, i, key);
    t.Some? ==> arrivals[i].now - t.value <= DECODER_TTL
  }

  // And at none of them have as many other keys been heard of since the last of its symbols as may be open.
  ghost predicate Uncrowded(open: map<Key, OpenDecoder>, arrivals: seq<Arrival>, n: nat, key: Key) {
    forall i: nat :: i <= n && i < |arrivals| ==> RoomAt(open, arrivals, i, key)
  }

  ghost predicate RoomAt(open: map<Key, OpenDecoder>, arrivals: seq<Arrival>, i: nat, key: Key)
    requires i < |arrivals|
  {
    var t := LastTouch(open, arrivals, i + 1, key);
    t.Some? ==> |Rivals(open, arrivals, i + 1, key, t.value)| < MAX_OPEN_DECODERS
  }

  // What a run needs for the bundle's decoder to live until arrival n, all of it about what arrives.
  ghost predicate Steady(e: SourceBlock, states: seq<State>, arrivals: seq<Arrival>, n: nat) {
    && n < |arrivals| && |states| == |arrivals| + 1 && KeyOf(arrivals[n]) == SenderKey(e)
    && SenderKey(e) !in states[0].open && SenderKey(e) !in states[0].done
    && (forall k :: k in states[0].open ==> states[0].open[k].touched <= arrivals[0].now)
    && Timely(states[0].open, arrivals, n, SenderKey(e)) && Uncrowded(states[0].open, arrivals, n, SenderKey(e))
  }

  /** A bundle heard alone, each symbol within a decoder's lifetime of the one before, is steady. */
  lemma AloneIsSteady(e: SourceBlock, states: seq<State>, arrivals: seq<Arrival>, n: nat)
    requires n < |arrivals| && |states| == |arrivals| + 1 && states[0] == State(map[], map[])
    requires forall i :: 0 <= i < |arrivals| ==> KeyOf(arrivals[i]) == SenderKey(e)
    requires forall i :: 0 < i < |arrivals| ==> arrivals[i].now - arrivals[i - 1].now <= DECODER_TTL
    ensures Steady(e, states, arrivals, n)
  {
    var key := SenderKey(e);
    forall i: nat | i < |arrivals|
      ensures InTime(map[], arrivals, i, key) && RoomAt(map[], arrivals, i, key)
    {
      if i > 0 {
        assert KeyOf(arrivals[i - 1]) == key;
      }
      assert Rivals(map[], arrivals, i + 1, key, arrivals[i].now) == {};
    }
  }

  // Between two symbols in time, no other arrival comes later than the lifetime.
  lemma {:induction false} NeverTooOld(hash: Hash, states: seq<State>, arrivals: seq<Arrival>, i: nat, n: nat, key: Key)
    requires Run(hash, states, arrivals) && i <= n < |arrivals| && KeyOf(arrivals[n]) == key
    requires Timely(states[0].open, arrivals, n, key)
    ensures InTime(states[0].open, arrivals, i, key)
    decreases n - i
  {
    if KeyOf(arrivals[i]) != key {
      assert arrivals[i].now <= arrivals[i + 1].now;
      hide Run, Timely;
      NeverTooOld(hash, states, arrivals, i + 1, n, key);
    }
  }

  // Who is open beside the key when the cap is enforced, and touched no earlier, is a rival.
  lemma CrowdIsRivals(hash: Hash, states: seq<State>, arrivals: seq<Arrival>, i: nat, key: Key, t: int, k: Key)
    requires Run(hash, states, arrivals) && i < |arrivals| && k != key
    requires forall k :: k in states[0].open ==> states[0].open[k].touched <= arrivals[0].now
    requires var open := Crowded(states[i], arrivals[i].from, arrivals[i].frame, arrivals[i].now);
             k in open && open[k].touched >= t
    ensures k in Rivals(states[0].open, arrivals, i + 1, key, t)
  {
    if KeyOf(arrivals[i]) != k {
      TouchedByThen(hash, states, arrivals, i, k);
    } else {
      CrowdTouch(states[i], arrivals[i]);
    }
    hide Run, Crowded, Rivals;
    LastTouchIsARival(states[0].open, arrivals, i + 1, key, k, t);
  }

  lemma CrowdTouch(st: State, a: Arrival)
    requires KeyOf(a) in Crowded(st, a.from, a.frame, a.now)
    ensures var od := Crowded(st, a.from, a.frame, a.now)[KeyOf(a)];
            od.touched == a.now || (KeyOf(a) in st.open && od == st.open[KeyOf(a)])
  {
  }

  // Where the key stands at arrival i: open since it was last heard of, if it was.
  ghost predicate Standing(open: map<Key, OpenDecoder>, arrivals: seq<Arrival>, st: State, i: nat, key: Key)
    requires i <= |arrivals|
  {
    var t := LastTouch(open, arrivals, i, key);
    (key in st.open <==> t.Some?) && (key in st.open ==> st.open[key].touched == t.value)
  }

  lemma NotTheVictim(hash: Hash, states: seq<State>, arrivals: seq<Arrival>, i: nat, key: Key)
    requires Run(hash, states, arrivals) && i < |arrivals| && key !in states[i].done
    requires forall k :: k in states[0].open ==> states[0].open[k].touched <= arrivals[0].now
    requires Standing(states[0].open, arrivals, states[i], i, key) && RoomAt(states[0].open, arrivals, i, key)
    ensures arrivals[i].victim != Some(key)
  {
    var st, a := states[i], arrivals[i];
    assert Lawful(st, a);
    if a.victim == Some(key) {
      VictimIsOpen(st, a, key);
      var open := Crowded(st, a.from, a.frame, a.now);
      var t := LastTouch(states[0].open, arrivals, i + 1, key);
      CrowdedTouch(st, a, key);
      assert t == Some(open[key].touched);
      hide Lawful, WellFormed, Crowded, Rivals, Standing, LastTouch, Evicts;
      forall k | k in open && k != key && open[k].touched >= open[key].touched
        ensures k in Rivals(states[0].open, arrivals, i + 1, key, t.value)
      {
        CrowdIsRivals(hash, states, arrivals, i, key, t.value, k);
      }
      SparedByTheCap(open, key, Rivals(states[0].open, arrivals, i + 1, key, t.value), a.victim);
    }
  }

  lemma VictimIsOpen(st: State, a: Arrival, key: Key)
    requires Lawful(st, a) && a.victim == Some(key)
    ensures var open := Crowded(st, a.from, a.frame, a.now);
            && key in open && Evicts(open, a.victim) && KeyOf(a) !in st.done
            && DecoderFor(Expired(st, a.now), a.from, a.frame, a.now).Some?
  {
  }

  // When the open decoders stand beside a frame's own, that one has just been touched and the others are as before.
  lemma CrowdedTouch(st: State, a: Arrival, key: Key)
    requires key in Crowded(st, a.from, a.frame, a.now)
    requires DecoderFor(Expired(st, a.now), a.from, a.frame, a.now).Some?
    ensures var od := Crowded(st, a.from, a.frame, a.now)[key];
            if KeyOf(a) == key then od.touched == a.now else key in st.open && od == st.open[key]
  {
  }

  // A symbol taken touches its decoder.
  lemma TouchedNow(hash: Hash, st: State, a: Arrival)
    requires WellFormed(st) && KeyOf(a) !in st.done && KeyOf(a) in Next(hash, st, a).state.open
    requires DecoderFor(Expired(st, a.now), a.from, a.frame, a.now).Some?
    ensures Next(hash, st, a).state.open[KeyOf(a)].touched == a.now
  {
    hide D.Add, D.WellFormed, D.PayloadOf, D.Fits, BundleID;
  }

  lemma FreshInTime(st: State, key: Key, now: int)
    requires key in st.open && now - st.open[key].touched <= DECODER_TTL
    ensures key in Expired(st, now).open
  {
  }

  // The bundle's own symbol is taken in and touches its decoder.
  lemma OwnSymbolStands(hash: Hash, e: SourceBlock, payload: bytes, st: State, a: Arrival, I: set<uint16>)
    requires WellFormed(st) && Coded(hash, e, payload) && Genuine(hash, e, a) && KeyOf(a) == SenderKey(e)
    requires SenderKey(e) !in st.done && a.victim != Some(SenderKey(e)) && !Next(hash, st, a).outcome.Decoded?
    requires if SenderKey(e) in st.open then
               Hears(hash, e, st, I) && SenderKey(e) in Expired(st, a.now).open
             else I == {}
    ensures var st' := Next(hash, st, a).state;
            && SenderKey(e) !in st'.done && SenderKey(e) in st'.open && st'.open[SenderKey(e)].touched == a.now
            && Hears(hash, e, st', I + {a.frame.symbol.index})
  {
    ExpiredHears(hash, e, st, a.now, I);
    hide Hears, Genuine, Coded, Next, WellFormed, Expired;
    HearsOneMore(hash, e, payload, st, a, I);
    OpensADecoder(hash, e, payload, st, a, I);
    GenuineStays(hash, e, payload, st, a, I);
    TouchedNow(hash, st, a);
  }

  lemma ExpiredHears(hash: Hash, e: SourceBlock, st: State, now: int, I: set<uint16>)
    requires if SenderKey(e) in st.open then Hears(hash, e, st, I) && SenderKey(e) in Expired(st, now).open else I == {}
    ensures if SenderKey(e) in Expired(st, now).open then Hears(hash, e, Expired(st, now), I) else I == {}
  {
    hide D.Tracks;
  }

  lemma OpensADecoder(hash: Hash, e: SourceBlock, payload: bytes, st: State, a: Arrival, I: set<uint16>)
    requires WellFormed(st) && Coded(hash, e, payload) && Genuine(hash, e, a) && KeyOf(a) == SenderKey(e)
    requires if SenderKey(e) in Expired(st, a.now).open then Hears(hash, e, Expired(st, a.now), I) else I == {}
    ensures DecoderFor(Expired(st, a.now), a.from, a.frame, a.now).Some?
  {
    hide Hears, Genuine, Coded, DecoderFor;
    DecoderTracks(hash, e, payload, Expired(st, a.now), a, I);
  }

  lemma GenuineStays(hash: Hash, e: SourceBlock, payload: bytes, st: State, a: Arrival, I: set<uint16>)
    requires WellFormed(st) && Coded(hash, e, payload) && Genuine(hash, e, a) && KeyOf(a) == SenderKey(e)
    requires SenderKey(e) !in st.done && a.victim != Some(SenderKey(e)) && !Next(hash, st, a).outcome.Decoded?
    requires if SenderKey(e) in Expired(st, a.now).open then Hears(hash, e, Expired(st, a.now), I) else I == {}
    ensures SenderKey(e) in Next(hash, st, a).state.open
  {
    hide Hears, Genuine, Coded, Next, WellFormed, D.Resolves;
    GenuineSymbolCounts(hash, e, payload, st, a, I);
  }

  // Anybody else's leaves it alone.
  lemma OtherSymbolStands(hash: Hash, e: SourceBlock, st: State, a: Arrival, I: set<uint16>)
    requires WellFormed(st) && Lawful(st, a) && KeyOf(a) != SenderKey(e) && SenderKey(e) !in st.done
    requires a.victim != Some(SenderKey(e))
    requires SenderKey(e) in st.open ==> a.now - st.open[SenderKey(e)].touched <= DECODER_TTL && Hears(hash, e, st, I)
    ensures var st' := Next(hash, st, a).state;
            && SenderKey(e) !in st'.done && (SenderKey(e) in st'.open <==> SenderKey(e) in st.open)
            && (SenderKey(e) in st.open ==> st'.open[SenderKey(e)] == st.open[SenderKey(e)] && Hears(hash, e, st', I))
  {
    OthersStayUndone(hash, st, a, SenderKey(e));
    OtherSymbolsDoNotMix(hash, e, st, a);
    hide D.Tracks, Next, WellFormed, Lawful;
    if SenderKey(e) in st.open {
      OthersLeaveItExactlyWhen(hash, st, a, SenderKey(e));
    }
  }

  // Where the bundle stands at arrival i, having heard I.
  ghost predicate Stands(hash: Hash, e: SourceBlock, open: map<Key, OpenDecoder>, arrivals: seq<Arrival>, st: State,
                         i: nat, I: set<uint16>)
    requires i <= |arrivals|
  {
    && SenderKey(e) !in st.done && Standing(open, arrivals, st, i, SenderKey(e))
    && if SenderKey(e) in st.open then Hears(hash, e, st, I) else I == {}
  }

  lemma StandsOn(hash: Hash, e: SourceBlock, payload: bytes, open: map<Key, OpenDecoder>, arrivals: seq<Arrival>,
                 st: State, i: nat, I: set<uint16>)
    requires WellFormed(st) && i < |arrivals| && Lawful(st, arrivals[i])
    requires Coded(hash, e, payload) && Genuine(hash, e, arrivals[i])
    requires Stands(hash, e, open, arrivals, st, i, I) && InTime(open, arrivals, i, SenderKey(e))
    requires arrivals[i].victim != Some(SenderKey(e))
    requires KeyOf(arrivals[i]) == SenderKey(e) ==> !Next(hash, st, arrivals[i]).outcome.Decoded?
    ensures Stands(hash, e, open, arrivals, Next(hash, st, arrivals[i]).state, i + 1,
                   if KeyOf(arrivals[i]) == SenderKey(e) then I + {arrivals[i].frame.symbol.index} else I)
  {
    hide Hears, Genuine, Coded, Next, WellFormed, Lawful, Standing, InTime;
    if KeyOf(arrivals[i]) == SenderKey(e) {
      OwnStandsOn(hash, e, payload, open, arrivals, st, i, I);
    } else {
      OtherStandsOn(hash, e, open, arrivals, st, i, I);
    }
  }

  lemma OwnStandsOn(hash: Hash, e: SourceBlock, payload: bytes, open: map<Key, OpenDecoder>, arrivals: seq<Arrival>,
                    st: State, i: nat, I: set<uint16>)
    requires WellFormed(st) && i < |arrivals| && Coded(hash, e, payload) && Genuine(hash, e, arrivals[i])
    requires Stands(hash, e, open, arrivals, st, i, I) && InTime(open, arrivals, i, SenderKey(e))
    requires arrivals[i].victim != Some(SenderKey(e)) && KeyOf(arrivals[i]) == SenderKey(e)
    requires !Next(hash, st, arrivals[i]).outcome.Decoded?
    ensures Stands(hash, e, open, arrivals, Next(hash, st, arrivals[i]).state, i + 1,
                   I + {arrivals[i].frame.symbol.index})
  {
    hide Hears, Genuine, Coded, Next, WellFormed, Expired;
    if SenderKey(e) in st.open {
      FreshInTime(st, SenderKey(e), arrivals[i].now);
    }
    OwnSymbolStands(hash, e, payload, st, arrivals[i], I);
  }

  lemma OtherStandsOn(hash: Hash, e: SourceBlock, open: map<Key, OpenDecoder>, arrivals: seq<Arrival>, st: State,
                      i: nat, I: set<uint16>)
    requires WellFormed(st) && i < |arrivals| && Lawful(st, arrivals[i])
    requires Stands(hash, e, open, arrivals, st, i, I) && InTime(open, arrivals, i, SenderKey(e))
    requires arrivals[i].victim != Some(SenderKey(e)) && KeyOf(arrivals[i]) != SenderKey(e)
    ensures Stands(hash, e, open, arrivals, Next(hash, st, arrivals[i]).state, i + 1, I)
  {
    hide Hears, Next, WellFormed, Lawful, Expired;
    OtherSymbolStands(hash, e, st, arrivals[i], I);
  }

  lemma {:induction false} StandsThroughout(hash: Hash, e: SourceBlock, payload: bytes, states: seq<State>,
                                            arrivals: seq<Arrival>, i: nat, n: nat)
    requires Run(hash, states, arrivals) && Coded(hash, e, payload) && GenuineRun(hash, e, arrivals)
    requires i <= n && Steady(e, states, arrivals, n)
    requires forall j :: 0 <= j < i && KeyOf(arrivals[j]) == SenderKey(e) ==>
             !OutcomeAt(hash, states, arrivals, j).Decoded?
    ensures Stands(hash, e, states[0].open, arrivals, states[i], i, Heard(e, arrivals, i))
  {
    if i == 0 {
      HeardNothing(e, arrivals);
    } else {
      var m := i - 1;
      var key := SenderKey(e);
      StandsThroughout(hash, e, payload, states, arrivals, m, n);
      NeverTooOld(hash, states, arrivals, m, n, key);
      assert RoomAt(states[0].open, arrivals, m, key);
      NotTheVictim(hash, states, arrivals, m, key);
      HeardGrows(e, arrivals, m);
      assert states[m + 1] == Next(hash, states[m], arrivals[m]).state && Genuine(hash, e, arrivals[m]);
      assert Lawful(states[m], arrivals[m]) && WellFormed(states[m]);
      assert KeyOf(arrivals[m]) == key ==> !OutcomeAt(hash, states, arrivals, m).Decoded?;
      hide Run, Lawful, WellFormed, Stands, Steady, InTime, RoomAt, Coded, Genuine, GenuineRun, Next, Heard;
      StandsOn(hash, e, payload, states[0].open, arrivals, states[m], m, Heard(e, arrivals, m));
    }
  }

  /** As long as a bundle's symbols follow each other within a decoder's lifetime and not as many other keys are heard
      of in between as may be open, its result depends on nothing but them: it decodes at the first whose index,
      with those before it, resolves the block. */
  lemma DecodesOnceResolved(hash: Hash, e: SourceBlock, payload: bytes, states: seq<State>, arrivals: seq<Arrival>,
                            n: nat)
    requires Run(hash, states, arrivals) && Coded(hash, e, payload) && GenuineRun(hash, e, arrivals)
    requires Steady(e, states, arrivals, n)
    requires forall i :: 0 <= i < n && KeyOf(arrivals[i]) == SenderKey(e) ==>
             !OutcomeAt(hash, states, arrivals, i).Decoded?
    ensures OutcomeAt(hash, states, arrivals, n) ==
            if D.Resolves(hash, e, Heard(e, arrivals, n + 1)) then Decoded(payload) else Gathered
  {
    StandsThroughout(hash, e, payload, states, arrivals, n, n);
    NeverTooOld(hash, states, arrivals, n, n, SenderKey(e));
    HeardGrows(e, arrivals, n);
    assert Genuine(hash, e, arrivals[n]);
    var st, a := states[n], arrivals[n];
    if SenderKey(e) in st.open {
      FreshInTime(st, SenderKey(e), a.now);
    }
    ExpiredHears(hash, e, st, a.now, Heard(e, arrivals, n));
    hide Run, Stands, Steady, Timely, Uncrowded, Hears, Coded, Genuine, GenuineRun, Heard, Expired, D.Resolves;
    GenuineSymbolCounts(hash, e, payload, st, a, Heard(e, arrivals, n));
  }
}
