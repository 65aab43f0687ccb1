/** The spoken rendering of a node ID: six words of eleven bits each, two of the sixty-six a checksum. */
module Words {
  import opened Bytes
  import opened Radix

  const WORD_COUNT := 6
  const NODE_ID_LEN := 8
  const WORDS := 2048

  // The word list, and how a spoken word is matched against it: trimmed and in lower case.
  datatype Lexicon = Lexicon(words: seq<string>, fold: string -> string)

  ghost predicate Usable(lex: Lexicon) {
    && |lex.words| == WORDS
    && (forall i, j :: 0 <= i < j < WORDS ==> lex.words[i] != lex.words[j])
    && (forall i :: 0 <= i < WORDS ==> lex.fold(lex.words[i]) == lex.words[i])
  }

  // The index of every word, built once from the list.
  ghost predicate IsIndex(index: map<string, nat>, words: seq<string>) {
    && (forall w :: w in index ==> index[w] < |words| && words[index[w]] == w)
    && (forall i :: 0 <= i < |words| ==> words[i] in index && index[words[i]] == i)
  }

  method BuildIndex(words: seq<string>) returns (index: map<string, nat>)
    requires forall i, j :: 0 <= i < j < |words| ==> words[i] != words[j]
    ensures IsIndex(index, words)
  {
    index := map[];
    for i := 0 to |words|
      invariant forall w :: w in index ==> index[w] < i && words[index[w]] == w
      invariant forall k :: 0 <= k < i ==> words[k] in index && index[words[k]] == k
    {
      index := index[words[i] := i];
    }
  }

  function Checksum(hash: Hash, id: NodeID): (sum: nat)
    ensures sum < 4
  {
    hash(id)[0] / 64
  }

  /** The checksum depends on every byte of the ID: for any two different IDs some hash gives them different sums. */
  lemma ChecksumsCanDiffer(id: NodeID, other: NodeID) returns (hash: Hash)
    requires id != other
    ensures Checksum(hash, id) != Checksum(hash, other)
  {
    var high: Digest256 := seq(32, _ => 0xFF);
    hash := (b: bytes) => if b == id then high else Zeros(32);
  }

  // ---- what the two loops compute --------------------------------------------------------------------------

  function Indices(hash: Hash, id: NodeID): (ds: seq<nat>)
    ensures |ds| == WORD_COUNT && Within(ds, WORDS)
  {
    Digits(Value(id, 256) * 4 + Checksum(hash, id), WORDS, WORD_COUNT)
  }

  function Spoken(lex: Lexicon, ds: seq<nat>): seq<string>
    requires |lex.words| == WORDS && Within(ds, WORDS)
  {
    seq(|ds|, i requires 0 <= i < |ds| => lex.words[ds[i]])
  }

  datatype Error = WrongCount | UnknownWord(position: nat) | ChecksumMismatch

  // The node ID of six indices, if the last two bits are its checksum.
  function Recovered(hash: Hash, ds: seq<nat>): Result<NodeID, Error> {
    var v := Value(ds, WORDS);
    var id: bytes := Digits(Quot(v, 4), 256, NODE_ID_LEN);
    if Rem(v, 4) == Checksum(hash, id) then Ok(id) else Err(ChecksumMismatch)
  }

  // ---- the loops -------------------------------------------------------------------------------------------

  lemma NothingYet(b: seq<nat>, base: nat, other: nat)
    ensures Carries(Value(b[..0], base), Value([], other), 0, 0)
  {
    assert b[..0] == [];
  }

  // Every whole word's worth of pending bits goes out.
  method Emit(ghost read: nat, before: seq<nat>, acc: nat, pending: nat) returns (out: seq<nat>, bits: nat)
    requires Carries(read, Value(before, WORDS), pending, acc) && Within(before, WORDS)
    ensures bits < 11 && 11 * |out| + bits == 11 * |before| + pending && Within(out, WORDS)
    ensures Carries(read, Value(out, WORDS), bits, acc)
  {
    hide Carries, Top, Value;
    out, bits := before, pending;
    while bits >= 11
      invariant 11 * |out| + bits == 11 * |before| + pending && Within(out, WORDS)
      invariant Carries(read, Value(out, WORDS), bits, acc)
      decreases bits
    {
      WriteDigit(read, out, WORDS, bits, acc, 11);
      out := out + [Top(acc, bits, 11)];
      bits := bits - 11;
    }
  }

  // The loop over the bytes of the node ID.
  method PayloadWords(id: NodeID) returns (out: seq<nat>, acc: nat, bits: nat)
    ensures bits < 11 && 11 * |out| + bits == 8 * NODE_ID_LEN && Within(out, WORDS)
    ensures Carries(Value(id, 256), Value(out, WORDS), bits, acc)
  {
    hide Carries, Value, Pushed;
    out, acc, bits := [], 0, 0;
    NothingYet(id, 256, WORDS);
    for i := 0 to NODE_ID_LEN
      invariant bits < 11 && 11 * |out| + bits == 8 * i && Within(out, WORDS)
      invariant Carries(Value(id[..i], 256), Value(out, WORDS), bits, acc)
    {
      assert id[..i + 1] == id[..i] + [id[i]];
      ReadDigit(id[..i], id[i], 256, Value(out, WORDS), bits, acc, 8, 32);
      acc := Pushed(acc, 8, id[i], 32);
      out, bits := Emit(Value(id[..i + 1], 256), out, acc, bits + 8);
    }
    assert id[..NODE_ID_LEN] == id;
  }

  method EncodeWords(lex: Lexicon, hash: Hash, id: NodeID) returns (spoken: seq<string>)
    requires |lex.words| == WORDS
    ensures spoken == Spoken(lex, Indices(hash, id))
  {
    hide Carries, Value, Pushed, Checksum, Digits;
    var out, acc, bits := PayloadWords(id);
    var sum := Checksum(hash, id);
    PushChecksum(Value(id, 256), Value(out, WORDS), bits, acc, sum);
    acc := Pushed(acc, 2, sum, 32);
    out, bits := Emit(Value(id, 256) * 4 + sum, out, acc, bits + 2);
    Finished(Value(id, 256) * 4 + sum, out, acc);
    spoken := Spoken(lex, out);
  }

  lemma PushChecksum(read: nat, written: nat, pending: nat, acc: nat, sum: nat)
    requires Carries(read, written, pending, acc) && pending < 11 && sum < 4
    ensures Carries(read * 4 + sum, written, pending + 2, Pushed(acc, 2, sum, 32))
  {
    assert Pow2(2) == 4;
    PushCarries(read, written, pending, acc, 2, sum, 32);
    hide Carries;
  }

  lemma Finished(read: nat, out: seq<nat>, acc: nat)
    requires Carries(read, Value(out, WORDS), 0, acc) && Within(out, WORDS)
    ensures Digits(read, WORDS, |out|) == out
  {
    assert read == Value(out, WORDS);
    DigitsOfValue(out, WORDS);
  }

  method Drain(ghost read: nat, before: bytes, acc: nat, pending: nat) returns (out: bytes, bits: nat)
    requires Carries(read, Value(before, 256), pending, acc)
    ensures bits < 8 && 8 * |out| + bits == 8 * |before| + pending
    ensures Carries(read, Value(out, 256), bits, acc)
  {
    hide Carries, Top, Value;
    out, bits := before, pending;
    while bits >= 8
      invariant 8 * |out| + bits == 8 * |before| + pending
      invariant Carries(read, Value(out, 256), bits, acc)
      decreases bits
    {
      WriteDigit(read, out, 256, bits, acc, 8);
      out := out + [Top(acc, bits, 8)];
      bits := bits - 8;
    }
  }

  // The leading words that the list knows, as indices.
  function Known(lex: Lexicon, index: map<string, nat>, words: seq<string>): seq<nat> {
    if words == [] || lex.fold(words[0]) !in index then []
    else [index[lex.fold(words[0])]] + Known(lex, index, words[1..])
  }

  // What six spoken words stand for.
  function Meaning(lex: Lexicon, index: map<string, nat>, hash: Hash, words: seq<string>): Result<NodeID, Error> {
    if |words| != WORD_COUNT then Err(WrongCount)
    else
      var ds := Known(lex, index, words);
      if |ds| < WORD_COUNT then Err(UnknownWord(|ds| + 1)) else Recovered(hash, ds)
  }

  lemma {:induction false} KnownSoFar(lex: Lexicon, index: map<string, nat>, words: seq<string>, ds: seq<nat>)
    requires |ds| <= |words| && (|ds| == |words| || lex.fold(words[|ds|]) !in index)
    requires forall i :: 0 <= i < |ds| ==> lex.fold(words[i]) in index && ds[i] == index[lex.fold(words[i])]
    ensures Known(lex, index, words) == ds
  {
    if ds != [] {
      KnownSoFar(lex, index, words[1..], ds[1..]);
      assert ds == [ds[0]] + ds[1..];
    }
  }

  method DecodeWords(lex: Lexicon, index: map<string, nat>, hash: Hash, words: seq<string>)
    returns (r: Result<NodeID, Error>)
    requires Usable(lex) && IsIndex(index, lex.words)
    ensures r == Meaning(lex, index, hash, words)
  {
    hide Carries, Value, Pushed, Checksum, Low, Recovered;
    if |words| != WORD_COUNT {
      return Err(WrongCount);
    }
    var out: bytes, acc: nat, bits: nat := [], 0, 0;
    ghost var ds: seq<nat> := [];
    NothingYet([], WORDS, 256);
    for i := 0 to WORD_COUNT
      invariant |ds| == i && bits < 8 && 8 * |out| + bits == 11 * i
      invariant forall k :: 0 <= k < i ==> lex.fold(words[k]) in index && ds[k] == index[lex.fold(words[k])]
      invariant Carries(Value(ds, WORDS), Value(out, 256), bits, acc)
    {
      var w := lex.fold(words[i]);
      if w !in index {
        KnownSoFar(lex, index, words, ds);
        return Err(UnknownWord(i + 1));
      }
      ReadDigit(ds, index[w], WORDS, Value(out, 256), bits, acc, 11, 32);
      acc := Pushed(acc, 11, index[w], 32);
      ds := ds + [index[w]];
      out, bits := Drain(Value(ds, WORDS), out, acc, bits + 11);
    }
    KnownSoFar(lex, index, words, ds);
    RecoveredBy(hash, ds, out, acc);
    if Low(Low(acc, 16), 2) != Checksum(hash, out) {
      return Err(ChecksumMismatch);
    }
    return Ok(out);
  }

  lemma RecoveredBy(hash: Hash, ds: seq<nat>, out: bytes, acc: nat)
    requires |out| == NODE_ID_LEN && Carries(Value(ds, WORDS), Value(out, 256), 2, acc)
    ensures Recovered(hash, ds) == if Low(Low(acc, 16), 2) == Checksum(hash, out) then Ok(out)
            else Err(ChecksumMismatch)
  {
    LowBitsSurvive(acc, 2, 16);
    assert Pow2(2) == 4;
    var v, low := Value(out, 256), Low(acc, 2);
    assert Value(ds, WORDS) == v * 4 + low && Low(Low(acc, 16), 2) == low;
    hide Low, Carries, Pow2, Value, Checksum;
    Euclid(v, low, 4);
    DigitsOfValue(out, 256);
    hide Quot, Rem;
  }

  // ---- round trips -----------------------------------------------------------------------------------------

  lemma IDFits(hash: Hash, id: NodeID)
    ensures Value(id, 256) * 4 + Checksum(hash, id) < Power(WORDS, WORD_COUNT)
  {
    ValueIsBounded(id, 256);
    assert Power(256, 8) == 0x1_0000_0000_0000_0000;
    assert Power(WORDS, WORD_COUNT) == 0x4_0000_0000_0000_0000;
    hide Value, Power, Checksum;
  }

  // The two parts of the value of six indices.
  ghost predicate Parts(hash: Hash, v: nat, id: NodeID) {
    Quot(v, 4) == Value(id, 256) && Rem(v, 4) == Checksum(hash, id)
  }

  lemma RecoveredParts(hash: Hash, ds: seq<nat>, id: NodeID)
    requires Parts(hash, Value(ds, WORDS), id)
    ensures Recovered(hash, ds) == Ok(id)
  {
    hide Quot, Rem, Value, Checksum;
    DigitsOfValue(id, 256);
  }

  /** The six indices of a node ID give it back. */
  lemma RecoveredFromIndices(hash: Hash, id: NodeID)
    ensures Recovered(hash, Indices(hash, id)) == Ok(id)
  {
    hide Quot, Rem, Value, Checksum, Power, Digits, Recovered;
    IDFits(hash, id);
    var v := Value(id, 256) * 4 + Checksum(hash, id);
    ValueOfDigits(v, WORDS, WORD_COUNT);
    Euclid(Value(id, 256), Checksum(hash, id), 4);
    RecoveredParts(hash, Indices(hash, id), id);
  }

  lemma IndexBound(hash: Hash, ds: seq<nat>)
    requires |ds| == WORD_COUNT && Within(ds, WORDS)
    ensures Quot(Value(ds, WORDS), 4) < Power(256, NODE_ID_LEN)
  {
    ValueIsBounded(ds, WORDS);
    assert Power(256, NODE_ID_LEN) == 0x1_0000_0000_0000_0000;
    assert Power(WORDS, WORD_COUNT) == 0x4_0000_0000_0000_0000;
    hide Value, Power, Quot;
    QuotIsBelow(Value(ds, WORDS), 4, 0x1_0000_0000_0000_0000);
  }

  lemma PartsOfAccepted(hash: Hash, ds: seq<nat>)
    requires |ds| == WORD_COUNT && Within(ds, WORDS) && Recovered(hash, ds).Ok?
    ensures Parts(hash, Value(ds, WORDS), Recovered(hash, ds).value)
  {
    IndexBound(hash, ds);
    var q := Quot(Value(ds, WORDS), 4);
    hide Quot, Rem, Value, Checksum, Power, Digits;
    ValueOfDigits(q, 256, NODE_ID_LEN);
  }

  /** Six indices that are accepted are the indices of what they are read as. */
  lemma IndicesOfRecovered(hash: Hash, ds: seq<nat>)
    requires |ds| == WORD_COUNT && Within(ds, WORDS) && Recovered(hash, ds).Ok?
    ensures Indices(hash, Recovered(hash, ds).value) == ds
  {
    hide Quot, Rem, Value, Checksum, Power, Digits, Recovered;
    PartsOfAccepted(hash, ds);
    QuotRem(Value(ds, WORDS), 4);
    DigitsOfValue(ds, WORDS);
  }

  lemma {:induction false} KnownSpoken(lex: Lexicon, index: map<string, nat>, ds: seq<nat>)
    requires Usable(lex) && IsIndex(index, lex.words) && Within(ds, WORDS)
    ensures Known(lex, index, Spoken(lex, ds)) == ds
  {
    if ds != [] {
      KnownSpoken(lex, index, ds[1..]);
      assert Spoken(lex, ds)[1..] == Spoken(lex, ds[1..]);
      assert ds == [ds[0]] + ds[1..];
    }
  }

  lemma {:induction false} SpokenKnown(lex: Lexicon, index: map<string, nat>, words: seq<string>)
    requires Usable(lex) && IsIndex(index, lex.words)
    ensures var ds := Known(lex, index, words);
            && |ds| <= |words| && Within(ds, WORDS)
            && (forall i :: 0 <= i < |ds| ==> Spoken(lex, ds)[i] == lex.fold(words[i]))
  {
    if words != [] && lex.fold(words[0]) in index {
      SpokenKnown(lex, index, words[1..]);
    }
  }

  /** Decoding undoes encoding for every node ID. */
  lemma WordsRoundTrip(lex: Lexicon, index: map<string, nat>, hash: Hash, id: NodeID)
    requires Usable(lex) && IsIndex(index, lex.words)
    ensures Meaning(lex, index, hash, Spoken(lex, Indices(hash, id))) == Ok(id)
  {
    hide Indices, Recovered, Usable, IsIndex;
    KnownSpoken(lex, index, Indices(hash, id));
    RecoveredFromIndices(hash, id);
  }

  /** Six words that are accepted are, trimmed and in lower case, the words of what they are read as. */
  lemma AcceptedWordsAreCanonical(lex: Lexicon, index: map<string, nat>, hash: Hash, words: seq<string>)
    requires Usable(lex) && IsIndex(index, lex.words) && Meaning(lex, index, hash, words).Ok?
    ensures Spoken(lex, Indices(hash, Meaning(lex, index, hash, words).value)) ==
            seq(WORD_COUNT, i requires 0 <= i < WORD_COUNT => lex.fold(words[i]))
  {
    SpokenKnown(lex, index, words);
    hide Indices, Recovered, IsIndex, Known;
    IndicesOfRecovered(hash, Known(lex, index, words));
  }
}
