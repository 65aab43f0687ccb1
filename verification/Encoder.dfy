/** Splitting a payload into source symbols and emitting systematic and repair symbols. */
module Encoder {
  import opened Bytes
  import opened GF2
  import opened Fountain

  // One source block, ready to emit symbols.
  datatype SourceBlock = SourceBlock(sender: NodeID, bundleID: uint32, k: nat, symSize: nat,
                                     source: seq<bytes>, origLen: nat)

  // Chunk i of the payload, zero-padded to the symbol size.
  function Chunk(payload: bytes, i: nat, w: nat): (c: bytes)
    requires i * w < |payload|
    ensures |c| == w
  {
    var end := Min((i + 1) * w, |payload|);
    assert i * w + w == (i + 1) * w;
    payload[i * w..end] + Zeros(w - (end - i * w))
  }

  /** Source symbols are just enough: one fewer would not hold the payload. */
  lemma SymbolsAreJustEnough(n: nat, w: nat)
    requires n > 0 && w > 0
    ensures var k := SymbolCount(n, w); k >= 1 && (k - 1) * w < n <= k * w
  {
  }

  function SymbolCount(n: nat, w: nat): nat
    requires w > 0
  {
    (n + w - 1) / w
  }

  lemma Scale(i: nat, j: nat, w: nat)
    requires i <= j
    ensures i * w <= j * w
  {
  }

  lemma ChunkStartsInside(n: nat, w: nat, i: nat)
    requires w > 0 && i < SymbolCount(n, w)
    ensures i * w < n
  {
    Scale(i, SymbolCount(n, w) - 1, w);
  }

  function Split(payload: bytes, w: nat): (src: seq<bytes>)
    requires w > 0
    ensures IsBlock(src, SymbolCount(|payload|, w), w)
  {
    seq(SymbolCount(|payload|, w), i requires 0 <= i < SymbolCount(|payload|, w) =>
      ChunkStartsInside(|payload|, w, i); Chunk(payload, i, w))
  }

  // The source symbols laid end to end.
  function Join(src: seq<bytes>): (b: bytes) {
    if src == [] then [] else Join(src[..|src| - 1]) + src[|src| - 1]
  }

  // What n symbols hold of the payload: a prefix, padded once the payload runs out.
  function Padded(payload: bytes, b: nat): bytes {
    if b <= |payload| then payload[..b] else payload + Zeros(b - |payload|)
  }

  lemma ChunkContinues(payload: bytes, i: nat, w: nat)
    requires i * w < |payload|
    ensures Padded(payload, i * w) + Chunk(payload, i, w) == Padded(payload, (i + 1) * w)
  {
    var a, b := i * w, (i + 1) * w;
    assert b == a + w;
    if b <= |payload| {
      assert payload[..a] + payload[a..b] == payload[..b];
    } else {
      assert payload[..a] + payload[a..] == payload;
    }
  }

  /** Joining the first n chunks gives the payload back, padded once it runs out. */
  lemma {:induction false} JoinOfSplit(payload: bytes, w: nat, n: nat)
    requires w > 0 && n <= SymbolCount(|payload|, w)
    ensures Join(Split(payload, w)[..n]) == Padded(payload, n * w)
  {
    hide Padded, Chunk, SymbolCount;
    var src := Split(payload, w);
    if n == 0 {
      assert src[..0] == [];
      PaddedNothing(payload);
    } else {
      JoinOfSplit(payload, w, n - 1);
      assert src[..n][..n - 1] == src[..n - 1];
      assert Join(src[..n]) == Join(src[..n - 1]) + src[n - 1];
      ChunkStartsInside(|payload|, w, n - 1);
      ChunkContinues(payload, n - 1, w);
    }
  }

  lemma PaddedNothing(payload: bytes)
    ensures Padded(payload, 0) == []
  {
  }

  /** Trimming to the original length undoes the split. */
  lemma SplitRoundTrip(payload: bytes, w: nat)
    requires w > 0
    ensures |Join(Split(payload, w))| >= |payload|
    ensures Join(Split(payload, w))[..|payload|] == payload
  {
    var k := SymbolCount(|payload|, w);
    JoinOfSplit(payload, w, k);
    assert Split(payload, w)[..k] == Split(payload, w);
  }

  // ---- the encoder -----------------------------------------------------------------

  ghost predicate IsEncoding(e: SourceBlock, payload: bytes) {
    && 1 <= e.symSize <= MAX_SYMBOL_SIZE && 1 <= e.k <= MAX_K
    && e.k == SymbolCount(|payload|, e.symSize) && e.origLen == |payload|
    && e.source == Split(payload, e.symSize)
  }

  method NewEncoder(sender: NodeID, bundleID: uint32, payload: bytes, symSize: int)
    returns (r: Result<SourceBlock, SymbolError>)
    ensures r.Err? && r.error == SymbolSize <==> symSize <= 0 || symSize > MAX_SYMBOL_SIZE
    ensures r.Err? && r.error == BadK <==>
              1 <= symSize <= MAX_SYMBOL_SIZE && (payload == [] || SymbolCount(|payload|, symSize) > MAX_K)
    ensures r.Err? ==> r.error == SymbolSize || r.error == BadK
    ensures r.Ok? ==> IsEncoding(r.value, payload) && r.value.symSize == symSize
                      && r.value.sender == sender && r.value.bundleID == bundleID
  {
    if symSize <= 0 || symSize > MAX_SYMBOL_SIZE {
      return Err(SymbolSize);
    }
    if |payload| == 0 {
      return Err(BadK);
    }
    var k := SymbolCount(|payload|, symSize);
    if k > MAX_K {
      return Err(BadK);
    }
    var source: seq<bytes> := [];
    for i := 0 to k
      invariant source == Split(payload, symSize)[..i]
    {
      ChunkStartsInside(|payload|, symSize, i);
      source := source + [Chunk(payload, i, symSize)];
    }
    return Ok(SourceBlock(sender, bundleID, k, symSize, source, |payload|));
  }

  // The coefficients of symbol index, which both ends derive: a systematic original below k,
  // a drawn combination from there on.
  function Coefficients(hash: Hash, sender: NodeID, bundleID: uint32, index: uint16, k: nat): (m: Mask)
    requires k >= 1
    ensures |m| == k
  {
    if index < k then Unit(k, index) else RepairMask(hash, sender, bundleID, index, k)
  }

  function SymbolOf(hash: Hash, e: SourceBlock, index: uint16): (s: Symbol)
    requires 1 <= e.k <= MAX_K && IsBlock(e.source, e.k, e.symSize)
  {
    Symbol(e.bundleID, index, e.k,
           Combine(Coefficients(hash, e.sender, e.bundleID, index, e.k), e.source, e.k, e.symSize))
  }

  /** The first k symbols are the source symbols themselves. */
  lemma SystematicSymbols(hash: Hash, e: SourceBlock, index: uint16)
    requires 1 <= e.k <= MAX_K && IsBlock(e.source, e.k, e.symSize) && index < e.k
    ensures SymbolOf(hash, e, index) == Symbol(e.bundleID, index, e.k, e.source[index])
  {
    CombineOfUnit(e.k, index, e.source, e.k, e.symSize);
  }

  method EmitSymbol(hash: Hash, e: SourceBlock, index: uint16) returns (s: Symbol)
    requires 1 <= e.k <= MAX_K && IsBlock(e.source, e.k, e.symSize)
    ensures s == SymbolOf(hash, e, index)
  {
    if index < e.k {
      SystematicSymbols(hash, e, index);
      return Symbol(e.bundleID, index, e.k, e.source[index]);
    }
    var mask := ComputeMask(hash, e.sender, e.bundleID, index, e.k);
    var data := CombineMembers(mask[..], e.source, e.symSize);
    return Symbol(e.bundleID, index, e.k, data);
  }

  method CombineMembers(mask: Mask, source: seq<bytes>, w: nat) returns (data: bytes)
    requires IsBlock(source, |mask|, w)
    ensures data == Combine(mask, source, |mask|, w)
  {
    var combined := new byte[w](_ => 0);
    assert combined[..] == Zeros(w);
    for i := 0 to |mask|
      invariant combined[..] == Combine(mask, source, i, w)
    {
      if mask[i] {
        XorInto(combined, source[i]);
      }
    }
    data := combined[..];
  }

  method XorInto(dst: array<byte>, src: bytes)
    requires dst.Length == |src|
    modifies dst
    ensures dst[..] == XorBytes(old(dst[..]), src)
  {
    for i := 0 to dst.Length
      invariant forall j :: 0 <= j < i ==> dst[j] == Xor(old(dst[j]), src[j])
      invariant forall j :: i <= j < dst.Length ==> dst[j] == old(dst[j])
    {
      dst[i] := Xor(dst[i], src[i]);
    }
  }
}
