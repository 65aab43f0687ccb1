/** The symbol format, the derived repair masks and the encoder of the fountain code. */
module Fountain {
  import opened Bytes
  import opened GF2

  const HEADER_SIZE := 8
  const MAX_K := 64
  const MAX_SYMBOL_SIZE := 1400

  datatype Symbol = Symbol(bundleID: uint32, index: uint16, k: byte, data: bytes)

  datatype SymbolError = NotDecoded | Truncated | UnsupportedVersion | ReservedBits | SymbolSize | BadK | Mismatched

  // ---- the wire form -----------------------------------------------------------

  function EncodeSymbol(s: Symbol): bytes {
    [0x40] + BE32(s.bundleID) + [s.index % 0x100, s.k, s.index / 0x100] + s.data
  }

  function DecodeSymbol(b: bytes): (r: Result<Symbol, SymbolError>)
    ensures r.Ok? ==> 1 <= r.value.k <= MAX_K && 1 <= |r.value.data| <= MAX_SYMBOL_SIZE
  {
    if |b| < HEADER_SIZE then Err(Truncated)
    else if b[0] / 0x40 != 1 then Err(UnsupportedVersion)
    else if b[0] % 0x40 != 0 then Err(ReservedBits)
    else if |b| == HEADER_SIZE || |b| - HEADER_SIZE > MAX_SYMBOL_SIZE then Err(SymbolSize)
    else if b[6] == 0 || b[6] > MAX_K then Err(BadK)
    else
      var low: int, high: int := b[5], b[7];
      Ok(Symbol(FromBE32(b[1..5]), low + high * 0x100, b[6], b[HEADER_SIZE..]))
  }

  /** A symbol has one wire form: a byte string is accepted exactly when it is the encoding
      of a symbol within the limits, and then it parses to that symbol. */
  lemma SymbolFormIsCanonical(b: bytes, s: Symbol)
    ensures DecodeSymbol(b) == Ok(s) <==>
            b == EncodeSymbol(s) && 1 <= s.k <= MAX_K && 1 <= |s.data| <= MAX_SYMBOL_SIZE
  {
    if b == EncodeSymbol(s) {
      assert b[1..5] == BE32(s.bundleID);
      assert b[HEADER_SIZE..] == s.data;
      BE32RoundTrip(s.bundleID, BE32(s.bundleID));
    }
    if DecodeSymbol(b).Ok? {
      BE32RoundTrip(0, b[1..5]);
      assert b == b[..1] + b[1..5] + b[5..8] + b[8..];
      assert b[..1] == [0x40];
    }
  }

  // ---- mask derivation -----------------------------------------------------------

  function Seed(hash: Hash, sender: NodeID, bundleID: uint32, index: uint16): Digest256 {
    hash(sender + BE32(bundleID) + BE16(index))
  }

  // Block n of the counter-mode generator.
  function Block(hash: Hash, seed: Digest256, n: nat): Digest256 {
    hash(seed + BE32(CounterFor(n)))
  }

  function Word(block: Digest256, i: nat): uint32
    requires i < 8
  {
    FromBE32(block[4 * i..4 * i + 4])
  }

  // Draw t of the generator: eight four-byte draws to a block.
  function Draw(hash: Hash, seed: Digest256, t: nat): uint32 {
    Word(Block(hash, seed, t / 8), t % 8)
  }

  predicate Bit(v: nat, j: nat) {
    v / Pow2(j) % 2 == 1
  }

  function DrawnMask(hash: Hash, seed: Digest256, k: nat): (m: Mask)
    ensures |m| == k
  {
    seq(k, i requires 0 <= i < k => Bit(Draw(hash, seed, i / 32), i % 32))
  }

  // The lone member of a mask whose draws all came up empty.
  function Pick(v: uint32, k: nat): (c: nat)
    requires k >= 1
    ensures c < k
  {
    v % k
  }

  // The mask of a repair symbol.
  function RepairMask(hash: Hash, sender: NodeID, bundleID: uint32, index: uint16, k: nat): (m: Mask)
    requires k >= 1
    ensures |m| == k
  {
    var seed := Seed(hash, sender, bundleID, index);
    var drawn := DrawnMask(hash, seed, k);
    if k == 1 then [true]
    else if drawn != NoBits(k) then drawn
    else Unit(k, Pick(Draw(hash, seed, (k + 31) / 32), k))
  }

  /** No repair symbol is empty: every mask selects some source symbol. */
  lemma RepairMaskSelectsSomething(hash: Hash, sender: NodeID, bundleID: uint32, index: uint16, k: nat) returns (c: nat)
    requires k >= 1
    ensures c < k && RepairMask(hash, sender, bundleID, index, k)[c]
  {
    var seed := Seed(hash, sender, bundleID, index);
    var drawn := DrawnMask(hash, seed, k);
    if k == 1 {
      c := 0;
    } else if i :| 0 <= i < k && drawn[i] {
      c := i;
    } else {
      assert drawn == NoBits(k);
      c := Pick(Draw(hash, seed, (k + 31) / 32), k);
    }
  }

  // The counter after n blocks.
  function CounterFor(n: nat): uint32 {
    n % 0x1_0000_0000
  }

  lemma CounterSteps(n: nat)
    ensures CounterFor(n + 1) == if CounterFor(n) + 1 == 0x1_0000_0000 then 0 else CounterFor(n) + 1
    ensures CounterFor(CounterFor(n)) == CounterFor(n)
  {
  }

  // The generator behind the mask: it hashes a counter for 32 bytes at a time and hands them
  // out four at a time.
  class Generator {
    const hash: Hash
    const seed: Digest256
    var counter: uint32
    var pool: bytes
    ghost var blocks: nat
    ghost var used: nat

    ghost predicate Valid()
      reads this
    {
      && used <= 8 && CounterFor(blocks) == counter
      && if blocks == 0 then used == 8 && pool == [] else pool == Block(hash, seed, blocks - 1)[4 * used..]
    }

    ghost function Drawn(): int
      reads this
    {
      8 * blocks - 8 + used
    }

    constructor (hash: Hash, seed: Digest256)
      ensures Valid() && Drawn() == 0 && this.hash == hash && this.seed == seed
    {
      this.hash := hash;
      this.seed := seed;
      counter, pool, blocks, used := 0, [], 0, 8;
    }

    method Next() returns (v: uint32)
      requires Valid() && Drawn() >= 0
      modifies this
      ensures Valid() && Drawn() == old(Drawn()) + 1
      ensures v == Draw(hash, seed, old(Drawn()))
    {
      if |pool| < 4 {
        CounterSteps(blocks);
        pool := Block(hash, seed, counter);
        counter := if counter + 1 == 0x1_0000_0000 then 0 else counter + 1;
        blocks, used := blocks + 1, 0;
      }
      assert Drawn() / 8 == blocks - 1 && Drawn() % 8 == used;
      PoolHoldsWords(Block(hash, seed, blocks - 1), pool, used);
      v := FromBE32(pool[..4]);
      pool := pool[4..];
      used := used + 1;
    }
  }

  lemma PoolHoldsWords(block: Digest256, pool: bytes, used: nat)
    requires used < 8 && pool == block[4 * used..]
    ensures FromBE32(pool[..4]) == Word(block, used) && pool[4..] == block[4 * (used + 1)..]
  {
    assert pool[..4] == block[4 * used..4 * used + 4];
  }

  // The inclusion bits of one 32-symbol batch, and how many of them were set.
  method FillBatch(out: array<bool>, i: nat, bits: uint32, count: nat, ghost hit: nat)
    returns (count': nat, ghost hit': nat)
    requires i <= out.Length
    requires forall c :: i <= c < out.Length ==> !out[c]
    requires if count == 0 then forall c :: 0 <= c < out.Length ==> !out[c] else hit < out.Length && out[hit]
    modifies out
    ensures forall c :: 0 <= c < out.Length ==>
              out[c] == if i <= c < i + 32 then Bit(bits, c - i) else old(out[c])
    ensures if count' == 0 then forall c :: 0 <= c < out.Length ==> !out[c] else hit' < out.Length && out[hit']
  {
    count', hit' := count, hit;
    var j := 0;
    while j < 32 && i + j < out.Length
      invariant 0 <= j <= 32
      invariant forall c :: 0 <= c < out.Length ==>
                  out[c] == if i <= c < i + j then Bit(bits, c - i) else old(out[c])
      invariant if count' == 0 then forall c :: 0 <= c < out.Length ==> !out[c] else hit' < out.Length && out[hit']
    {
      if Bit(bits, j) {
        out[i + j] := true;
        count', hit' := count' + 1, i + j;
      }
      j := j + 1;
    }
  }

  lemma BatchOf(batch: nat, c: nat)
    requires 32 * batch <= c < 32 * batch + 32
    ensures c / 32 == batch && c % 32 == c - 32 * batch
  {
  }

  method FillMask(next: Generator, out: array<bool>) returns (count: nat, ghost hit: nat)
    requires next.Valid() && next.Drawn() == 0 && forall c :: 0 <= c < out.Length ==> !out[c]
    modifies next, out
    ensures next.Valid() && next.Drawn() == (out.Length + 31) / 32
    ensures out[..] == DrawnMask(next.hash, next.seed, out.Length)
    ensures if count == 0 then forall c :: 0 <= c < out.Length ==> !out[c] else hit < out.Length && out[hit]
  {
    ghost var drawn := DrawnMask(next.hash, next.seed, out.Length);
    count, hit := 0, 0;
    ghost var batch: nat := 0;
    var i := 0;
    while i < out.Length
      invariant i == 32 * batch && i < out.Length + 32
      invariant next.Valid() && next.Drawn() == batch
      invariant forall c :: 0 <= c < out.Length ==> out[c] == (c < i && drawn[c])
      invariant if count == 0 then forall c :: 0 <= c < out.Length ==> !out[c] else hit < out.Length && out[hit]
    {
      var bits := next.Next();
      count, hit := FillBatch(out, i, bits, count, hit);
      forall c | i <= c < out.Length && c < i + 32
        ensures drawn[c] == Bit(bits, c - i)
      {
        BatchOf(batch, c);
      }
      i, batch := i + 32, batch + 1;
    }
  }

  // An all-zero draw is given one member.
  method EnsureMember(next: Generator, out: array<bool>, count: nat, ghost hit: nat)
    requires next.Valid() && next.Drawn() >= 0 && out.Length >= 1
    requires if count == 0 then forall c :: 0 <= c < out.Length ==> !out[c] else hit < out.Length && out[hit]
    modifies next, out
    ensures old(out[..]) != NoBits(out.Length) ==> out[..] == old(out[..])
    ensures old(out[..]) == NoBits(out.Length) ==>
              out[..] == Unit(out.Length, Pick(Draw(next.hash, next.seed, old(next.Drawn())), out.Length))
  {
    if count == 0 {
      var last := next.Next();
      out[Pick(last, out.Length)] := true;
    } else {
      assert old(out[..])[hit];
    }
  }

  method ComputeMask(hash: Hash, sender: NodeID, bundleID: uint32, index: uint16, k: nat) returns (out: array<bool>)
    requires k >= 1
    ensures fresh(out) && out[..] == RepairMask(hash, sender, bundleID, index, k)
  {
    hide Draw, Pick, DrawnMask, Seed;
    var seed := Seed(hash, sender, bundleID, index);
    var next := new Generator(hash, seed);
    out := new bool[k](_ => false);
    if k == 1 {
      out[0] := true;
      return;
    }
    ghost var hit: nat;
    var count;
    count, hit := FillMask(next, out);
    EnsureMember(next, out, count, hit);
  }
}
