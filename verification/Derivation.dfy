/** What the derivation of repair masks depends on, and that it uses every bit it draws. The hash is unknown, so what
    can be said is that nothing it would tell apart is confused before or after it. */
module Derivation {
  import opened Bytes
  import opened GF2
  import opened Fountain
  import opened Radix

  // ---- what a mask depends on --------------------------------------------------------------------------------

  // What is hashed for a seed.
  function Named(sender: NodeID, bundleID: uint32, index: uint16): bytes {
    sender + BE32(bundleID) + BE16(index)
  }

  lemma NamesDiffer(sender: NodeID, bundleID: uint32, index: uint16, sender': NodeID, bundleID': uint32, index': uint16)
    requires (sender, bundleID, index) != (sender', bundleID', index')
    ensures Named(sender, bundleID, index) != Named(sender', bundleID', index')
  {
    var p, q := Named(sender, bundleID, index), Named(sender', bundleID', index');
    assert p[..8] == sender && p[8..12] == BE32(bundleID) && p[12..] == BE16(index);
    assert q[..8] == sender' && q[8..12] == BE32(bundleID') && q[12..] == BE16(index');
    BE32RoundTrip(bundleID, BE32(bundleID));
    BE32RoundTrip(bundleID', BE32(bundleID'));
    BE16RoundTrip(index, BE16(index));
    BE16RoundTrip(index', BE16(index'));
  }

  // Eight words of this value.
  function Filled(v: byte): Digest256 {
    seq(32, i => if i % 4 == 3 then v else 0)
  }

  // Three in every word under one name, nothing anywhere else.
  function Telling(name: bytes): Hash {
    (b: bytes) => if b == name || (|b| == 36 && b[..32] == Filled(3)) then Filled(3) else Filled(0)
  }

  lemma WordOfFilled(v: byte, i: nat)
    requires i < 8
    ensures Word(Filled(v), i) == v
  {
    var w := Filled(v)[4 * i..4 * i + 4];
    assert w[0] == 0 && w[1] == 0 && w[2] == 0 && w[3] == v;
    assert w[..2] == [0, 0] && w[2..] == [0, v];
  }

  // What is drawn under the telling hash, with the seed of the name and with any other.
  lemma DrawsAreTold(name: bytes, v: byte, t: nat)
    requires (v == 3 || v == 0) && |name| == 14
    ensures Draw(Telling(name), Filled(v), t) == v
  {
    var b := Filled(v) + BE32(CounterFor(t / 8));
    assert b[..32] == Filled(v) && Filled(3)[3] == 3 && Filled(0)[3] == 0;
    WordOfFilled(v, t % 8);
  }

  lemma BitsOfThree()
    ensures Bit(3, 0) && Bit(3, 1)
  {
    assert Pow2(1) == 2;
  }

  lemma BitsOfZero(j: nat)
    ensures !Bit(0, j)
  {
  }

  /** No two symbols share a mask for want of being told apart: for any two different senders, bundles or indices some
      hash gives masks that differ, whatever the number of source symbols, from two on. */
  lemma MasksCanDiffer(sender: NodeID, bundleID: uint32, index: uint16, sender': NodeID, bundleID': uint32,
                       index': uint16, k: nat) returns (hash: Hash)
    requires (sender, bundleID, index) != (sender', bundleID', index') && k >= 2
    ensures RepairMask(hash, sender, bundleID, index, k) != RepairMask(hash, sender', bundleID', index', k)
  {
    var name, other := Named(sender, bundleID, index), Named(sender', bundleID', index');
    NamesDiffer(sender, bundleID, index, sender', bundleID', index');
    hash := Telling(name);
    assert Seed(hash, sender, bundleID, index) == Filled(3) && Seed(hash, sender', bundleID', index') == Filled(0);
    forall t: nat
      ensures Draw(hash, Filled(3), t) == 3 && Draw(hash, Filled(0), t) == 0
    {
      DrawsAreTold(name, 3, t);
      DrawsAreTold(name, 0, t);
    }
    hide Draw, Seed, Telling, Bit;
    BitsOfThree();
    assert DrawnMask(hash, Filled(3), k)[0] && DrawnMask(hash, Filled(3), k)[1] && !NoBits(k)[0];
    forall i | 0 <= i < k
      ensures !DrawnMask(hash, Filled(0), k)[i]
    {
      BitsOfZero(i % 32);
    }
    assert DrawnMask(hash, Filled(0), k) == NoBits(k);
  }

  // Zeros, then c in the last byte of word d.
  function Lone(d: nat, c: byte): Digest256 {
    seq(32, i => if i == 4 * d + 3 then c else 0)
  }

  lemma WordOfLone(d: nat, c: byte, i: nat)
    requires i < 8
    ensures Word(Lone(d, c), i) == if i == d then c else 0
  {
    var w := Lone(d, c)[4 * i..4 * i + 4];
    var v: byte := if i == d then c else 0;
    assert 4 * i + 3 == 4 * d + 3 <==> i == d;
    assert w[0] == 0 && w[1] == 0 && w[2] == 0 && w[3] == v;
    assert w[..2] == [0, 0] && w[2..] == [0, v];
  }

  /** Of a draw that comes up empty any source may be the one put in: each is what some hash picks. */
  lemma AnyLoneMemberIsPossible(sender: NodeID, bundleID: uint32, index: uint16, k: nat, c: nat) returns (hash: Hash)
    requires 2 <= k <= MAX_K && c < k
    ensures RepairMask(hash, sender, bundleID, index, k) == Unit(k, c)
  {
    var d: nat := if k <= 32 then 1 else 2;
    hash := Constantly(Lone(d, c));
    LonePicked(Seed(hash, sender, bundleID, index), k, d, c);
    hide *;
    EmptyDraw(hash, sender, bundleID, index, k, c);
  }

  lemma LonePicked(seed: Digest256, k: nat, d: nat, c: nat)
    requires 2 <= k <= MAX_K && c < k && d == if k <= 32 then 1 else 2
    ensures var hash := Constantly(Lone(d, c));
            DrawnMask(hash, seed, k) == NoBits(k) && Draw(hash, seed, (k + 31) / 32) == c
  {
    hide Draw, Bit, Constantly, Lone;
    var hash := Constantly(Lone(d, c));
    assert (k + 31) / 32 == d;
    LoneDraws(seed, d, c, d);
    forall batch: nat | 32 * batch < k
      ensures Draw(hash, seed, batch) == 0
    {
      LoneDraws(seed, d, c, batch);
    }
    NothingDrawn(hash, seed, k);
  }

  lemma EmptyDraw(hash: Hash, sender: NodeID, bundleID: uint32, index: uint16, k: nat, c: nat)
    requires 2 <= k && c < k && c < 0x1_0000_0000
    requires var seed := Seed(hash, sender, bundleID, index);
             DrawnMask(hash, seed, k) == NoBits(k) && Draw(hash, seed, (k + 31) / 32) == c
    ensures RepairMask(hash, sender, bundleID, index, k) == Unit(k, c)
  {
    PickOfSmall(c, k);
    hide Draw, Seed, DrawnMask, NoBits, Unit, Pick;
  }

  lemma PickOfSmall(c: nat, k: nat)
    requires c < k && c < 0x1_0000_0000
    ensures Pick(c, k) == c
  {
  }

  function Constantly(d: Digest256): Hash {
    (b: bytes) => d
  }

  lemma LoneDraws(seed: Digest256, d: nat, c: byte, t: nat)
    requires t < 8
    ensures Draw(Constantly(Lone(d, c)), seed, t) == if t == d then c else 0
  {
    hide Lone;
    WordOfLone(d, c, t);
  }

  lemma NothingDrawn(hash: Hash, seed: Digest256, k: nat)
    requires forall batch: nat :: 32 * batch < k ==> Draw(hash, seed, batch) == 0
    ensures DrawnMask(hash, seed, k) == NoBits(k)
  {
    hide Draw, Bit;
    forall i | 0 <= i < k
      ensures !DrawnMask(hash, seed, k)[i]
    {
      assert 32 * (i / 32) < k;
      BitsOfZero(i % 32);
    }
  }

  /** Nor do two blocks of the generator coincide for want of being told apart: two seeds, or two counters. */
  lemma BlocksCanDiffer(seed: Digest256, n: nat, seed': Digest256, n': nat) returns (hash: Hash)
    requires n < 0x1_0000_0000 && n' < 0x1_0000_0000 && (seed, n) != (seed', n')
    ensures Block(hash, seed, n) != Block(hash, seed', n')
  {
    var p, q := seed + BE32(n), seed' + BE32(n');
    CountersDiffer(seed, n, seed', n');
    hide BE32;
    assert CounterFor(n) == n && CounterFor(n') == n';
    hash := (b: bytes) => if b == p then Filled(3) else Filled(0);
    assert Filled(3)[3] == 3 && Filled(0)[3] == 0;
  }

  lemma CountersDiffer(seed: Digest256, n: uint32, seed': Digest256, n': uint32)
    requires (seed, n) != (seed', n')
    ensures seed + BE32(n) != seed' + BE32(n')
  {
    BE32RoundTrip(n, BE32(n));
    BE32RoundTrip(n', BE32(n'));
    hide BE32, FromBE32;
    var p, q := seed + BE32(n), seed' + BE32(n');
    assert p[..32] == seed && p[32..] == BE32(n) && q[..32] == seed' && q[32..] == BE32(n');
  }

  // ---- every bit drawn is used, once -------------------------------------------------------------------------

  // The draws from t on, as they are read.
  function Written(hash: Hash, seed: Digest256, t: nat, n: nat): (b: bytes)
    ensures |b| == 4 * n
  {
    if n == 0 then [] else Written(hash, seed, t, n - 1) + BE32(Draw(hash, seed, t + n - 1))
  }

  lemma DrawIsRead(hash: Hash, seed: Digest256, n: nat, i: nat)
    requires i < 8
    ensures BE32(Draw(hash, seed, 8 * n + i)) == Block(hash, seed, n)[4 * i..4 * i + 4]
  {
    var t := 8 * n + i;
    assert t / 8 == n && t % 8 == i;
    BE32RoundTrip(0, Block(hash, seed, n)[4 * i..4 * i + 4]);
  }

  lemma {:induction false} WrittenIsABlock(hash: Hash, seed: Digest256, n: nat, i: nat)
    requires i <= 8
    ensures Written(hash, seed, 8 * n, i) == Block(hash, seed, n)[..4 * i]
  {
    if i > 0 {
      WrittenIsABlock(hash, seed, n, i - 1);
      var block := Block(hash, seed, n);
      DrawIsRead(hash, seed, n, i - 1);
      hide BE32, FromBE32, Draw;
      assert block[..4 * i] == block[..4 * (i - 1)] + block[4 * (i - 1)..4 * i];
    }
  }

  /** Eight draws in a row read out one block of the generator, byte for byte. */
  lemma EightDrawsAreABlock(hash: Hash, seed: Digest256, n: nat)
    ensures Written(hash, seed, 8 * n, 8) == Block(hash, seed, n)
  {
    WrittenIsABlock(hash, seed, n, 8);
  }

  // The number whose binary digits these are, lowest first.
  function Number(bits: seq<bool>): nat {
    if bits == [] then 0
    else Number(bits[..|bits| - 1]) + if bits[|bits| - 1] then Pow2(|bits| - 1) else 0
  }

  lemma OneBitMore(v: nat, n: nat)
    ensures Rem(v, Pow2(n + 1)) == Rem(v, Pow2(n)) + if Bit(v, n) then Pow2(n) else 0
  {
    var p := Pow2(n);
    var q, r := Quot(v, p), Rem(v, p);
    QuotRem(v, p);
    var h, b := q / 2, q % 2;
    assert v == h * (2 * p) + (b * p + r) by {
      assert q * p == (2 * h + b) * p;
    }
    assert b * p + r < 2 * p;
    hide Quot, Rem;
    Euclid(h, b * p + r, 2 * p);
  }

  lemma {:induction false} BitsOfADraw(mask: Mask, v: nat, from: nat, n: nat)
    requires from + n <= |mask| && forall j :: 0 <= j < n ==> mask[from + j] == Bit(v, j)
    ensures Number(mask[from..from + n]) == Rem(v, Pow2(n))
  {
    if n > 0 {
      BitsOfADraw(mask, v, from, n - 1);
      OneBitMore(v, n - 1);
      assert mask[from..from + n][..n - 1] == mask[from..from + n - 1];
    }
  }

  lemma BitOfBatch(hash: Hash, seed: Digest256, k: nat, batch: nat, j: nat)
    requires j < 32 && 32 * batch + j < k
    ensures DrawnMask(hash, seed, k)[32 * batch + j] == Bit(Draw(hash, seed, batch), j)
  {
    hide Draw, Bit;
    BatchOf(batch, 32 * batch + j);
  }

  /** The members drawn for thirty-two sources in a row are the binary digits of one draw, lowest first, and those of
      a last, shorter batch its lowest ones. */
  lemma BatchIsADraw(hash: Hash, seed: Digest256, k: nat, batch: nat, n: nat)
    requires n <= 32 && 32 * batch + n <= k
    ensures Number(DrawnMask(hash, seed, k)[32 * batch..32 * batch + n]) == Rem(Draw(hash, seed, batch), Pow2(n))
  {
    hide *;
    var mask, v, from := DrawnMask(hash, seed, k), Draw(hash, seed, batch), 32 * batch;
    forall j | 0 <= j < n
      ensures mask[from + j] == Bit(v, j)
    {
      BitOfBatch(hash, seed, k, batch, j);
    }
    BitsOfADraw(mask, v, from, n);
  }
}
