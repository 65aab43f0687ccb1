/** Bytes, fixed-width unsigned integers and the exclusive-or group that every layer shares. */
module Bytes {

  type byte = x: int | 0 <= x < 0x100
  type uint16 = x: int | 0 <= x < 0x1_0000
  type uint32 = x: int | 0 <= x < 0x1_0000_0000
  type uint64 = x: int | 0 <= x < 0x1_0000_0000_0000_0000

  type bytes = seq<byte>

  // Eight bytes of self-certifying node identity, and the four bytes that name an area.
  type NodeID = b: bytes | |b| == 8 witness seq(8, _ => 0)
  type AreaTag = b: bytes | |b| == 4 witness seq(4, _ => 0)

  // The value of a 256-bit hash. The hash itself is a parameter of whatever needs one.
  type Digest256 = b: bytes | |b| == 32 witness seq(32, _ => 0)
  type Hash = bytes -> Digest256

  datatype Option<+T> = None | Some(value: T)

  datatype Result<+T, +E> = Ok(value: T) | Err(error: E)

  function Min(a: int, b: int): int {
    if a < b then a else b
  }

  function Max(a: int, b: int): int {
    if a < b then b else a
  }

  function Zeros(n: nat): (z: bytes)
    ensures |z| == n && forall i :: 0 <= i < n ==> z[i] == 0
  {
    seq(n, _ => 0)
  }

  // ---- exclusive or --------------------------------------------------------

  // Bit by bit, from the lowest.
  function XorNat(a: nat, b: nat): nat
    decreases a + b
  {
    if a == 0 && b == 0 then 0 else 2 * XorNat(a / 2, b / 2) + (a + b) % 2
  }

  function Pow2(n: nat): (p: nat)
    ensures p >= 1
  {
    if n == 0 then 1 else 2 * Pow2(n - 1)
  }

  lemma {:induction false} XorNatBound(a: nat, b: nat, n: nat)
    requires a < Pow2(n) && b < Pow2(n)
    ensures XorNat(a, b) < Pow2(n)
  {
    if n > 0 {
      XorNatBound(a / 2, b / 2, n - 1);
    }
  }

  // The top bits and the lowest bit of an exclusive or.
  lemma XorNatDigits(a: nat, b: nat)
    ensures XorNat(a, b) == 2 * XorNat(a / 2, b / 2) + (a + b) % 2
    ensures XorNat(a, b) / 2 == XorNat(a / 2, b / 2)
    ensures XorNat(a, b) % 2 == (a + b) % 2
  {
    assert XorNat(a, b) == 2 * XorNat(a / 2, b / 2) + (a + b) % 2;
  }

  lemma ParityAssociative(a: nat, b: nat, c: nat, ab: nat, bc: nat)
    requires ab % 2 == (a + b) % 2 && bc % 2 == (b + c) % 2
    ensures (ab + c) % 2 == (a + bc) % 2
  {
  }

  lemma {:induction false} XorNatAssociative(a: nat, b: nat, c: nat)
    ensures XorNat(XorNat(a, b), c) == XorNat(a, XorNat(b, c))
    decreases a + b + c
  {
    if a + b + c > 0 {
      var ab, bc := XorNat(a, b), XorNat(b, c);
      XorNatAssociative(a / 2, b / 2, c / 2);
      ParityAssociative(a, b, c, ab, bc) by {
        XorNatDigits(a, b);
        XorNatDigits(b, c);
      }
      calc {
        XorNat(ab, c);
        { XorNatDigits(ab, c); XorNatDigits(a, b); }
        2 * XorNat(XorNat(a / 2, b / 2), c / 2) + (ab + c) % 2;
        2 * XorNat(a / 2, XorNat(b / 2, c / 2)) + (a + bc) % 2;
        { XorNatDigits(a, bc); XorNatDigits(b, c); }
        XorNat(a, bc);
      }
    }
  }

  lemma {:induction false} XorNatUnits(a: nat)
    ensures XorNat(a, 0) == a && XorNat(0, a) == a && XorNat(a, a) == 0
  {
    if a > 0 {
      XorNatUnits(a / 2);
    }
  }

  lemma {:induction false} XorNatCommutes(a: nat, b: nat)
    ensures XorNat(a, b) == XorNat(b, a)
    decreases a + b
  {
    if a + b > 0 {
      XorNatCommutes(a / 2, b / 2);
    }
  }

  function Xor(a: byte, b: byte): byte {
    assert Pow2(8) == 256;
    XorNatBound(a, b, 8);
    XorNat(a, b)
  }

  function XorBytes(a: bytes, b: bytes): (c: bytes)
    requires |a| == |b|
    ensures |c| == |a|
  {
    seq(|a|, i requires 0 <= i < |a| => Xor(a[i], b[i]))
  }

  lemma XorBytesLaws(a: bytes, b: bytes, c: bytes)
    requires |a| == |b| == |c|
    ensures XorBytes(a, Zeros(|a|)) == a && XorBytes(Zeros(|a|), a) == a
    ensures XorBytes(a, a) == Zeros(|a|)
    ensures XorBytes(a, b) == XorBytes(b, a)
    ensures XorBytes(XorBytes(a, b), c) == XorBytes(a, XorBytes(b, c))
  {
    forall i | 0 <= i < |a|
      ensures Xor(a[i], 0) == a[i] && Xor(0, a[i]) == a[i] && Xor(a[i], a[i]) == 0
      ensures Xor(a[i], b[i]) == Xor(b[i], a[i])
      ensures Xor(Xor(a[i], b[i]), c[i]) == Xor(a[i], Xor(b[i], c[i]))
    {
      XorNatUnits(a[i]);
      XorNatCommutes(a[i], b[i]);
      XorNatAssociative(a[i], b[i], c[i]);
    }
  }

  lemma XorShuffle(u: bytes, v: bytes, s: bytes)
    requires |u| == |v| == |s|
    ensures XorBytes(XorBytes(u, s), v) == XorBytes(XorBytes(u, v), s)
    ensures XorBytes(u, XorBytes(v, s)) == XorBytes(XorBytes(u, v), s)
    ensures XorBytes(XorBytes(u, s), s) == u
    ensures XorBytes(XorBytes(u, s), XorBytes(v, s)) == XorBytes(u, v)
  {
    XorBytesLaws(u, v, s);
    XorBytesLaws(u, s, v);
    XorBytesLaws(s, v, s);
    XorBytesLaws(u, s, s);
    XorBytesLaws(s, s, s);
    assert XorBytes(XorBytes(u, s), s) == u;
    calc {
      XorBytes(XorBytes(u, s), XorBytes(v, s));
      { XorBytesLaws(XorBytes(u, s), XorBytes(v, s), s); XorBytesLaws(v, s, s); }
      XorBytes(XorBytes(u, s), XorBytes(s, v));
      { XorBytesLaws(XorBytes(u, s), s, v); }
      XorBytes(XorBytes(XorBytes(u, s), s), v);
    }
  }

  // ---- big-endian integers -------------------------------------------------

  function BE16(n: uint16): (b: bytes)
    ensures |b| == 2
  {
    [n / 0x100, n % 0x100]
  }

  function BE32(n: uint32): (b: bytes)
    ensures |b| == 4
  {
    BE16(n / 0x1_0000) + BE16(n % 0x1_0000)
  }

  function FromBE16(b: bytes): (n: uint16)
    requires |b| == 2
  {
    var hi: int, lo: int := b[0], b[1];
    hi * 0x100 + lo
  }

  function FromBE32(b: bytes): (n: uint32)
    requires |b| == 4
  {
    var hi: int, lo: int := FromBE16(b[..2]), FromBE16(b[2..]);
    hi * 0x1_0000 + lo
  }

  lemma BE16RoundTrip(n: uint16, b: bytes)
    requires |b| == 2
    ensures FromBE16(BE16(n)) == n
    ensures BE16(FromBE16(b)) == b
  {
  }

  lemma BE32RoundTrip(n: uint32, b: bytes)
    requires |b| == 4
    ensures FromBE32(BE32(n)) == n
    ensures BE32(FromBE32(b)) == b
  {
    BE16RoundTrip(n / 0x1_0000, b[..2]);
    BE16RoundTrip(n % 0x1_0000, b[2..]);
    assert BE32(n)[..2] == BE16(n / 0x1_0000) && BE32(n)[2..] == BE16(n % 0x1_0000);
    assert b == b[..2] + b[2..];
  }
}
