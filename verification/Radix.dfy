/** Digit strings in any base, most significant first, and the accumulator that turns one base into another. */
module Radix {
  import opened Bytes

  // ---- quotient and remainder ------------------------------------------------------------------------------

  function Quot(v: nat, base: nat): nat
    requires base > 0
  {
    v / base
  }

  function Rem(v: nat, base: nat): (r: nat)
    requires base > 0
    ensures r < base
  {
    v % base
  }

  lemma QuotRem(v: nat, base: nat)
    requires base > 0
    ensures v == Quot(v, base) * base + Rem(v, base)
  {
  }

  lemma Multiples(k: int, base: nat)
    ensures k >= 1 ==> k * base >= base
    ensures k <= -1 ==> k * base + base <= 0
  {
  }

  // A quotient and a remainder are the only ones.
  lemma Euclid(q: nat, r: nat, base: nat)
    requires r < base
    ensures Quot(q * base + r, base) == q && Rem(q * base + r, base) == r
  {
    var v := q * base + r;
    QuotRem(v, base);
    hide Quot, Rem;
    var k := Quot(v, base) - q;
    assert k * base == Quot(v, base) * base - q * base;
    Multiples(k, base);
  }

  lemma QuotIsBelow(v: nat, base: nat, bound: nat)
    requires base > 0 && v < bound * base
    ensures Quot(v, base) < bound
  {
    QuotRem(v, base);
    hide Quot, Rem;
    var k := Quot(v, base) - bound;
    assert k * base == Quot(v, base) * base - bound * base;
    Multiples(k, base);
  }

  // ---- digit strings ---------------------------------------------------------------------------------------

  function Power(base: nat, n: nat): nat {
    if n == 0 then 1 else Power(base, n - 1) * base
  }

  function Value(digits: seq<nat>, base: nat): nat {
    if digits == [] then 0 else Value(digits[..|digits| - 1], base) * base + digits[|digits| - 1]
  }

  function Digits(v: nat, base: nat, n: nat): (ds: seq<nat>)
    requires base > 0
    ensures |ds| == n && Within(ds, base)
    decreases n
  {
    hide Quot, Rem;
    if n == 0 then [] else Digits(Quot(v, base), base, n - 1) + [Rem(v, base)]
  }

  ghost predicate Within(digits: seq<nat>, base: nat) {
    forall i :: 0 <= i < |digits| ==> digits[i] < base
  }

  lemma RoomForOneMore(v: nat, bound: nat, d: nat, base: nat)
    requires v < bound && d < base
    ensures v * base + d < bound * base
  {
    var k := bound - v;
    assert k * base == bound * base - v * base;
    Multiples(k, base);
  }

  lemma {:induction false} ValueIsBounded(digits: seq<nat>, base: nat)
    requires Within(digits, base)
    ensures Value(digits, base) < Power(base, |digits|)
  {
    if digits != [] {
      var init := digits[..|digits| - 1];
      ValueIsBounded(init, base);
      RoomForOneMore(Value(init, base), Power(base, |init|), digits[|digits| - 1], base);
    }
  }

  /** Writing out a value and reading it back. */
  lemma {:induction false} ValueOfDigits(v: nat, base: nat, n: nat)
    requires base > 0 && v < Power(base, n)
    ensures Value(Digits(v, base, n), base) == v
    decreases n
  {
    if n > 0 {
      hide Quot, Rem;
      QuotIsBelow(v, base, Power(base, n - 1));
      ValueOfDigits(Quot(v, base), base, n - 1);
      var ds := Digits(v, base, n);
      assert ds[..n - 1] == Digits(Quot(v, base), base, n - 1);
      QuotRem(v, base);
    }
  }

  /** Reading a digit string and writing it out again. */
  lemma {:induction false} DigitsOfValue(digits: seq<nat>, base: nat)
    requires base > 0 && Within(digits, base)
    ensures Digits(Value(digits, base), base, |digits|) == digits
  {
    if digits != [] {
      hide Quot, Rem;
      var init, last := digits[..|digits| - 1], digits[|digits| - 1];
      DigitsOfValue(init, base);
      Euclid(Value(init, base), last, base);
      assert digits == init + [last];
    }
  }

  lemma ValueAppend(digits: seq<nat>, d: nat, base: nat)
    ensures Value(digits + [d], base) == Value(digits, base) * base + d
  {
    assert (digits + [d])[..|digits|] == digits;
  }

  // ---- powers of two ---------------------------------------------------------------------------------------

  lemma {:induction false} Pow2Adds(a: nat, b: nat)
    ensures Pow2(a + b) == Pow2(a) * Pow2(b)
  {
    if a > 0 {
      Pow2Adds(a - 1, b);
      assert Pow2(a + b) == 2 * Pow2(a - 1 + b);
      Associative(2, Pow2(a - 1), Pow2(b));
    }
  }

  lemma Associative(a: int, b: int, c: int)
    ensures a * b * c == a * (b * c)
  {
  }

  lemma Regroup(h: int, l: int, p: int, q: int)
    ensures (h * p + l) * q == h * (p * q) + l * q
  {
    Associative(h, p, q);
    assert (h * p + l) * q == h * p * q + l * q;
  }

  // Dividing by a product, and by one factor and then the other.
  lemma RemOfProduct(v: nat, p: nat, q: nat)
    requires p > 0 && q > 0 && p * q > 0
    ensures Rem(v, p * q) == Rem(Quot(v, p), q) * p + Rem(v, p)
    ensures Rem(Rem(v, p * q), p) == Rem(v, p)
  {
    hide Quot, Rem;
    var h, l := Quot(v, p), Rem(v, p);
    var hh, hl := Quot(h, q), Rem(h, q);
    QuotRem(v, p);
    QuotRem(h, q);
    RoomForOneMore(hl, q, l, p);
    Regroup(hh, hl, q, p);
    assert q * p == p * q;
    Euclid(hh, hl * p + l, p * q);
    Euclid(hl, l, p);
  }

  lemma RemOfShift(v: nat, d: nat, p: nat, q: nat)
    requires p > 0 && q > 0 && p * q > 0 && d < q
    ensures Rem(v * q + d, p * q) == Rem(v, p) * q + d
  {
    hide Quot, Rem;
    QuotRem(v, p);
    var h, l := Quot(v, p), Rem(v, p);
    Regroup(h, l, p, q);
    RoomForOneMore(l, p, d, q);
    Euclid(h, l * q + d, p * q);
  }

  // ---- the accumulator -------------------------------------------------------------------------------------

  // The low bits of an accumulator, and the k bits above them.
  function Low(acc: nat, bits: nat): nat {
    Rem(acc, Pow2(bits))
  }

  function Top(acc: nat, pending: nat, k: nat): nat
    requires k <= pending
  {
    Rem(Quot(acc, Pow2(pending - k)), Pow2(k))
  }

  // Cutting an accumulator to a wider width does not touch its low bits.
  lemma LowBitsSurvive(acc: nat, low: nat, wide: nat)
    requires low <= wide
    ensures Low(Low(acc, wide), low) == Low(acc, low)
  {
    hide Quot, Rem;
    Pow2Adds(low, wide - low);
    RemOfProduct(acc, Pow2(low), Pow2(wide - low));
  }

  // Appending k bits to an accumulator of fixed width.
  function Pushed(acc: nat, k: nat, d: nat, wide: nat): nat {
    Low(acc * Pow2(k) + d, wide)
  }

  lemma PushBits(acc: nat, pending: nat, k: nat, d: nat, wide: nat)
    requires d < Pow2(k) && pending + k <= wide
    ensures Low(Pushed(acc, k, d, wide), pending + k) == Low(acc, pending) * Pow2(k) + d
  {
    LowBitsSurvive(acc * Pow2(k) + d, pending + k, wide);
    Pow2Adds(pending, k);
    RemOfShift(acc, d, Pow2(pending), Pow2(k));
    hide Quot, Rem, Pow2;
  }

  // Taking the top k of the pending bits.
  lemma PopBits(acc: nat, pending: nat, k: nat)
    requires k <= pending
    ensures Low(acc, pending) == Top(acc, pending, k) * Pow2(pending - k) + Low(acc, pending - k)
  {
    hide Quot, Rem;
    Pow2Adds(pending - k, k);
    RemOfProduct(acc, Pow2(pending - k), Pow2(k));
  }

  // What has been read is what has been written followed by the pending bits.
  ghost predicate Carries(read: nat, written: nat, pending: nat, acc: nat) {
    read == written * Pow2(pending) + Low(acc, pending)
  }

  lemma PushCarries(read: nat, written: nat, pending: nat, acc: nat, k: nat, d: nat, wide: nat)
    requires Carries(read, written, pending, acc) && d < Pow2(k) && pending + k <= wide
    ensures Carries(read * Pow2(k) + d, written, pending + k, Pushed(acc, k, d, wide))
  {
    hide Low, Pushed;
    PushBits(acc, pending, k, d, wide);
    Pow2Adds(pending, k);
    Regroup(written, Low(acc, pending), Pow2(pending), Pow2(k));
    hide Pow2;
  }

  lemma PopCarries(read: nat, written: nat, pending: nat, acc: nat, k: nat)
    requires Carries(read, written, pending, acc) && k <= pending
    ensures Carries(read, written * Pow2(k) + Top(acc, pending, k), pending - k, acc)
  {
    hide Low, Top;
    PopBits(acc, pending, k);
    Pow2Adds(k, pending - k);
    Regroup(written, Top(acc, pending, k), Pow2(k), Pow2(pending - k));
    hide Pow2;
  }

  // A digit of k bits is read into the accumulator.
  lemma ReadDigit(ds: seq<nat>, d: nat, base: nat, written: nat, pending: nat, acc: nat, k: nat, wide: nat)
    requires base == Pow2(k) && d < base && pending + k <= wide && Carries(Value(ds, base), written, pending, acc)
    ensures Carries(Value(ds + [d], base), written, pending + k, Pushed(acc, k, d, wide))
  {
    PushCarries(Value(ds, base), written, pending, acc, k, d, wide);
    ValueAppend(ds, d, base);
    hide Carries, Pow2;
  }

  // A digit of k bits is written from the accumulator.
  lemma WriteDigit(read: nat, out: seq<nat>, base: nat, pending: nat, acc: nat, k: nat)
    requires base == Pow2(k) && k <= pending && Carries(read, Value(out, base), pending, acc)
    ensures Top(acc, pending, k) < base && Carries(read, Value(out + [Top(acc, pending, k)], base), pending - k, acc)
  {
    PopCarries(read, Value(out, base), pending, acc, k);
    ValueAppend(out, Top(acc, pending, k), base);
    hide Carries, Pow2;
  }
}
