/** Crockford base 32: the rendering of byte strings people type and read out. */
module Base32 {
  import opened Bytes
  import opened Radix

  // ---- the alphabet ----------------------------------------------------------------------------------------

  function At(c: char, i: nat): char
    requires c as int + i < 0x80
  {
    (c as int + i) as char
  }

  // Ten digits and the capitals without I, L, O and U.
  function Letter(d: nat): char
    requires d < 32
  {
    if d < 10 then At('0', d)
    else if d < 18 then At('A', d - 10)
    else if d < 20 then At('J', d - 18)
    else if d < 22 then At('M', d - 20)
    else if d < 27 then At('P', d - 22)
    else At('V', d - 27)
  }

  function Upper(c: char): char {
    if 'a' <= c <= 'z' then (c as int - 32) as char else c
  }

  function Between(c: char, low: char, high: char, first: nat): Option<nat> {
    if low <= c <= high then Some(first + (c as int - low as int)) else None
  }

  // The forgiving reading: either case, and the look-alikes of one and zero.
  function Symbol(c: char): Option<nat> {
    var u := Upper(c);
    if u == 'I' || u == 'L' then Some(1)
    else if u == 'O' then Some(0)
    else if '0' <= u <= '9' then Between(u, '0', '9', 0)
    else if u <= 'H' then Between(u, 'A', 'H', 10)
    else if u <= 'K' then Between(u, 'J', 'K', 18)
    else if u <= 'N' then Between(u, 'M', 'N', 20)
    else if u <= 'T' then Between(u, 'P', 'T', 22)
    else Between(u, 'V', 'Z', 27)
  }

  lemma LetterReadsBack(d: nat)
    requires d < 32
    ensures Symbol(Letter(d)) == Some(d) && !Separator(Letter(d))
  {
  }

  predicate Separator(c: char) {
    c == '-' || c == ' ' || c == '\t'
  }

  function Spell(ds: seq<nat>): string
    requires Within(ds, 32)
  {
    seq(|ds|, i requires 0 <= i < |ds| => Letter(ds[i]))
  }

  // The symbols of a string without its separators; None if a character is not one.
  function Symbols(s: string): (r: Option<seq<nat>>)
    ensures r.Some? ==> Within(r.value, 32)
  {
    if s == "" then Some([])
    else
      var init, c := Symbols(s[..|s| - 1]), s[|s| - 1];
      if init.None? || (!Separator(c) && Symbol(c).None?) then None
      else if Separator(c) then init
      else Some(init.value + [Symbol(c).value])
  }

  lemma {:induction false} SymbolsOfSpell(ds: seq<nat>)
    requires Within(ds, 32)
    ensures Symbols(Spell(ds)) == Some(ds)
  {
    if ds != [] {
      var init, last := ds[..|ds| - 1], ds[|ds| - 1];
      SymbolsOfSpell(init);
      LetterReadsBack(last);
      assert Spell(ds)[..|ds| - 1] == Spell(init);
      assert ds == init + [last];
    }
  }

  // ---- regrouping bits -------------------------------------------------------------------------------------

  function Base32Len(n: nat): nat {
    (n * 8 + 4) / 5
  }

  // Zero bits added to fill the last symbol.
  function Padding(n: nat): (pad: nat)
    ensures pad < 5 && 5 * Base32Len(n) == 8 * n + pad
  {
    5 * Base32Len(n) - 8 * n
  }

  function Encoded(b: bytes): (ds: seq<nat>)
    ensures |ds| == Base32Len(|b|) && Within(ds, 32)
  {
    Digits(Value(b, 256) * Pow2(Padding(|b|)), 32, Base32Len(|b|))
  }

  // Bits left over after the last whole byte.
  function Stray(k: nat): (bits: nat)
    ensures bits < 8 && 5 * k == 8 * (5 * k / 8) + bits
  {
    5 * k % 8
  }

  // Symbols make bytes if there are any and the left-over bits are zero.
  function Decoded(ds: seq<nat>): Option<bytes> {
    var v, stray := Value(ds, 32), Stray(|ds|);
    if ds == [] || Low(v, stray) != 0 then None
    else Some(Digits(Quot(v, Pow2(stray)), 256, 5 * |ds| / 8))
  }

  function Parsed(s: string): Option<bytes> {
    if Symbols(s).None? then None else Decoded(Symbols(s).value)
  }

  // ---- the loops -------------------------------------------------------------------------------------------

  lemma Exhausted(read: nat, written: nat, acc: nat)
    requires Carries(read, written, 0, acc)
    ensures read == written
  {
  }

  // The loop over the bytes: every whole symbol is out and fewer than five bits are pending.
  method WholeSymbols(b: bytes) returns (out: seq<nat>, acc: nat, bits: nat)
    ensures bits < 5 && 5 * |out| + bits == 8 * |b| && Within(out, 32)
    ensures Carries(Value(b, 256), Value(out, 32), bits, acc)
  {
    hide Carries, Top, Pushed, Value;
    out, acc, bits := [], 0, 0;
    NoBytesYet(b);
    for i := 0 to |b|
      invariant bits < 5 && 5 * |out| + bits == 8 * i && Within(out, 32)
      invariant Carries(Value(b[..i], 256), Value(out, 32), bits, acc)
    {
      assert b[..i + 1] == b[..i] + [b[i]];
      ReadDigit(b[..i], b[i], 256, Value(out, 32), bits, acc, 8, 16);
      acc := Pushed(acc, 8, b[i], 16);
      bits := bits + 8;
      while bits >= 5
        invariant bits < 13 && 5 * |out| + bits == 8 * (i + 1) && Within(out, 32)
        invariant Carries(Value(b[..i + 1], 256), Value(out, 32), bits, acc)
        decreases bits
      {
        WriteDigit(Value(b[..i + 1], 256), out, 32, bits, acc, 5);
        out := out + [Top(acc, bits, 5)];
        bits := bits - 5;
      }
    }
    assert b[..|b|] == b;
  }

  method EncodeBase32(b: bytes) returns (s: string)
    ensures s == Spell(Encoded(b))
  {
    hide Carries, Top, Pushed, Value, Letter;
    if |b| == 0 {
      return "";
    }
    var out, acc, bits := WholeSymbols(b);
    if bits > 0 {
      LastSymbol(Value(b, 256), out, bits, acc);
      out := out + [Top(Pushed(acc, 5 - bits, 0, 16), 5, 5)];
    } else {
      NoLastSymbol(Value(b, 256), out, acc);
    }
    assert |out| == Base32Len(|b|);
    DigitsOfValue(out, 32);
    s := Spell(out);
  }

  lemma NoBytesYet(b: bytes)
    ensures Carries(Value(b[..0], 256), Value([], 32), 0, 0)
  {
    assert b[..0] == [];
  }

  lemma LastSymbol(v: nat, out: seq<nat>, bits: nat, acc: nat)
    requires 0 < bits < 5 && Carries(v, Value(out, 32), bits, acc) && Within(out, 32)
    ensures var d := Top(Pushed(acc, 5 - bits, 0, 16), 5, 5);
            d < 32 && Value(out + [d], 32) == v * Pow2(5 - bits) && Within(out + [d], 32)
  {
    hide Carries, Top, Pushed;
    PushCarries(v, Value(out, 32), bits, acc, 5 - bits, 0, 16);
    WriteDigit(v * Pow2(5 - bits), out, 32, 5, Pushed(acc, 5 - bits, 0, 16), 5);
    var d := Top(Pushed(acc, 5 - bits, 0, 16), 5, 5);
    Exhausted(v * Pow2(5 - bits), Value(out + [d], 32), Pushed(acc, 5 - bits, 0, 16));
  }

  lemma NoLastSymbol(v: nat, out: seq<nat>, acc: nat)
    requires Carries(v, Value(out, 32), 0, acc)
    ensures Value(out, 32) == v * Pow2(0)
  {
    Exhausted(v, Value(out, 32), acc);
  }

  datatype Error = InvalidCharacter | Empty | NonCanonical

  method Cleaned(s: string) returns (r: Result<seq<nat>, Error>)
    ensures r == if Symbols(s).None? then Err(InvalidCharacter) else Ok(Symbols(s).value)
  {
    hide Symbol;
    var clean: seq<nat> := [];
    for i := 0 to |s|
      invariant Symbols(s[..i]) == Some(clean)
    {
      assert s[..i + 1][..i] == s[..i];
      if !Separator(s[i]) {
        if Symbol(s[i]).None? {
          PrefixFails(s, i + 1);
          return Err(InvalidCharacter);
        }
        clean := clean + [Symbol(s[i]).value];
      }
    }
    assert s[..|s|] == s;
    return Ok(clean);
  }

  lemma {:induction false} PrefixFails(s: string, n: nat)
    requires n <= |s| && Symbols(s[..n]).None?
    ensures Symbols(s).None?
  {
    if n < |s| {
      assert s[..|s| - 1][..n] == s[..n];
      PrefixFails(s[..|s| - 1], n);
    } else {
      assert s[..n] == s;
    }
  }

  lemma WhatIsPending(read: nat, written: nat, pending: nat, acc: nat)
    requires Carries(read, written, pending, acc)
    ensures Quot(read, Pow2(pending)) == written && Low(read, pending) == Low(acc, pending)
  {
    Euclid(written, Low(acc, pending), Pow2(pending));
  }

  // The loop over the symbols: every whole byte is out and fewer than eight bits are pending.
  method WholeBytes(ds: seq<nat>) returns (out: bytes, acc: nat, bits: nat)
    requires Within(ds, 32)
    ensures bits < 8 && 8 * |out| + bits == 5 * |ds|
    ensures Carries(Value(ds, 32), Value(out, 256), bits, acc)
  {
    hide Carries, Top, Pushed, Value;
    out, acc, bits := [], 0, 0;
    NoSymbolsYet(ds);
    for i := 0 to |ds|
      invariant bits < 8 && 8 * |out| + bits == 5 * i
      invariant Carries(Value(ds[..i], 32), Value(out, 256), bits, acc)
    {
      assert ds[..i + 1] == ds[..i] + [ds[i]];
      ReadDigit(ds[..i], ds[i], 32, Value(out, 256), bits, acc, 5, 16);
      acc := Pushed(acc, 5, ds[i], 16);
      bits := bits + 5;
      if bits >= 8 {
        WriteDigit(Value(ds[..i + 1], 32), out, 256, bits, acc, 8);
        out := out + [Top(acc, bits, 8)];
        bits := bits - 8;
      }
    }
    assert ds[..|ds|] == ds;
  }

  // Symbols already known to be good.
  method DecodeSymbols(ds: seq<nat>) returns (r: Option<bytes>)
    requires Within(ds, 32) && ds != []
    ensures r == Decoded(ds)
  {
    hide Carries, Top, Pushed, Value, Low, Quot;
    var out, acc, bits := WholeBytes(ds);
    WhatIsPending(Value(ds, 32), Value(out, 256), bits, acc);
    assert bits == Stray(|ds|);
    if bits > 0 && Low(acc, bits) != 0 {
      return None;
    }
    NothingInNoBits(acc);
    DigitsOfValue(out, 256);
    return Some(out);
  }

  method DecodeBase32(s: string) returns (r: Result<bytes, Error>)
    ensures match r
            case Ok(b) => Parsed(s) == Some(b)
            case Err(InvalidCharacter) => Symbols(s).None?
            case Err(Empty) => Symbols(s) == Some([])
            case Err(NonCanonical) => Symbols(s).Some? && Symbols(s).value != [] && Parsed(s).None?
  {
    hide Symbols, Decoded;
    var cleaned := Cleaned(s);
    if cleaned.Err? {
      return Err(InvalidCharacter);
    }
    if |cleaned.value| == 0 {
      return Err(Empty);
    }
    var decoded := DecodeSymbols(cleaned.value);
    r := if decoded.Some? then Ok(decoded.value) else Err(NonCanonical);
  }

  lemma NothingInNoBits(acc: nat)
    ensures Low(acc, 0) == 0
  {
  }

  lemma NoSymbolsYet(ds: seq<nat>)
    ensures Carries(Value(ds[..0], 32), Value([], 256), 0, 0)
  {
    assert ds[..0] == [];
  }

  // ---- round trips -----------------------------------------------------------------------------------------

  lemma {:induction false} PowerOfPow2(w: nat, n: nat)
    ensures Power(Pow2(w), n) == Pow2(w * n)
  {
    if n > 0 {
      PowerOfPow2(w, n - 1);
      assert w * n == w * (n - 1) + w;
      Pow2Adds(w * (n - 1), w);
    }
  }

  lemma Powers(n: nat)
    ensures Power(256, n) == Pow2(8 * n) && Power(32, n) == Pow2(5 * n)
  {
    assert Pow2(8) == 256 && Pow2(5) == 32;
    PowerOfPow2(8, n);
    PowerOfPow2(5, n);
  }

  // A value of 8n bits still fits when it is moved up.
  lemma ShiftedFits(v: nat, bits: nat, pad: nat)
    requires v < Pow2(bits)
    ensures v * Pow2(pad) < Pow2(bits + pad)
  {
    hide Pow2;
    Pow2Adds(bits, pad);
    RoomForOneMore(v, Pow2(bits), 0, Pow2(pad));
  }

  // The padded value still fits the symbols it is given.
  lemma PaddedFits(b: bytes)
    ensures Value(b, 256) * Pow2(Padding(|b|)) < Power(32, Base32Len(|b|))
  {
    hide Value, Power, Pow2, Padding, Base32Len;
    Powers(|b|);
    Powers(Base32Len(|b|));
    ValueIsBounded(b, 256);
    ShiftedFits(Value(b, 256), 8 * |b|, Padding(|b|));
  }

  lemma EncodedKeepsTheValue(b: bytes)
    ensures Value(Encoded(b), 32) == Value(b, 256) * Pow2(Padding(|b|))
  {
    hide Value, Digits, Power, Padding;
    PaddedFits(b);
    ValueOfDigits(Value(b, 256) * Pow2(Padding(|b|)), 32, Base32Len(|b|));
  }

  lemma DecodedOfEncoded(b: bytes)
    requires b != []
    ensures Decoded(Encoded(b)) == Some(b)
  {
    var ds := Encoded(b);
    EncodedKeepsTheValue(b);
    assert Stray(|ds|) == Padding(|b|) && 5 * |ds| / 8 == |b|;
    Euclid(Value(b, 256), 0, Pow2(Padding(|b|)));
    hide Quot, Rem, Value;
    DigitsOfValue(b, 256);
  }

  /** Decoding undoes encoding for every byte string but the empty one. */
  lemma Base32RoundTrip(b: bytes)
    ensures Parsed(Spell(Encoded(b))) == if b == [] then None else Some(b)
  {
    SymbolsOfSpell(Encoded(b));
    hide Symbols, Encoded, Decoded, Spell;
    if b != [] {
      DecodedOfEncoded(b);
    } else {
      NothingEncoded();
    }
  }

  lemma NothingEncoded()
    ensures Encoded([]) == [] && Decoded([]) == None
  {
  }

  lemma EncodedOfDecoded(ds: seq<nat>)
    requires Within(ds, 32) && Decoded(ds).Some? && |ds| == Base32Len(5 * |ds| / 8)
    ensures Encoded(Decoded(ds).value) == ds
  {
    var b, v, stray := Decoded(ds).value, Value(ds, 32), Stray(|ds|);
    assert Padding(|b|) == stray;
    QuotRem(v, Pow2(stray));
    ByteValueFits(ds);
    hide Quot, Rem, Value;
    ValueOfDigits(Quot(v, Pow2(stray)), 256, 5 * |ds| / 8);
    DigitsOfValue(ds, 32);
  }

  lemma ByteValueFits(ds: seq<nat>)
    requires Within(ds, 32)
    ensures Quot(Value(ds, 32), Pow2(Stray(|ds|))) < Power(256, 5 * |ds| / 8)
  {
    var n, stray := 5 * |ds| / 8, Stray(|ds|);
    hide Value, Power, Pow2, Quot, Stray;
    ValueIsBounded(ds, 32);
    Powers(|ds|);
    Powers(n);
    Pow2Adds(8 * n, stray);
    QuotIsBelow(Value(ds, 32), Pow2(stray), Pow2(8 * n));
  }

  lemma WholeLengths(k: nat)
    ensures k == Base32Len(5 * k / 8) <==> k % 8 !in {1, 3, 6}
  {
    var q, r := k / 8, k % 8;
    assert 5 * k == 8 * (5 * q) + 5 * r;
    assert 5 * k / 8 == 5 * q + 5 * r / 8;
  }

  /** An accepted string re-encodes to its normal form exactly when it has as many symbols as its bytes need;
      one symbol more, all zero bits, is accepted too, at lengths that leave one, three or six over eights. */
  lemma NormalFormIsCanonical(s: string)
    requires Parsed(s).Some?
    ensures var ds, b := Symbols(s).value, Parsed(s).value;
            && (Spell(Encoded(b)) == Spell(ds) <==> |ds| == Base32Len(|b|))
            && (|ds| == Base32Len(|b|) <==> |ds| % 8 !in {1, 3, 6})
  {
    var ds, b := Symbols(s).value, Parsed(s).value;
    WholeLengths(|ds|);
    assert |Spell(Encoded(b))| == Base32Len(|b|) && |Spell(ds)| == |ds|;
    if |ds| == Base32Len(|b|) {
      hide Symbols;
      EncodedOfDecoded(ds);
    }
  }

  /** And such a longer form there is, for every byte string whose encoding ends in two padding bits or fewer. */
  lemma OneZeroMoreIsAccepted(b: bytes)
    requires b != [] && Padding(|b|) <= 2
    ensures Decoded(Encoded(b) + [0]) == Some(b)
  {
    var ds, pad, v := Encoded(b), Padding(|b|), Value(b, 256);
    EncodedKeepsTheValue(b);
    ValueAppend(ds, 0, 32);
    Pow2Adds(pad, 5);
    assert Pow2(5) == 32;
    Associative(v, Pow2(pad), 32);
    assert Stray(|ds| + 1) == pad + 5 && 5 * (|ds| + 1) / 8 == |b|;
    Euclid(v, 0, Pow2(pad + 5));
    hide Quot, Rem, Value, Encoded, Pow2;
    DigitsOfValue(b, 256);
  }
}
