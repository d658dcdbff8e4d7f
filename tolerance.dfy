/** Decoding of the factory tolerance stored in each wiper's two read-only
    tolerance bytes: a sign-magnitude integer byte and a fraction byte. */
module Tolerance {

  const SignMask: bv8 := 0x80

  function Pow2(n: nat): (p: nat)
    ensures p >= 1
  {
    if n == 0 then 1 else 2 * Pow2(n - 1)
  }

  /** Rewrites a quotient once numerator and denominator are known. */
  lemma SameQuotient(x: real, a: int, b: int, p: int)
    requires p == 256 && a == b && x == a as real / p as real
    ensures x == b as real / 256.0
  {
  }

  lemma Pow2Eight()
    ensures Pow2(8) == 256
  {
  }

  /** The integer byte: bit 7 is a sign flag over a 7-bit magnitude (not two's complement). */
  function SignedPart(b: bv8): (i: int)
    ensures -127 <= i <= 127
    ensures (if i < 0 then -i else i) == (b & !SignMask) as int
    ensures i < 0 ==> b & SignMask != 0
    ensures b & SignMask != 0 ==> i <= 0
  {
    var magnitude := (b & !SignMask) as int;
    if b & SignMask != 0 then -magnitude else magnitude
  }

  /** The i-th bit of the fraction byte counted from the high end (bit 7 - i). */
  predicate FractionBit(f: bv8, i: nat)
    requires i < 8
  {
    (SignMask >> i) & f != 0
  }

  /** What the decoding loop has added after its first `n` rounds: each set
      bit 7 - i of the fraction byte weighs 2^-(i+1). */
  function FractionPrefix(f: bv8, n: nat): real
    requires n <= 8
  {
    if n == 0 then 0.0
    else FractionPrefix(f, n - 1) + (if FractionBit(f, n - 1) then 1.0 / Pow2(n) as real else 0.0)
  }

  /** The tolerance in percent, in closed form: the signed integer part plus
      the fraction byte read as an unsigned count of 1/256ths. The fraction
      is added even when the integer part is negative. */
  function ToleranceValue(b: bv8, f: bv8): (t: real)
    ensures -127.0 <= t <= 127.0 + 255.0 / 256.0
    ensures t.Floor == SignedPart(b)
    ensures (t - SignedPart(b) as real) * 256.0 == (f as int) as real
  {
    SignedPart(b) as real + (f as int) as real / 256.0
  }

  /** The top `n` bits of the fraction byte read as an unsigned number. */
  function TopBits(f: bv8, n: nat): nat
    requires n <= 8
  {
    if n == 0 then 0 else 2 * TopBits(f, n - 1) + (if FractionBit(f, n - 1) then 1 else 0)
  }

  /** The top four bits read from the high end are the high nibble. */
  lemma HighNibble(f: bv8)
    ensures TopBits(f, 4) == (f >> 4) as int
  {
    assert TopBits(f, 1) == (f >> 7) as int;
    assert TopBits(f, 2) == (f >> 6) as int;
    assert TopBits(f, 3) == (f >> 5) as int;
  }

  /** Reading all eight bits from the high end gives the byte's value. */
  lemma AllTopBits(f: bv8)
    ensures TopBits(f, 8) == f as int
  {
    HighNibble(f);
    assert TopBits(f, 5) == (f >> 3) as int;
    assert TopBits(f, 6) == (f >> 2) as int;
    assert TopBits(f, 7) == (f >> 1) as int;
    assert TopBits(f, 8) == (f >> 0) as int;
  }

  /** Adding a bit at the next binary place. */
  lemma Halves(q: real, bit: real, p: real)
    requires p > 0.0
    ensures q / p + bit / (2.0 * p) == (2.0 * q + bit) / (2.0 * p)
  {
  }

  /** After `n` rounds the loop has added the top `n` bits of the fraction
      byte over 2^n. */
  lemma {:induction false} FractionPrefixClosedForm(f: bv8, n: nat)
    requires n <= 8
    ensures FractionPrefix(f, n) == TopBits(f, n) as real / Pow2(n) as real
  {
    if n > 0 {
      FractionPrefixClosedForm(f, n - 1);
      var bit := if FractionBit(f, n - 1) then 1.0 else 0.0;
      Halves(TopBits(f, n - 1) as real, bit, Pow2(n - 1) as real);
    }
  }

  /** The whole loop adds exactly f / 256. */
  lemma {:induction false} FractionExact(f: bv8)
    ensures FractionPrefix(f, 8) == (f as int) as real / 256.0
  {
    FractionPrefixClosedForm(f, 8);
    AllTopBits(f);
    Pow2Eight();
    SameQuotient(FractionPrefix(f, 8), TopBits(f, 8), f as int, Pow2(8));
  }

  /** The decoding loop of read_tolerance: the signed integer part, then one
      term 1/(2 << i) per set fraction bit 7 - i. */
  method DecodeTolerance(b: bv8, f: bv8) returns (t: real)
    ensures t == ToleranceValue(b, f)
  {
    t := (b & !SignMask) as int as real;
    if SignMask & b != 0 {
      t := t * -1.0;
    }
    var i := 0;
    while i < 8
      invariant 0 <= i <= 8
      invariant t == SignedPart(b) as real + FractionPrefix(f, i)
    {
      if FractionBit(f, i) {
        t := t + 1.0 / Pow2(i + 1) as real;
      }
      i := i + 1;
    }
    FractionExact(f);
  }

  /** Worked examples: 0x05,0x80 is 5.5; 0x85,0x00 is -5.0; 0x85,0x80 is -4.5. */
  lemma Examples()
    ensures ToleranceValue(0x05, 0x80) == 5.5
    ensures ToleranceValue(0x85, 0x00) == -5.0
    ensures ToleranceValue(0x85, 0x80) == -4.5
  {
  }
}
