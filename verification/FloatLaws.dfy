/** What the bit patterns of IEEE 754 single precision stand for. */
module FloatLaws {
  import opened Bits
  import opened Floats

  /** The fields of section 3.4 of IEEE 754: sign, biased exponent and fraction. */
  function Exponent(x: F32): nat {
    x % 0x8000_0000 / 0x80_0000
  }

  function Fraction(x: F32): nat {
    x % 0x80_0000
  }

  /** The magnitude in units of 2^-149; without the hidden bit where the exponent is 0. */
  function Magnitude(e: nat, f: nat): nat {
    if e == 0 then f else (0x80_0000 + f) * Pow2(e - 1)
  }

  function Value(x: F32): int {
    if x >= 0x8000_0000 then -(Magnitude(Exponent(x), Fraction(x)) as int) else Magnitude(Exponent(x), Fraction(x))
  }

  /** The largest exponent is kept for infinities and for what is not a number. */
  lemma FiniteIff(x: F32)
    ensures IsFinite(x) <==> Exponent(x) != 0xff
    ensures IsFinite(x) <==> x % 0x8000_0000 < 0x7f80_0000
  {
  }

  lemma {:induction false} PowersGrow(a: nat, b: nat)
    requires a <= b
    ensures Pow2(a) <= Pow2(b)
    decreases b
  {
    if a < b {
      PowersGrow(a, b - 1);
    }
  }

  lemma Scaled(f: nat, g: nat, p: nat)
    requires f < g && p > 0
    ensures f * p < g * p
  {
    ProductMonotone(p, f + 1, g);
    assert (f + 1) * p == f * p + p;
  }

  /** Magnitudes are in the order of the patterns. */
  lemma MagnitudesGrow(e: nat, f: nat, d: nat, g: nat)
    requires f < 0x80_0000 && g < 0x80_0000
    requires e * 0x80_0000 + f < d * 0x80_0000 + g
    ensures Magnitude(e, f) < Magnitude(d, g)
  {
    if e == d {
      if e > 0 {
        Scaled(0x80_0000 + f, 0x80_0000 + g, Pow2(e - 1));
      }
    } else {
      assert e < d;
      PowersGrow(e, d - 1);
      ProductMonotone(0x80_0000, Pow2(e), Pow2(d - 1));
      ProductMonotone(Pow2(d - 1), 0x80_0000, 0x80_0000 + g);
      if e > 0 {
        Scaled(0x80_0000 + f, 0x100_0000, Pow2(e - 1));
        assert Pow2(e) == 2 * Pow2(e - 1);
      } else {
        assert Pow2(0) == 1;
      }
    }
  }

  lemma Fields(x: F32)
    ensures x % 0x8000_0000 == Exponent(x) * 0x80_0000 + Fraction(x)
    ensures Fraction(x) < 0x80_0000
  {
  }

  lemma NoMagnitude(x: F32)
    ensures Value(x) == 0 <==> x % 0x8000_0000 == 0
  {
    Fields(x);
    if x % 0x8000_0000 != 0 {
      MagnitudesGrow(0, 0, Exponent(x), Fraction(x));
    }
  }

  /** The order of the patterns is that of the numbers, and the two zeros are equal. */
  lemma GreaterIff(x: F32, y: F32)
    ensures Greater(x, y) <==> Value(x) > Value(y)
    ensures IsZero(x) <==> Value(x) == 0
  {
    hide Magnitude;
    Fields(x);
    Fields(y);
    NoMagnitude(x);
    NoMagnitude(y);
    var (a, b) := (x % 0x8000_0000, y % 0x8000_0000);
    if a < b {
      MagnitudesGrow(Exponent(x), Fraction(x), Exponent(y), Fraction(y));
    } else if b < a {
      MagnitudesGrow(Exponent(y), Fraction(y), Exponent(x), Fraction(x));
    } else {
      assert Exponent(x) == Exponent(y) && Fraction(x) == Fraction(y);
    }
  }
}
