/** Machine words as bounded naturals, and the bit operations the range coder uses on them. */
module Bits {
  type byte = x: nat | x < 0x100
  type u32 = x: nat | x < 0x1_0000_0000
  type u64 = x: nat | x < 0x1_0000_0000_0000_0000

  /** One more than the largest 64-bit number. */
  const WORD: nat := 0x1_0000_0000_0000_0000

  function Zeros(n: nat): (r: seq<byte>)
    ensures |r| == n
  {
    seq(n, _ => 0)
  }

  function Pow2(k: nat): (p: nat)
    ensures p > 0
  {
    if k == 0 then 1 else 2 * Pow2(k - 1)
  }

  /** Exclusive or, bit by bit. */
  function BitXor(a: nat, b: nat): nat
    decreases a + b
  {
    if a == 0 && b == 0 then 0
    else 2 * BitXor(a / 2, b / 2) + (if a % 2 == b % 2 then 0 else 1)
  }

  /** Conjunction, bit by bit. */
  function BitAnd(a: nat, b: nat): (r: nat)
    ensures r <= a && r <= b
    decreases a
  {
    if a == 0 then 0
    else 2 * BitAnd(a / 2, b / 2) + (if a % 2 == 1 && b % 2 == 1 then 1 else 0)
  }

  /** Disjunction, bit by bit. */
  function BitOr(a: nat, b: nat): nat
    decreases a + b
  {
    if a == 0 && b == 0 then 0
    else 2 * BitOr(a / 2, b / 2) + (if a % 2 == 0 && b % 2 == 0 then 0 else 1)
  }

  lemma Associate(a: int, b: int, c: int)
    ensures (a * b) * c == a * (b * c)
  {
  }

  lemma {:induction false} Pow2Add(a: nat, b: nat)
    ensures Pow2(a + b) == Pow2(a) * Pow2(b)
    decreases a
  {
    if a > 0 {
      Pow2Add(a - 1, b);
      Associate(2, Pow2(a - 1), Pow2(b));
      assert Pow2(a + b) == 2 * Pow2(a - 1 + b);
    }
  }

  lemma Powers()
    ensures Pow2(8) == 0x100
    ensures Pow2(48) == 0x1_0000_0000_0000
    ensures Pow2(56) == 0x100_0000_0000_0000
  {
    assert Pow2(8) == 0x100;
    Pow2Add(8, 8);
    assert Pow2(16) == 0x1_0000;
    Pow2Add(16, 16);
    assert Pow2(32) == 0x1_0000_0000;
    Pow2Add(16, 32);
    Pow2Add(8, 48);
  }

  lemma {:induction false} HalveThenShift(a: nat, k: nat)
    requires k > 0
    ensures (a / 2) / Pow2(k - 1) == a / Pow2(k)
  {
    var p := Pow2(k - 1);
    var q := (a / 2) / p;
    var r := (a / 2) % p;
    assert a / 2 == q * p + r;
    assert a == q * (2 * p) + (2 * r + a % 2);
    QuotientUnique(a, 2 * p, q, 2 * r + a % 2);
  }

  lemma ProductAtLeast(k: int, d: nat)
    requires k > 0
    ensures k * d >= d
  {
    assert k * d == (k - 1) * d + d;
  }

  lemma ProductMonotone(d: nat, a: nat, b: nat)
    requires a <= b
    ensures a * d <= b * d && d * a <= d * b
  {
    assert (b - a) * d == b * d - a * d;
    assert (b - a) * d >= 0;
  }

  lemma NegatedProduct(k: int, d: int)
    ensures (-k) * d == -(k * d)
  {
  }

  lemma Bounded(d: nat, k: int, e: int)
    requires k * d == e && e < d && -e < d
    ensures k == 0
  {
    if k > 0 {
      ProductAtLeast(k, d);
    } else if k < 0 {
      NegatedProduct(k, d);
      ProductAtLeast(-k, d);
    }
  }

  lemma QuotientUnique(a: nat, d: nat, q: nat, r: nat)
    requires d > 0 && a == q * d + r && r < d
    ensures a / d == q && a % d == r
  {
    var k := a / d - q;
    assert a == d * (a / d) + a % d;
    assert k * d == r - a % d;
    Bounded(d, k, r - a % d);
  }

  lemma {:induction false} XorZero(a: nat, b: nat)
    ensures BitXor(a, b) == 0 <==> a == b
    decreases a + b
  {
    if a != 0 || b != 0 {
      XorZero(a / 2, b / 2);
    }
  }

  /** An exclusive or is below 2^k exactly when its operands agree above bit k. */
  lemma HalfOfXor(a: nat, b: nat)
    ensures BitXor(a, b) / 2 == BitXor(a / 2, b / 2)
  {
  }

  lemma {:induction false} XorBelow(a: nat, b: nat, k: nat)
    ensures BitXor(a, b) < Pow2(k) <==> a / Pow2(k) == b / Pow2(k)
    decreases k
  {
    hide BitXor;
    if k == 0 {
      XorZero(a, b);
    } else {
      XorBelow(a / 2, b / 2, k - 1);
      HalveThenShift(a, k);
      HalveThenShift(b, k);
      HalfOfXor(a, b);
    }
  }

  lemma AndOddMask(a: nat, h: nat)
    requires h > 0
    ensures BitAnd(a, 2 * h - 1) == 2 * BitAnd(a / 2, h - 1) + a % 2
  {
    assert (2 * h - 1) / 2 == h - 1 && (2 * h - 1) % 2 == 1;
  }

  /** Masking with 2^k - 1 is the remainder by 2^k. */
  lemma {:induction false} AndMask(a: nat, k: nat)
    ensures BitAnd(a, Pow2(k) - 1) == a % Pow2(k)
    decreases k
  {
    hide BitAnd;
    if k == 0 {
      AndZero(a);
    } else {
      var h := Pow2(k - 1);
      calc {
        BitAnd(a, Pow2(k) - 1);
        { AndOddMask(a, h); }
        2 * BitAnd(a / 2, h - 1) + a % 2;
        { AndMask(a / 2, k - 1); }
        2 * ((a / 2) % h) + a % 2;
        { RemainderByHalves(a, h); }
        a % Pow2(k);
      }
    }
  }

  lemma RemainderByHalves(a: nat, p: nat)
    requires p > 0
    ensures a % (2 * p) == 2 * ((a / 2) % p) + a % 2
  {
    var q, r := (a / 2) / p, (a / 2) % p;
    assert a / 2 == p * q + r;
    assert q * (2 * p) == 2 * (p * q);
    QuotientUnique(a, 2 * p, q, 2 * r + a % 2);
  }

  lemma {:induction false} AndZero(a: nat)
    ensures BitAnd(a, 0) == 0
  {
    if a > 0 {
      AndZero(a / 2);
    }
  }

  lemma {:induction false} OrZero(a: nat)
    ensures BitOr(a, 0) == a
  {
    if a > 0 {
      OrZero(a / 2);
    }
  }

  lemma OrEvenHigh(x: nat, b: nat)
    ensures BitOr(2 * x, b) == 2 * BitOr(x, b / 2) + b % 2
  {
  }

  /** A value shifted past another occupies different bits, so the two add up. */
  lemma {:induction false} OrShifted(a: nat, b: nat, k: nat)
    requires b < Pow2(k)
    ensures BitOr(a * Pow2(k), b) == a * Pow2(k) + b
    decreases k
  {
    if k == 0 {
      OrZero(a);
    } else {
      var x := a * Pow2(k - 1);
      assert a * Pow2(k) == 2 * x;
      OrEvenHigh(x, b);
      OrShifted(a, b / 2, k - 1);
    }
  }

  lemma MultipleOf(p: nat, k: nat)
    requires p > 0
    ensures p * k % p == 0
  {
    QuotientUnique(p * k, p, k, 0);
  }

  lemma RemainderKeepsMultiple(x: nat, p: nat, e: nat)
    requires p > 0 && e > 0 && x % p == 0
    ensures p * e > 0 && x % (p * e) % p == 0
  {
    ProductAtLeast(p, e);
    var q, m := x / p, p * e;
    var t := x / m;
    assert x == p * q && x == m * t + x % m;
    Associate(p, e, t);
    assert x % m == p * (q - e * t);
    if q < e * t {
      ProductAtLeast(e * t - q, p);
      NegatedProduct(e * t - q, p);
      assert false;
    }
    MultipleOf(p, q - e * t);
  }

  lemma ScaledMultiple(y: nat, p: nat)
    requires p > 0 && y % p == 0
    ensures y * 0x100 % (0x100 * p) == 0
  {
    var k := y / p;
    assert y == p * k;
    assert y * 0x100 == (0x100 * p) * k;
    MultipleOf(0x100 * p, k);
  }

  lemma DifferenceOfMultiples(x: nat, y: nat, p: nat)
    requires p > 0 && x % p == 0 && y % p == 0 && y <= x
    ensures (x - y) % p == 0
  {
    var a, b := x / p, y / p;
    assert x == p * a && y == p * b;
    assert x - y == p * (a - b);
    MultipleOf(p, a - b);
  }

  lemma PositiveMultiple(x: nat, p: nat)
    requires p > 0 && x % p == 0 && x > 0
    ensures x >= p
  {
  }
}
