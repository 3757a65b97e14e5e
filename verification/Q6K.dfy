/** The integer part of the Q6_K by Q8_K dot product: unpacking, bounds, and what the lanes add up to. */
module Q6K {
  import opened Bits

  type i8 = x: int | -0x80 <= x < 0x80
  type i32 = x: int | -0x8000_0000 <= x < 0x8000_0000

  const BLOCK: nat := 256
  const LANES: nat := 8

  /** A block without its scale d: 6-bit values in two parts, and one scale for 16 values. */
  datatype Block = Block(ql: seq<byte>, qh: seq<byte>, scales: seq<i8>)

  predicate Sized(w: Block) {
    |w.ql| == 128 && |w.qh| == 64 && |w.scales| == 16
  }

  // ----- unpacking -----

  /** The low four bits and the place of the high two bits of a value, by the quarter of its half it is in. */
  function LowBits(w: Block, index: nat): nat
    requires Sized(w) && index < BLOCK
  {
    var (half, within) := (index / 128, index % 128);
    var (l, part, base) := (within % 32, within / 32, half * 64);
    match part
    case 0 => BitAnd(w.ql[base + l], 0x0f)
    case 1 => BitAnd(w.ql[base + l + 32], 0x0f)
    case 2 => w.ql[base + l] / 0x10
    case _ => w.ql[base + l + 32] / 0x10
  }

  function HighBits(w: Block, index: nat): nat
    requires Sized(w) && index < BLOCK
  {
    var (half, within) := (index / 128, index % 128);
    var (l, part, base) := (within % 32, within / 32, half * 32);
    var shifted := match part
      case 0 => w.qh[base + l]
      case 1 => w.qh[base + l] / 0x04
      case 2 => w.qh[base + l] / 0x10
      case _ => w.qh[base + l] / 0x40;
    BitAnd(shifted, 0x03) * 0x10
  }

  function Quant(w: Block, index: nat): (q: i8)
    requires Sized(w) && index < BLOCK
    ensures -32 <= q < 32
  {
    SixBits(w, index);
    BitOr(LowBits(w, index), HighBits(w, index)) - 32
  }

  function ScaleIndex(index: nat): (s: nat)
    requires index < BLOCK
    ensures s < 16
  {
    var (half, within) := (index / 128, index % 128);
    var (l, part, base) := (within % 32, within / 32, half * 8);
    match part
    case 0 => base + l / 16
    case 1 => base + l / 16 + 2
    case 2 => base + l / 16 + 4
    case _ => base + l / 16 + 6
  }

  /** The scales are laid out in plain order, whatever the order of the values' bits. */
  lemma ScaleOfSixteen(index: nat)
    requires index < BLOCK
    ensures ScaleIndex(index) == index / 16
  {
  }

  lemma Masks(a: nat)
    ensures BitAnd(a, 0x0f) == a % 0x10
    ensures BitAnd(a, 0x03) == a % 0x04
  {
    assert Pow2(2) == 0x04 && Pow2(4) == 0x10;
    AndMask(a, 4);
    AndMask(a, 2);
  }

  lemma {:induction false} OrCommutes(a: nat, b: nat)
    ensures BitOr(a, b) == BitOr(b, a)
    decreases a + b
  {
    if a > 0 || b > 0 {
      OrCommutes(a / 2, b / 2);
    }
  }

  /** The two parts of a value do not overlap. */
  lemma SixBits(w: Block, index: nat)
    requires Sized(w) && index < BLOCK
    ensures LowBits(w, index) < 0x10 && HighBits(w, index) <= 0x30
    ensures BitOr(LowBits(w, index), HighBits(w, index)) == LowBits(w, index) + HighBits(w, index)
  {
    var low, high := LowBits(w, index), HighBits(w, index);
    LowFits(w, index);
    HighFits(w, index);
    assert Pow2(4) == 0x10;
    OrShifted(high / 0x10, low, 4);
    OrCommutes(low, high);
  }

  lemma LowFits(w: Block, index: nat)
    requires Sized(w) && index < BLOCK
    ensures LowBits(w, index) < 0x10
  {
    forall a: nat {
      Masks(a);
    }
  }

  lemma HighFits(w: Block, index: nat)
    requires Sized(w) && index < BLOCK
    ensures HighBits(w, index) <= 0x30 && HighBits(w, index) % 0x10 == 0
  {
    forall a: nat {
      Masks(a);
    }
  }

  // ----- packing -----

  /** 256 six-bit values as a block holds them. */
  predicate SixBitValues(v: seq<nat>) {
    |v| == BLOCK && forall i :: 0 <= i < BLOCK ==> v[i] < 0x40
  }

  function PackedLow(v: seq<nat>): (ql: seq<byte>)
    requires SixBitValues(v)
    ensures |ql| == 128
  {
    seq(128, j requires 0 <= j < 128 =>
      var low := j / 64 * 128 + j % 64;
      v[low] % 0x10 + v[low + 64] % 0x10 * 0x10)
  }

  /** The high two bits of four values in one byte. */
  function FourPairs(a: nat, b: nat, c: nat, d: nat): byte
    requires a < 0x40 && b < 0x40 && c < 0x40 && d < 0x40
  {
    a / 0x10 + b / 0x10 * 0x04 + c / 0x10 * 0x10 + d / 0x10 * 0x40
  }

  function PackedHigh(v: seq<nat>): (qh: seq<byte>)
    requires SixBitValues(v)
    ensures |qh| == 64
  {
    seq(64, j requires 0 <= j < 64 =>
      var low := j / 32 * 128 + j % 32;
      FourPairs(v[low], v[low + 32], v[low + 64], v[low + 96]))
  }

  function Values(w: Block): (v: seq<nat>)
    requires Sized(w)
    ensures SixBitValues(v)
  {
    seq(BLOCK, i requires 0 <= i < BLOCK => Quant(w, i) + 32)
  }

  lemma QuantParts(w: Block, i: nat)
    requires Sized(w) && i < BLOCK
    ensures Quant(w, i) + 32 == LowBits(w, i) + HighBits(w, i)
    ensures (Quant(w, i) + 32) % 0x10 == LowBits(w, i) && (Quant(w, i) + 32) / 0x10 * 0x10 == HighBits(w, i)
  {
    hide LowBits, HighBits, BitOr;
    SixBits(w, i);
    HighFits(w, i);
    var (low, high) := (LowBits(w, i), HighBits(w, i) / 0x10);
    NibblePair(low, high);
  }

  /** Where the value at a place in its quarter is: half h, quarter part, offset l. */
  function Place(h: nat, part: nat, l: nat): (i: nat)
    requires h < 2 && part < 4 && l < 32
    ensures i < BLOCK
  {
    h * 128 + part * 32 + l
  }

  lemma PlaceDigits(h: nat, part: nat, l: nat)
    requires h < 2 && part < 4 && l < 32
    ensures var i := Place(h, part, l);
            i / 128 == h && i % 128 == part * 32 + l && i % 128 % 32 == l && i % 128 / 32 == part
  {
  }

  /** The byte that holds the low bits of a value; the second half of the quarters shares it. */
  function LowByte(h: nat, part: nat, l: nat): (j: nat)
    requires h < 2 && part < 4 && l < 32
    ensures j < 128
  {
    h * 64 + l + if part == 0 || part == 2 then 0 else 32
  }

  lemma LowBitsAt(w: Block, h: nat, part: nat, l: nat)
    requires Sized(w) && h < 2 && part < 4 && l < 32
    ensures var b := w.ql[LowByte(h, part, l)];
            LowBits(w, Place(h, part, l)) == if part < 2 then b % 0x10 else b / 0x10
  {
    hide BitAnd;
    PlaceDigits(h, part, l);
    Masks(w.ql[LowByte(h, part, l)]);
  }

  /** The two bits of a byte that belong to a quarter. */
  function HighDigit(b: byte, part: nat): nat {
    (if part == 0 then b else if part == 1 then b / 0x04 else if part == 2 then b / 0x10 else b / 0x40) % 0x04
  }

  lemma HighBitsAt(w: Block, h: nat, part: nat, l: nat)
    requires Sized(w) && h < 2 && part < 4 && l < 32
    ensures var b := w.qh[h * 32 + l];
            HighBits(w, Place(h, part, l)) ==
            HighDigit(b, part) * 0x10
  {
    hide BitAnd;
    PlaceDigits(h, part, l);
    var b := w.qh[h * 32 + l];
    Masks(b);
    Masks(b / 0x04);
    Masks(b / 0x10);
    Masks(b / 0x40);
  }

  /** A value, by its half, quarter and place: four bits of one byte and two of another, less 32. */
  lemma QuantWrittenOut(w: Block, h: nat, part: nat, l: nat)
    requires Sized(w) && h < 2 && part < 4 && l < 32
    ensures var low := w.ql[h * 64 + part % 2 * 32 + l];
            var high := w.qh[h * 32 + l];
            Quant(w, h * 128 + part * 32 + l) + 32 ==
            (if part < 2 then low % 16 else low / 16)
            + 16 * (if part == 0 then high % 4 else if part == 1 then high / 4 % 4
                    else if part == 2 then high / 16 % 4 else high / 64)
  {
    hide BitAnd, LowBits, HighBits, Quant, LowByte, HighDigit;
    QuantParts(w, Place(h, part, l));
    LowBitsAt(w, h, part, l);
    HighBitsAt(w, h, part, l);
    LowByteIs(h, part, l);
    HighDigitIs(w.qh[h * 32 + l], part);
  }

  lemma LowByteIs(h: nat, part: nat, l: nat)
    requires h < 2 && part < 4 && l < 32
    ensures LowByte(h, part, l) == h * 64 + part % 2 * 32 + l
  {
  }

  lemma HighDigitIs(b: byte, part: nat)
    requires part < 4
    ensures HighDigit(b, part) ==
            if part == 0 then b % 4 else if part == 1 then b / 4 % 4 else if part == 2 then b / 16 % 4 else b / 64
  {
  }

  lemma LowAt(v: seq<nat>, h: nat, r: nat)
    requires SixBitValues(v) && h < 2 && r < 64
    ensures PackedLow(v)[h * 64 + r] == v[h * 128 + r] % 0x10 + v[h * 128 + r + 64] % 0x10 * 0x10
  {
    assert (h * 64 + r) / 64 == h && (h * 64 + r) % 64 == r;
  }

  lemma HighAt(v: seq<nat>, h: nat, l: nat)
    requires SixBitValues(v) && h < 2 && l < 32
    ensures PackedHigh(v)[h * 32 + l] ==
            FourPairs(v[h * 128 + l], v[h * 128 + l + 32], v[h * 128 + l + 64], v[h * 128 + l + 96])
  {
    assert (h * 32 + l) / 32 == h && (h * 32 + l) % 32 == l;
  }

  /** Unpacking undoes packing: every value keeps its place. */
  lemma PackedQuant(v: seq<nat>, scales: seq<i8>, h: nat, part: nat, l: nat)
    requires SixBitValues(v) && |scales| == 16 && h < 2 && part < 4 && l < 32
    ensures Quant(Block(PackedLow(v), PackedHigh(v), scales), Place(h, part, l)) + 32 == v[Place(h, part, l)]
  {
    hide LowBits, HighBits, PackedLow, PackedHigh, BitOr;
    var w, i := Block(PackedLow(v), PackedHigh(v), scales), Place(h, part, l);
    SixBits(w, i);
    PackedLowBits(v, scales, h, part, l);
    PackedHighBits(v, scales, h, part, l);
    SplitValue(v[i]);
  }

  lemma SplitValue(x: nat)
    ensures x % 0x10 + x / 0x10 * 0x10 == x
    ensures x < 0x40 ==> x / 0x10 < 4
  {
  }

  lemma NibblePair(x: nat, y: nat)
    requires x < 0x10
    ensures (x + y * 0x10) % 0x10 == x && (x + y * 0x10) / 0x10 == y
  {
  }

  lemma FourDigits(a: nat, b: nat, c: nat, d: nat)
    requires a < 4 && b < 4 && c < 4 && d < 4
    ensures var x := a + b * 0x04 + c * 0x10 + d * 0x40;
            x % 0x04 == a && x / 0x04 % 0x04 == b && x / 0x10 % 0x04 == c && x / 0x40 % 0x04 == d
  {
    var x := a + b * 0x04 + c * 0x10 + d * 0x40;
    assert x / 0x04 == b + c * 0x04 + d * 0x10;
    assert x / 0x10 == c + d * 0x04;
    assert x / 0x40 == d;
  }

  lemma PackedLowBits(v: seq<nat>, scales: seq<i8>, h: nat, part: nat, l: nat)
    requires SixBitValues(v) && |scales| == 16 && h < 2 && part < 4 && l < 32
    ensures LowBits(Block(PackedLow(v), PackedHigh(v), scales), Place(h, part, l)) == v[Place(h, part, l)] % 0x10
  {
    hide LowBits, PackedLow, PackedHigh;
    var r := if part == 0 || part == 2 then l else l + 32;
    LowBitsAt(Block(PackedLow(v), PackedHigh(v), scales), h, part, l);
    LowAt(v, h, r);
    NibblePair(v[h * 128 + r] % 0x10, v[h * 128 + r + 64] % 0x10);
  }

  lemma PackedHighBits(v: seq<nat>, scales: seq<i8>, h: nat, part: nat, l: nat)
    requires SixBitValues(v) && |scales| == 16 && h < 2 && part < 4 && l < 32
    ensures HighBits(Block(PackedLow(v), PackedHigh(v), scales), Place(h, part, l)) ==
            v[Place(h, part, l)] / 0x10 * 0x10
  {
    hide HighBits, PackedLow, PackedHigh;
    HighBitsAt(Block(PackedLow(v), PackedHigh(v), scales), h, part, l);
    HighAt(v, h, l);
    var (a, b, c, d) := (v[h * 128 + l], v[h * 128 + l + 32], v[h * 128 + l + 64], v[h * 128 + l + 96]);
    SplitValue(a);
    SplitValue(b);
    SplitValue(c);
    SplitValue(d);
    FourDigits(a / 0x10, b / 0x10, c / 0x10, d / 0x10);
  }

  /** Packing undoes unpacking: no bit of a block is unused. */
  lemma QuantPacked(w: Block)
    requires Sized(w)
    ensures PackedLow(Values(w)) == w.ql && PackedHigh(Values(w)) == w.qh
  {
    hide LowBits, HighBits, PackedLow, PackedHigh, Values;
    var v := Values(w);
    forall j | 0 <= j < 128
      ensures PackedLow(v)[j] == w.ql[j]
    {
      LowUnpacked(w, j / 64, j % 64);
      assert j / 64 * 64 + j % 64 == j;
    }
    forall j | 0 <= j < 64
      ensures PackedHigh(v)[j] == w.qh[j]
    {
      HighUnpacked(w, j / 32, j % 32);
      assert j / 32 * 32 + j % 32 == j;
    }
  }

  lemma ValueParts(w: Block, i: nat)
    requires Sized(w) && i < BLOCK
    ensures Values(w)[i] % 0x10 == LowBits(w, i) && Values(w)[i] / 0x10 * 0x10 == HighBits(w, i)
  {
    hide Quant, LowBits, HighBits;
    QuantParts(w, i);
  }

  lemma LowUnpacked(w: Block, h: nat, r: nat)
    requires Sized(w) && h < 2 && r < 64
    ensures PackedLow(Values(w))[h * 64 + r] == w.ql[h * 64 + r]
  {
    hide LowBits, PackedLow, Values;
    var (part, l) := if r < 32 then (0, r) else (1, r - 32);
    LowAt(Values(w), h, r);
    LowValue(w, h, part, l);
    LowValue(w, h, part + 2, l);
    assert Place(h, part, l) == h * 128 + r && Place(h, part + 2, l) == h * 128 + r + 64;
    SplitValue(w.ql[h * 64 + r]);
  }

  lemma LowValue(w: Block, h: nat, part: nat, l: nat)
    requires Sized(w) && h < 2 && part < 4 && l < 32
    ensures var b := w.ql[LowByte(h, part, l)];
            Values(w)[Place(h, part, l)] % 0x10 == if part < 2 then b % 0x10 else b / 0x10
  {
    hide LowBits, Values;
    ValueParts(w, Place(h, part, l));
    LowBitsAt(w, h, part, l);
  }

  lemma HighUnpacked(w: Block, h: nat, l: nat)
    requires Sized(w) && h < 2 && l < 32
    ensures PackedHigh(Values(w))[h * 32 + l] == w.qh[h * 32 + l]
  {
    hide HighBits, PackedHigh, Values, HighDigit, FourPairs, Place;
    var (v, b) := (Values(w), w.qh[h * 32 + l]);
    HighAt(v, h, l);
    HighValue(w, h, 0, l);
    HighValue(w, h, 1, l);
    HighValue(w, h, 2, l);
    HighValue(w, h, 3, l);
    FourPlaces(h, l);
    FourPairsAre(v[h * 128 + l], v[h * 128 + l + 32], v[h * 128 + l + 64], v[h * 128 + l + 96], b);
  }

  lemma FourPlaces(h: nat, l: nat)
    requires h < 2 && l < 32
    ensures Place(h, 0, l) == h * 128 + l && Place(h, 1, l) == h * 128 + l + 32
    ensures Place(h, 2, l) == h * 128 + l + 64 && Place(h, 3, l) == h * 128 + l + 96
  {
  }

  lemma FourPairsAre(a0: nat, a1: nat, a2: nat, a3: nat, b: byte)
    requires a0 < 0x40 && a1 < 0x40 && a2 < 0x40 && a3 < 0x40
    requires a0 / 0x10 == HighDigit(b, 0) && a1 / 0x10 == HighDigit(b, 1)
    requires a2 / 0x10 == HighDigit(b, 2) && a3 / 0x10 == HighDigit(b, 3)
    ensures FourPairs(a0, a1, a2, a3) == b
  {
    hide HighDigit;
    ByteDigits(b);
  }

  lemma HighValue(w: Block, h: nat, part: nat, l: nat)
    requires Sized(w) && h < 2 && part < 4 && l < 32
    ensures var b := w.qh[h * 32 + l];
            Values(w)[Place(h, part, l)] / 0x10 ==
            HighDigit(b, part)
  {
    hide HighBits, Values, HighDigit;
    ValueParts(w, Place(h, part, l));
    HighBitsAt(w, h, part, l);
  }

  lemma ByteDigits(b: byte)
    ensures HighDigit(b, 0) + HighDigit(b, 1) * 0x04 + HighDigit(b, 2) * 0x10 + HighDigit(b, 3) * 0x40 == b
  {
    assert b / 0x04 / 0x04 == b / 0x10 && b / 0x10 / 0x04 == b / 0x40;
  }

  // ----- the integer dot product -----

  predicate Activations(q: seq<i8>) {
    |q| == BLOCK
  }

  /** One product of scale, activation and weight. */
  function Term(w: Block, q: seq<i8>, i: nat): (t: int)
    requires Sized(w) && Activations(q) && i < BLOCK
    ensures -0x8_0000 <= t <= 0x8_0000
  {
    TermFits(w.scales[ScaleIndex(i)], q[i], Quant(w, i));
    w.scales[ScaleIndex(i)] * q[i] * Quant(w, i)
  }

  lemma TermFits(s: i8, a: i8, x: int)
    requires -32 <= x < 32
    ensures -0x4000 <= s * a <= 0x4000
    ensures -0x8_0000 <= s * a * x <= 0x8_0000
  {
    ProductBound(s, a, 0x80, 0x80);
    ProductBound(s * a, x, 0x4000, 32);
  }

  lemma ProductBound(x: int, y: int, m: nat, n: nat)
    requires 0 - m <= x <= m && 0 - n <= y <= n
    ensures 0 - m * n <= x * y <= m * n
  {
    var (p, q) := (if x < 0 then -x else x, if y < 0 then -y else y);
    ProductMonotone(q, p, m);
    ProductMonotone(m, q, n);
    assert x * y == p * q || x * y == -(p * q);
  }

  /** The first n terms of a lane: every eighth one. */
  function LaneSum(w: Block, q: seq<i8>, lane: nat, n: nat): (sum: int)
    requires Sized(w) && Activations(q) && lane < LANES && n <= 32
    ensures -0x8_0000 * n <= sum <= 0x8_0000 * n
  {
    if n == 0 then 0 else LaneSum(w, q, lane, n - 1) + Term(w, q, LANES * (n - 1) + lane)
  }

  /** The first n terms. */
  function DotPrefix(w: Block, q: seq<i8>, n: nat): int
    requires Sized(w) && Activations(q) && n <= BLOCK
  {
    if n == 0 then 0 else DotPrefix(w, q, n - 1) + Term(w, q, n - 1)
  }

  function AllLanes(w: Block, q: seq<i8>, n: nat): int
    requires Sized(w) && Activations(q) && n <= 32
  {
    LaneSum(w, q, 0, n) + LaneSum(w, q, 1, n) + LaneSum(w, q, 2, n) + LaneSum(w, q, 3, n)
    + LaneSum(w, q, 4, n) + LaneSum(w, q, 5, n) + LaneSum(w, q, 6, n) + LaneSum(w, q, 7, n)
  }

  /** The lanes together are the whole dot product. */
  lemma {:induction false} LanesMakeTheDot(w: Block, q: seq<i8>, n: nat)
    requires Sized(w) && Activations(q) && n <= 32
    ensures AllLanes(w, q, n) == DotPrefix(w, q, LANES * n)
  {
    hide Term, LaneSum, DotPrefix;
    if n > 0 {
      LanesMakeTheDot(w, q, n - 1);
      EightMore(w, q, LANES * (n - 1));
      LaneTurn(w, q, 0, n);
      LaneTurn(w, q, 1, n);
      LaneTurn(w, q, 2, n);
      LaneTurn(w, q, 3, n);
      LaneTurn(w, q, 4, n);
      LaneTurn(w, q, 5, n);
      LaneTurn(w, q, 6, n);
      LaneTurn(w, q, 7, n);
    } else {
      NoLanes(w, q);
    }
  }

  lemma LaneTurn(w: Block, q: seq<i8>, lane: nat, n: nat)
    requires Sized(w) && Activations(q) && lane < LANES && 0 < n <= 32
    ensures LaneSum(w, q, lane, n) == LaneSum(w, q, lane, n - 1) + Term(w, q, LANES * (n - 1) + lane)
  {
  }

  /** A term is a value times its activation times the scale of its sixteen. */
  lemma TermWrittenOut(w: Block, q: seq<i8>, i: nat)
    requires Sized(w) && Activations(q) && i < BLOCK
    ensures 0 <= i / 16 < 16 && Term(w, q, i) == w.scales[i / 16] * q[i] * Quant(w, i)
  {
    hide Quant;
    ScaleOfSixteen(i);
  }

  lemma NoLanes(w: Block, q: seq<i8>)
    requires Sized(w) && Activations(q)
    ensures AllLanes(w, q, 0) == DotPrefix(w, q, 0)
  {
  }

  lemma EightMore(w: Block, q: seq<i8>, i: nat)
    requires Sized(w) && Activations(q) && i + 8 <= BLOCK
    ensures DotPrefix(w, q, i + 8) ==
            DotPrefix(w, q, i) + Term(w, q, i) + Term(w, q, i + 1) + Term(w, q, i + 2) + Term(w, q, i + 3)
            + Term(w, q, i + 4) + Term(w, q, i + 5) + Term(w, q, i + 6) + Term(w, q, i + 7)
  {
    hide Term;
    for k := 0 to 8
      invariant DotPrefix(w, q, i + k) + (if k < 1 then Term(w, q, i) else 0) + (if k < 2 then Term(w, q, i + 1) else 0)
                + (if k < 3 then Term(w, q, i + 2) else 0) + (if k < 4 then Term(w, q, i + 3) else 0)
                + (if k < 5 then Term(w, q, i + 4) else 0) + (if k < 6 then Term(w, q, i + 5) else 0)
                + (if k < 7 then Term(w, q, i + 6) else 0) + (if k < 8 then Term(w, q, i + 7) else 0) ==
                DotPrefix(w, q, i) + Term(w, q, i) + Term(w, q, i + 1) + Term(w, q, i + 2) + Term(w, q, i + 3)
                + Term(w, q, i + 4) + Term(w, q, i + 5) + Term(w, q, i + 6) + Term(w, q, i + 7)
    {
    }
  }

  /** The accumulators of one block. No product and no sum leaves the 32-bit range, and every lane stays within 2^24. */
  method LaneSums(w: Block, q: seq<i8>) returns (aux: array<i32>)
    requires Sized(w) && Activations(q)
    ensures fresh(aux) && aux.Length == LANES
    ensures forall lane :: 0 <= lane < LANES ==> aux[lane] == LaneSum(w, q, lane, 32)
    ensures forall lane :: 0 <= lane < LANES ==> -0x100_0000 <= aux[lane] <= 0x100_0000
  {
    hide Quant, Term;
    aux := new i32[LANES](_ => 0);
    var offset := 0;
    for s := 0 to 16
      invariant offset == 16 * s
      invariant forall lane :: 0 <= lane < LANES ==> aux[lane] == LaneSum(w, q, lane, 2 * s)
    {
      AddEight(w, q, aux, s, offset, 2 * s);
      offset := offset + 8;
      AddEight(w, q, aux, s, offset, 2 * s + 1);
      offset := offset + 8;
    }
  }

  /** One term for every lane, all with the same scale. */
  method AddEight(w: Block, q: seq<i8>, aux: array<i32>, s: nat, offset: nat, ghost n: nat)
    requires Sized(w) && Activations(q) && aux.Length == LANES
    requires s < 16 && (n == 2 * s || n == 2 * s + 1) && offset == 8 * n
    requires forall lane :: 0 <= lane < LANES ==> aux[lane] == LaneSum(w, q, lane, n)
    modifies aux
    ensures forall lane :: 0 <= lane < LANES ==> aux[lane] == LaneSum(w, q, lane, n + 1)
  {
    hide Quant, Term, LaneSum;
    for lane := 0 to LANES
      invariant forall k :: 0 <= k < lane ==> aux[k] == LaneSum(w, q, k, n + 1)
      invariant forall k :: lane <= k < LANES ==> aux[k] == LaneSum(w, q, k, n)
    {
      NextTerm(w, q, lane, n, s);
      var i := offset + lane;
      var scaled: i32 := (w.scales[s] as int) * q[i];
      var product: i32 := scaled * Quant(w, i);
      aux[lane] := aux[lane] + product;
    }
  }

  lemma NextTerm(w: Block, q: seq<i8>, lane: nat, n: nat, s: nat)
    requires Sized(w) && Activations(q) && lane < LANES && s < 16 && (n == 2 * s || n == 2 * s + 1)
    ensures var i := 8 * n + lane;
            var scaled := (w.scales[s] as int) * q[i];
            && -0x4000 <= scaled <= 0x4000
            && -0x8_0000 <= scaled * Quant(w, i) <= 0x8_0000
            && LaneSum(w, q, lane, n + 1) == LaneSum(w, q, lane, n) + scaled * Quant(w, i)
            && -0x100_0000 <= LaneSum(w, q, lane, n + 1) <= 0x100_0000
  {
    hide Quant, ScaleIndex, LaneSum;
    var i := 8 * n + lane;
    ScaleOfSixteen(i);
    TermFits(w.scales[s], q[i], Quant(w, i));
    LaneTurn(w, q, lane, n + 1);
  }

  // ----- conversion -----

  /** An integer a 24-bit significand can hold: the conversion to binary32 does not round it. */
  ghost predicate Exact(x: int) {
    exists m: nat, e: nat :: IsScaled(x, m, e)
  }

  ghost predicate IsScaled(x: int, m: nat, e: nat) {
    m < 0x100_0000 && (if x < 0 then -x else x) == m * Pow2(e)
  }

  /** Converting a lane to floating point is exact. */
  lemma LaneIsExact(w: Block, q: seq<i8>, lane: nat)
    requires Sized(w) && Activations(q) && lane < LANES
    ensures Exact(LaneSum(w, q, lane, 32))
  {
    var x := LaneSum(w, q, lane, 32);
    var m: nat := if x < 0 then -x else x;
    if m == 0x100_0000 {
      assert Pow2(1) == 2 && IsScaled(x, 0x80_0000, 1);
    } else {
      assert Pow2(0) == 1 && IsScaled(x, m, 0);
    }
  }
}
