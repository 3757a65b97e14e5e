/** The constants and word functions of SHA-256, from what FIPS 180-4 says they are. */
module Sha256Laws {
  import opened Bits
  import WordBits
  import opened Sha256
  import opened FormatLaws

  // ----- the first 64 primes -----

  function PrimeRow(row: nat): Eight
    requires row < 8
  {
    match row
    case 0 => Eight(2, 3, 5, 7, 11, 13, 17, 19)
    case 1 => Eight(23, 29, 31, 37, 41, 43, 47, 53)
    case 2 => Eight(59, 61, 67, 71, 73, 79, 83, 89)
    case 3 => Eight(97, 101, 103, 107, 109, 113, 127, 131)
    case 4 => Eight(137, 139, 149, 151, 157, 163, 167, 173)
    case 5 => Eight(179, 181, 191, 193, 197, 199, 211, 223)
    case 6 => Eight(227, 229, 233, 239, 241, 251, 257, 263)
    case _ => Eight(269, 271, 277, 281, 283, 293, 307, 311)
  }

  function Prime(t: nat): nat
    requires t < 64
  {
    At(PrimeRow(t / 8), t % 8)
  }

  ghost predicate IsPrime(n: nat) {
    n >= 2 && forall d :: 2 <= d < n ==> n % d != 0
  }

  /** Divisible by no prime up to 17 but itself. */
  predicate Tried(n: nat) {
    && n >= 2
    && (n == 2 || n % 2 != 0) && (n == 3 || n % 3 != 0) && (n == 5 || n % 5 != 0) && (n == 7 || n % 7 != 0)
    && (n == 11 || n % 11 != 0) && (n == 13 || n % 13 != 0) && (n == 17 || n % 17 != 0)
  }

  lemma SmallDivisor(n: nat, d: nat)
    requires 2 <= d <= 17 && d < n && n % d == 0
    ensures !Tried(n)
  {
    var q := n / d;
    assert n == d * q;
    if d == 4 || d == 6 || d == 8 || d == 10 || d == 12 || d == 14 || d == 16 {
      Multiple(n, 2, d / 2, q);
    } else if d == 9 || d == 15 {
      Multiple(n, 3, d / 3, q);
    }
  }

  lemma Multiple(n: nat, p: nat, k: nat, q: nat)
    requires n == p * k * q && p > 0
    ensures n % p == 0
  {
    Associate(p, k, q);
    assert k * q * p == n;
    QuotientUnique(n, p, k * q, 0);
    assert n == p * (n / p) + n % p;
  }

  /** Below 18^2, that is being prime. */
  lemma TriedIsPrime(n: nat)
    requires n < 324
    ensures Tried(n) <==> IsPrime(n)
  {
    if Tried(n) {
      forall d | 2 <= d < n
        ensures n % d != 0
      {
        if n % d == 0 {
          var e := n / d;
          assert n == d * e;
          if d <= 17 {
            SmallDivisor(n, d);
          } else {
            Cofactor(n, d, e);
            SmallDivisor(n, e);
          }
          assert false;
        }
      }
    }
  }

  lemma Cofactor(n: nat, d: nat, e: nat)
    requires n == d * e && n < 324 && 18 <= d < n
    ensures 2 <= e <= 17 && e < n && n % e == 0
  {
    ProductMonotone(e, 18, d);
    assert 18 * e <= n;
    QuotientUnique(n, e, d, 0);
    assert n == e * (n / e) + n % e;
  }

  /** The numbers up to a prime of the list, from the one after the prime before, that are tried and found prime. */
  predicate NoneBetween(n: nat, end: nat)
    decreases end - n
  {
    n >= end || (!Tried(n) && NoneBetween(n + 1, end))
  }

  ghost predicate NextPrime(t: nat)
    requires 0 < t < 64
  {
    Tried(Prime(t)) && Prime(t - 1) < Prime(t) < 324 && NoneBetween(Prime(t - 1) + 1, Prime(t))
  }

  lemma {:induction false} NotBetween(n: nat, end: nat, p: nat)
    requires n <= p < end && NoneBetween(n, end)
    ensures !Tried(p)
    decreases end - n
  {
    hide Tried;
    if n < p {
      NotBetween(n + 1, end, p);
    }
  }

  lemma {:induction false} Listed(t: nat, p: nat)
    requires t < 64 && p <= Prime(t)
    ensures IsPrime(p) <==> exists k :: 0 <= k <= t && Prime(k) == p
    ensures forall k :: 0 <= k < t ==> Prime(k) < Prime(t)
    decreases t
  {
    hide Tried, Prime, IsPrime, NoneBetween;
    FirstIsTwo();
    if t == 0 {
      TriedIsPrime(p);
    } else {
      EveryNext(t);
      TriedIsPrime(p);
      Listed(t - 1, if p <= Prime(t - 1) then p else Prime(t - 1));
      if Prime(t - 1) < p < Prime(t) {
        NotBetween(Prime(t - 1) + 1, Prime(t), p);
      }
    }
  }

  lemma FirstIsTwo()
    ensures Prime(0) == 2 && Tried(2) && forall p: nat :: p < 2 ==> !Tried(p)
  {
  }

  /** The list is the primes up to 311, in order: its t-th number is the t-th prime. */
  lemma FirstPrimes(p: nat)
    requires p <= 311
    ensures IsPrime(p) <==> exists t :: 0 <= t < 64 && Prime(t) == p
    ensures forall t, k :: 0 <= k < t < 64 ==> Prime(k) < Prime(t)
  {
    LastPrime();
    hide Prime, IsPrime;
    Listed(63, p);
    forall t, k | 0 <= k < t < 64
      ensures Prime(k) < Prime(t)
    {
      Listed(t, 0);
    }
  }

  lemma LastPrime()
    ensures Prime(63) == 311
  {
  }

  lemma EveryNext(t: nat)
    requires 0 < t < 64
    ensures NextPrime(t)
  {
    hide NextPrime;
    if t < 4 {
      NextFrom1(t);
    } else if t < 8 {
      NextFrom4(t);
    } else if t < 12 {
      NextFrom8(t);
    } else if t < 16 {
      NextFrom12(t);
    } else if t < 20 {
      NextFrom16(t);
    } else if t < 24 {
      NextFrom20(t);
    } else if t < 28 {
      NextFrom24(t);
    } else if t < 32 {
      NextFrom28(t);
    } else if t < 36 {
      NextFrom32(t);
    } else if t < 40 {
      NextFrom36(t);
    } else if t < 44 {
      NextFrom40(t);
    } else if t < 48 {
      NextFrom44(t);
    } else if t < 52 {
      NextFrom48(t);
    } else if t < 56 {
      NextFrom52(t);
    } else if t < 60 {
      NextFrom56(t);
    } else {
      NextFrom60(t);
    }
  }

  lemma NextFrom1(t: nat)
    requires 1 <= t < 4
    ensures NextPrime(t)
  {
    assert NoneBetween(3, 3) && NoneBetween(4, 5) && NoneBetween(6, 7);
  }

  lemma NextFrom4(t: nat)
    requires 4 <= t < 8
    ensures NextPrime(t)
  {
    assert NoneBetween(8, 11) && NoneBetween(12, 13) && NoneBetween(14, 17) && NoneBetween(18, 19);
  }

  lemma NextFrom8(t: nat)
    requires 8 <= t < 12
    ensures NextPrime(t)
  {
    assert NoneBetween(20, 23) && NoneBetween(24, 29) && NoneBetween(30, 31) && NoneBetween(32, 37);
  }

  lemma NextFrom12(t: nat)
    requires 12 <= t < 16
    ensures NextPrime(t)
  {
    assert NoneBetween(38, 41) && NoneBetween(42, 43) && NoneBetween(44, 47) && NoneBetween(48, 53);
  }

  lemma NextFrom16(t: nat)
    requires 16 <= t < 20
    ensures NextPrime(t)
  {
    assert NoneBetween(54, 59) && NoneBetween(60, 61) && NoneBetween(62, 67) && NoneBetween(68, 71);
  }

  lemma NextFrom20(t: nat)
    requires 20 <= t < 24
    ensures NextPrime(t)
  {
    assert NoneBetween(72, 73) && NoneBetween(74, 79) && NoneBetween(80, 83) && NoneBetween(84, 89);
  }

  lemma NextFrom24(t: nat)
    requires 24 <= t < 28
    ensures NextPrime(t)
  {
    assert NoneBetween(90, 97) && NoneBetween(98, 101) && NoneBetween(102, 103) && NoneBetween(104, 107);
  }

  lemma NextFrom28(t: nat)
    requires 28 <= t < 32
    ensures NextPrime(t)
  {
    assert NoneBetween(108, 109) && NoneBetween(110, 113) && NoneBetween(114, 127) && NoneBetween(128, 131);
  }

  lemma NextFrom32(t: nat)
    requires 32 <= t < 36
    ensures NextPrime(t)
  {
    assert NoneBetween(132, 137) && NoneBetween(138, 139) && NoneBetween(140, 149) && NoneBetween(150, 151);
  }

  lemma NextFrom36(t: nat)
    requires 36 <= t < 40
    ensures NextPrime(t)
  {
    assert NoneBetween(152, 157) && NoneBetween(158, 163) && NoneBetween(164, 167) && NoneBetween(168, 173);
  }

  lemma NextFrom40(t: nat)
    requires 40 <= t < 44
    ensures NextPrime(t)
  {
    assert NoneBetween(174, 179) && NoneBetween(180, 181) && NoneBetween(182, 191) && NoneBetween(192, 193);
  }

  lemma NextFrom44(t: nat)
    requires 44 <= t < 48
    ensures NextPrime(t)
  {
    assert NoneBetween(194, 197) && NoneBetween(198, 199) && NoneBetween(200, 211) && NoneBetween(212, 223);
  }

  lemma NextFrom48(t: nat)
    requires 48 <= t < 52
    ensures NextPrime(t)
  {
    assert NoneBetween(224, 227) && NoneBetween(228, 229) && NoneBetween(230, 233) && NoneBetween(234, 239);
  }

  lemma NextFrom52(t: nat)
    requires 52 <= t < 56
    ensures NextPrime(t)
  {
    assert NoneBetween(240, 241) && NoneBetween(242, 251) && NoneBetween(252, 257) && NoneBetween(258, 263);
  }

  lemma NextFrom56(t: nat)
    requires 56 <= t < 60
    ensures NextPrime(t)
  {
    assert NoneBetween(264, 269) && NoneBetween(270, 271) && NoneBetween(272, 277) && NoneBetween(278, 281);
  }

  lemma NextFrom60(t: nat)
    requires 60 <= t < 64
    ensures NextPrime(t)
  {
    assert NoneBetween(282, 283) && NoneBetween(284, 293) && NoneBetween(294, 307) && NoneBetween(308, 311);
  }

  // ----- section 4.2.2 and section 5.3.3: constants -----

  /** The first 32 bits of the fractional part of the cube root of p. */
  ghost predicate IsCubeRootFraction(p: nat, word: u32) {
    exists whole: nat :: CubeRootIs(p, whole, word)
  }

  predicate CubeRootIs(p: nat, whole: nat, word: u32) {
    var n := whole * 0x1_0000_0000 + word;
    n * n * n <= p * 0x1_0000_0000_0000_0000_0000_0000 < (n + 1) * (n + 1) * (n + 1)
  }

  predicate SquareRootIs(p: nat, whole: nat, word: u32) {
    var n := whole * 0x1_0000_0000 + word;
    n * n <= p * 0x1_0000_0000_0000_0000 < (n + 1) * (n + 1)
  }

  function WholeRoot(p: nat): nat {
    if p < 8 then 1 else if p < 27 then 2 else if p < 64 then 3 else if p < 125 then 4 else if p < 216 then 5 else 6
  }

  lemma RootsOfFirstRows(row: nat, i: nat)
    requires row < 4 && i < 8
    ensures CubeRootIs(At(PrimeRow(row), i), WholeRoot(At(PrimeRow(row), i)), At(KRow(row), i))
  {
  }

  lemma RootsOfLastRows(row: nat, i: nat)
    requires 4 <= row < 8 && i < 8
    ensures CubeRootIs(At(PrimeRow(row), i), WholeRoot(At(PrimeRow(row), i)), At(KRow(row), i))
  {
  }

  /** Round constant t is the beginning of the fraction of the cube root of the t-th prime. */
  lemma RoundConstants(t: nat)
    requires t < 64
    ensures IsCubeRootFraction(Prime(t), Constant(t))
  {
    hide CubeRootIs, At, PrimeRow, KRow, WholeRoot;
    if t < 32 {
      RootsOfFirstRows(t / 8, t % 8);
    } else {
      RootsOfLastRows(t / 8, t % 8);
    }
  }

  /** The initial hash value is the beginnings of the fractions of the square roots of the first eight primes. */
  lemma InitialValue()
    ensures SquareRootIs(Prime(0), 1, INITIAL.a) && SquareRootIs(Prime(1), 1, INITIAL.b)
    ensures SquareRootIs(Prime(2), 2, INITIAL.c) && SquareRootIs(Prime(3), 2, INITIAL.d)
    ensures SquareRootIs(Prime(4), 3, INITIAL.e) && SquareRootIs(Prime(5), 3, INITIAL.f)
    ensures SquareRootIs(Prime(6), 4, INITIAL.g) && SquareRootIs(Prime(7), 4, INITIAL.h)
  {
  }

  // ----- section 4.1.2: functions -----

  lemma ThereAndBack(w: bv32)
    ensures (w as u32) as bv32 == w
  {
  }

  /** The functions on numbers are those on words. */
  lemma FunctionsOnNumbers(x: u32, y: u32, z: u32)
    ensures Choose(x, y, z) as bv32 == WordBits.Choose(x as bv32, y as bv32, z as bv32)
    ensures Majority(x, y, z) as bv32 == WordBits.Majority(x as bv32, y as bv32, z as bv32)
    ensures BigSigma0(x) as bv32 == WordBits.BigSigma0(x as bv32)
    ensures BigSigma1(x) as bv32 == WordBits.BigSigma1(x as bv32)
    ensures SmallSigma0(x) as bv32 == WordBits.SmallSigma0(x as bv32)
    ensures SmallSigma1(x) as bv32 == WordBits.SmallSigma1(x as bv32)
  {
    hide WordBits.Choose, WordBits.Majority, WordBits.BigSigma0, WordBits.BigSigma1, WordBits.SmallSigma0;
    hide WordBits.SmallSigma1;
    ThereAndBack(WordBits.Choose(x as bv32, y as bv32, z as bv32));
    ThereAndBack(WordBits.Majority(x as bv32, y as bv32, z as bv32));
    ThereAndBack(WordBits.BigSigma0(x as bv32));
    ThereAndBack(WordBits.BigSigma1(x as bv32));
    ThereAndBack(WordBits.SmallSigma0(x as bv32));
    ThereAndBack(WordBits.SmallSigma1(x as bv32));
  }

  // ----- section 6.2.2: sums modulo 2^32 -----

  lemma SumOfTwo(a: nat, b: nat)
    ensures (a % 0x1_0000_0000 + b) % 0x1_0000_0000 == (a + b) % 0x1_0000_0000
  {
    SumOfThree(a, 0, b);
  }

  /** Word t of the schedule: a word of the block, highest byte first, or the sum of four earlier words, two of them
      mixed. */
  lemma ScheduledWords(block: seq<byte>, t: nat)
    requires |block| == 64 && t < 64
    ensures t < 16 ==>
              W(block, t) == block[4 * t] as nat * 0x100_0000 + block[4 * t + 1] as nat * 0x1_0000
                             + block[4 * t + 2] as nat * 0x100 + block[4 * t + 3]
    ensures t >= 16 ==>
              W(block, t) == Four(SmallSigma1(W(block, t - 2)), W(block, t - 7), SmallSigma0(W(block, t - 15)),
                                  W(block, t - 16)) % 0x1_0000_0000
  {
    hide SmallSigma0, SmallSigma1, Sum;
    if t >= 16 {
      FourSummed(SmallSigma1(W(block, t - 2)), W(block, t - 7), SmallSigma0(W(block, t - 15)), W(block, t - 16));
    }
  }

  function Four(a: nat, b: nat, c: nat, d: nat): nat {
    a + b + c + d
  }

  lemma FourSummed(a: u32, b: u32, c: u32, d: u32)
    ensures Sum(Sum(Sum(a, b), c), d) == Four(a, b, c, d) % 0x1_0000_0000
  {
    SumOfTwo(a as nat + b, c);
    SumOfTwo(a as nat + b + c, d);
  }

  lemma FiveSummed(a: u32, b: u32, c: u32, d: u32, e: u32)
    ensures Sum(Sum(Sum(Sum(a, b), c), d), e) == (Four(a, b, c, d) + e) % 0x1_0000_0000
  {
    hide Four;
    FourSummed(a, b, c, d);
    SumOfTwo(Four(a, b, c, d), e);
  }

  /** One round: every variable moves on by one, and the fifth and the first take up the two sums. */
  lemma OneRound(s: Vars, k: u32, w: u32)
    ensures var t1: nat := Four(s.h, BigSigma1(s.e), Choose(s.e, s.f, s.g), k) + w;
            var t2: nat := Four(BigSigma0(s.a), Majority(s.a, s.b, s.c), 0, 0);
            Round(s, k, w) == Vars((t1 + t2) % 0x1_0000_0000, s.a, s.b, s.c, (s.d + t1) % 0x1_0000_0000, s.e, s.f, s.g)
  {
    hide BigSigma0, BigSigma1, Choose, Majority, Four, Sum;
    var t1: nat := Four(s.h, BigSigma1(s.e), Choose(s.e, s.f, s.g), k) + w;
    var t2: nat := Four(BigSigma0(s.a), Majority(s.a, s.b, s.c), 0, 0);
    FiveSummed(s.h, BigSigma1(s.e), Choose(s.e, s.f, s.g), k, w);
    TwoSummed(BigSigma0(s.a), Majority(s.a, s.b, s.c));
    SumsAdded(t1, t2);
    SumsAdded(s.d, t1);
    SmallModulo(s.d);
  }

  lemma SmallModulo(x: u32)
    ensures x % 0x1_0000_0000 == x
  {
  }

  lemma TwoSummed(a: u32, b: u32)
    ensures Sum(a, b) == Four(a, b, 0, 0) % 0x1_0000_0000
  {
  }

  lemma SumsAdded(a: nat, b: nat)
    ensures Sum(a % 0x1_0000_0000, b % 0x1_0000_0000) == (a + b) % 0x1_0000_0000
  {
    SumOfTwo(a, b % 0x1_0000_0000);
    SumOfTwo(b, a);
  }

  /** A block: 64 rounds, and then word by word the sum with what there was before. */
  lemma OneBlock(s: Vars, block: seq<byte>) returns (v: seq<Vars>)
    requires |block| == 64
    ensures |v| == 65 && v[0] == s
    ensures forall t :: 0 <= t < 64 ==> v[t + 1] == Round(v[t], Constant(t), W(block, t))
    ensures var e := v[64];
            Compressed(s, block) ==
            Vars((e.a + s.a) % 0x1_0000_0000, (e.b + s.b) % 0x1_0000_0000, (e.c + s.c) % 0x1_0000_0000,
                 (e.d + s.d) % 0x1_0000_0000, (e.e + s.e) % 0x1_0000_0000, (e.f + s.f) % 0x1_0000_0000,
                 (e.g + s.g) % 0x1_0000_0000, (e.h + s.h) % 0x1_0000_0000)
  {
    hide Round, Constant, W, Plus, Rounds;
    v := seq(65, n requires 0 <= n < 65 => Rounds(s, block, n));
    forall t | 0 <= t < 64
      ensures v[t + 1] == Round(v[t], Constant(t), W(block, t))
    {
      NextRound(s, block, t);
    }
    NoRound(s, block);
    WordsAdded(v[64], s);
  }

  lemma NextRound(s: Vars, block: seq<byte>, t: nat)
    requires |block| == 64 && t < 64
    ensures Rounds(s, block, t + 1) == Round(Rounds(s, block, t), Constant(t), W(block, t))
  {
    hide Round, Constant, W;
  }

  lemma NoRound(s: Vars, block: seq<byte>)
    requires |block| == 64
    ensures Rounds(s, block, 0) == s
  {
  }

  lemma WordsAdded(e: Vars, s: Vars)
    ensures Plus(e, s) ==
            Vars((e.a + s.a) % 0x1_0000_0000, (e.b + s.b) % 0x1_0000_0000, (e.c + s.c) % 0x1_0000_0000,
                 (e.d + s.d) % 0x1_0000_0000, (e.e + s.e) % 0x1_0000_0000, (e.f + s.f) % 0x1_0000_0000,
                 (e.g + s.g) % 0x1_0000_0000, (e.h + s.h) % 0x1_0000_0000)
  {
  }

  /** A message: its blocks in turn, from the initial value on. */
  lemma {:induction false} BlockAfterBlock(bytes: seq<byte>) returns (h: seq<Vars>)
    requires |bytes| % 64 == 0
    ensures |h| == |bytes| / 64 + 1 && h[0] == INITIAL && h[|bytes| / 64] == Folded(bytes)
    ensures forall i :: 0 <= i < |bytes| / 64 ==> h[i + 1] == Compressed(h[i], bytes[64 * i..64 * i + 64])
    decreases |bytes|
  {
    hide Compressed, Folded, Rounds, Plus;
    if bytes == [] {
      NoBlock();
      h := [INITIAL];
    } else {
      var n := |bytes| / 64 - 1;
      var front := BlockAfterBlock(bytes[..|bytes| - 64]);
      h := front + [Folded(bytes)];
      var last := bytes[|bytes| - 64..];
      FoldedBlock(bytes[..|bytes| - 64], last);
      assert bytes[..|bytes| - 64] + last == bytes && last == bytes[64 * n..64 * n + 64];
      forall i | 0 <= i < n
        ensures h[i + 1] == Compressed(h[i], bytes[64 * i..64 * i + 64])
      {
        EarlierBlock(bytes, i);
        assert h[i + 1] == front[i + 1] && h[i] == front[i];
      }
    }
  }

  lemma NoBlock()
    ensures Folded([]) == INITIAL
  {
  }

  lemma EarlierBlock(bytes: seq<byte>, i: nat)
    requires |bytes| % 64 == 0 && bytes != [] && i < |bytes| / 64 - 1
    ensures bytes[..|bytes| - 64][64 * i..64 * i + 64] == bytes[64 * i..64 * i + 64]
  {
  }

  lemma HashOfMessage(message: seq<byte>)
    ensures |message + Padding(|message|)| % 64 == 0
    ensures Hash(message) == Output(Folded(message + Padding(|message|)))
  {
  }

  // ----- bytes -----

  /** Numbers are written highest byte first. */
  lemma {:induction false} HighestFirst(x: nat, n: nat, i: nat)
    requires i < n
    ensures BigEndian(x, n)[i] == Digit(x, n - 1 - i)
    decreases n
  {
    if i == n - 1 {
      assert Pow2(0) == 1;
    } else {
      HighestFirst(x / 0x100, n - 1, i);
      NextDigit(x, n - 1 - i);
    }
  }

  /** What follows a message: a one bit, zeros up to eight bytes before a block's end, and the length in bits. */
  lemma PaddingBytes(n: nat)
    ensures var p, k := Padding(n), |Padding(n)|;
            && k >= 9 && k < 73 && (n + k) % 64 == 0 && p[0] == 0x80
            && (forall i :: 1 <= i < k - 8 ==> p[i] == 0)
            && forall i :: k - 8 <= i < k ==> p[i] == Digit(8 * n % 0x1_0000_0000_0000_0000, k - 1 - i)
  {
    hide BigEndian;
    var p, k := Padding(n), |Padding(n)|;
    var length := BigEndian(8 * n % 0x1_0000_0000_0000_0000, 8);
    assert p[k - 8..] == length;
    forall i | k - 8 <= i < k
      ensures p[i] == Digit(8 * n % 0x1_0000_0000_0000_0000, k - 1 - i)
    {
      HighestFirst(8 * n % 0x1_0000_0000_0000_0000, 8, i - (k - 8));
      assert p[i] == p[k - 8..][i - (k - 8)];
    }
  }

  function Variable(s: Vars, v: nat): u32
    requires v < 8
  {
    match v
    case 0 => s.a
    case 1 => s.b
    case 2 => s.c
    case 3 => s.d
    case 4 => s.e
    case 5 => s.f
    case 6 => s.g
    case _ => s.h
  }

  /** The digest is the eight words in order. */
  lemma DigestBytes(s: Vars, v: nat, i: nat)
    requires v < 8 && i < 4
    ensures Output(s)[4 * v + i] == Digit(Variable(s, v), 3 - i)
  {
    hide BigEndian;
    HighestFirst(Variable(s, v), 4, i);
    WordOfDigest(s, v, i);
  }

  lemma WordOfDigest(s: Vars, v: nat, i: nat)
    requires v < 8 && i < 4
    ensures Output(s)[4 * v + i] == BigEndian(Variable(s, v), 4)[i]
  {
    hide BigEndian;
  }
}
