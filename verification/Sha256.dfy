/** SHA-256 as FIPS 180-4 defines it, and the streaming hasher that computes it. */
module Sha256 {
  import opened Bits
  import WordBits

  // ----- section 4.1.2: functions on 32-bit words -----

  /** Addition modulo 2^32. */
  function Sum(x: u32, y: u32): u32 {
    (x + y) % 0x1_0000_0000
  }

  /** The functions on words, here on numbers. */
  function Choose(x: u32, y: u32, z: u32): u32 {
    WordBits.Choose(x as bv32, y as bv32, z as bv32) as u32
  }

  function Majority(x: u32, y: u32, z: u32): u32 {
    WordBits.Majority(x as bv32, y as bv32, z as bv32) as u32
  }

  function BigSigma0(x: u32): u32 {
    WordBits.BigSigma0(x as bv32) as u32
  }

  function BigSigma1(x: u32): u32 {
    WordBits.BigSigma1(x as bv32) as u32
  }

  function SmallSigma0(x: u32): u32 {
    WordBits.SmallSigma0(x as bv32) as u32
  }

  function SmallSigma1(x: u32): u32 {
    WordBits.SmallSigma1(x as bv32) as u32
  }

  // ----- section 4.2.2: constants -----

  /** Eight constants in a row. */
  datatype Eight = Eight(k0: u32, k1: u32, k2: u32, k3: u32, k4: u32, k5: u32, k6: u32, k7: u32)

  function At(e: Eight, i: nat): u32
    requires i < 8
  {
    match i
    case 0 => e.k0
    case 1 => e.k1
    case 2 => e.k2
    case 3 => e.k3
    case 4 => e.k4
    case 5 => e.k5
    case 6 => e.k6
    case _ => e.k7
  }

  function KRow(row: nat): Eight
    requires row < 8
  {
    match row
    case 0 =>
      Eight(0x428a2f98, 0x71374491, 0xb5c0fbcf, 0xe9b5dba5, 0x3956c25b, 0x59f111f1, 0x923f82a4, 0xab1c5ed5)
    case 1 =>
      Eight(0xd807aa98, 0x12835b01, 0x243185be, 0x550c7dc3, 0x72be5d74, 0x80deb1fe, 0x9bdc06a7, 0xc19bf174)
    case 2 =>
      Eight(0xe49b69c1, 0xefbe4786, 0x0fc19dc6, 0x240ca1cc, 0x2de92c6f, 0x4a7484aa, 0x5cb0a9dc, 0x76f988da)
    case 3 =>
      Eight(0x983e5152, 0xa831c66d, 0xb00327c8, 0xbf597fc7, 0xc6e00bf3, 0xd5a79147, 0x06ca6351, 0x14292967)
    case 4 =>
      Eight(0x27b70a85, 0x2e1b2138, 0x4d2c6dfc, 0x53380d13, 0x650a7354, 0x766a0abb, 0x81c2c92e, 0x92722c85)
    case 5 =>
      Eight(0xa2bfe8a1, 0xa81a664b, 0xc24b8b70, 0xc76c51a3, 0xd192e819, 0xd6990624, 0xf40e3585, 0x106aa070)
    case 6 =>
      Eight(0x19a4c116, 0x1e376c08, 0x2748774c, 0x34b0bcb5, 0x391c0cb3, 0x4ed8aa4a, 0x5b9cca4f, 0x682e6ff3)
    case _ =>
      Eight(0x748f82ee, 0x78a5636f, 0x84c87814, 0x8cc70208, 0x90befffa, 0xa4506ceb, 0xbef9a3f7, 0xc67178f2)
  }

  function Constant(t: nat): u32
    requires t < 64
  {
    At(KRow(t / 8), t % 8)
  }

  /** The eight working variables, and the eight words of a hash value. */
  datatype Vars = Vars(a: u32, b: u32, c: u32, d: u32, e: u32, f: u32, g: u32, h: u32)

  const INITIAL: Vars := Vars(0x6a09e667, 0xbb67ae85, 0x3c6ef372, 0xa54ff53a, 0x510e527f, 0x9b05688c, 0x1f83d9ab,
                              0x5be0cd19)

  // ----- section 5.1.1: padding -----

  /** The low n bytes of x, highest first. */
  function BigEndian(x: nat, n: nat): (r: seq<byte>)
    ensures |r| == n
  {
    if n == 0 then [] else BigEndian(x / 0x100, n - 1) + [x % 0x100]
  }

  /** How many zero bytes bring a message, its end mark and its length to whole blocks. */
  function PadLength(n: nat): (k: nat)
    ensures k < 64 && (n + 1 + k + 8) % 64 == 0
  {
    (119 - n % 64) % 64
  }

  /** A one bit, zeros, and the length in bits as a 64-bit number. */
  function Padding(n: nat): (r: seq<byte>)
    ensures (n + |r|) % 64 == 0
  {
    [0x80] + Zeros(PadLength(n)) + BigEndian(8 * n % 0x1_0000_0000_0000_0000, 8)
  }

  /** No fewer zeros would do. */
  lemma PaddingIsLeast(n: nat, k: nat)
    requires (n + 1 + k + 8) % 64 == 0
    ensures PadLength(n) <= k
  {
  }

  // ----- section 6.2.2: computation -----

  function WordAt(block: seq<byte>, t: nat): u32
    requires |block| == 64 && t < 16
  {
    FromBigEndian(block[4 * t], block[4 * t + 1], block[4 * t + 2], block[4 * t + 3])
  }

  function FromBigEndian(a: byte, b: byte, c: byte, d: byte): u32 {
    ((a as nat * 0x100 + b) * 0x100 + c) * 0x100 + d
  }

  /** The message schedule. */
  function W(block: seq<byte>, t: nat): u32
    requires |block| == 64 && t < 64
  {
    if t < 16 then WordAt(block, t)
    else Sum(Sum(Sum(SmallSigma1(W(block, t - 2)), W(block, t - 7)), SmallSigma0(W(block, t - 15))), W(block, t - 16))
  }

  function Round(s: Vars, k: u32, w: u32): Vars {
    var t1 := Sum(Sum(Sum(Sum(s.h, BigSigma1(s.e)), Choose(s.e, s.f, s.g)), k), w);
    var t2 := Sum(BigSigma0(s.a), Majority(s.a, s.b, s.c));
    Vars(Sum(t1, t2), s.a, s.b, s.c, Sum(s.d, t1), s.e, s.f, s.g)
  }

  function Rounds(s: Vars, block: seq<byte>, n: nat): Vars
    requires |block| == 64 && n <= 64
  {
    if n == 0 then s else Round(Rounds(s, block, n - 1), Constant(n - 1), W(block, n - 1))
  }

  function Plus(s: Vars, t: Vars): Vars {
    Vars(Sum(s.a, t.a), Sum(s.b, t.b), Sum(s.c, t.c), Sum(s.d, t.d), Sum(s.e, t.e), Sum(s.f, t.f), Sum(s.g, t.g),
         Sum(s.h, t.h))
  }

  function Compressed(s: Vars, block: seq<byte>): Vars
    requires |block| == 64
  {
    Plus(Rounds(s, block, 64), s)
  }

  /** The hash value after the whole blocks of some bytes. */
  function Folded(bytes: seq<byte>): Vars
    requires |bytes| % 64 == 0
    decreases |bytes|
  {
    if bytes == [] then INITIAL
    else
      var n := |bytes| - 64;
      Compressed(Folded(bytes[..n]), bytes[n..])
  }

  function Output(s: Vars): (r: seq<byte>)
    ensures |r| == 32
  {
    BigEndian(s.a, 4) + BigEndian(s.b, 4) + BigEndian(s.c, 4) + BigEndian(s.d, 4)
    + BigEndian(s.e, 4) + BigEndian(s.f, 4) + BigEndian(s.g, 4) + BigEndian(s.h, 4)
  }

  function Hash(message: seq<byte>): (r: seq<byte>)
    ensures |r| == 32
  {
    Output(Folded(message + Padding(|message|)))
  }

  lemma FoldedBlock(bytes: seq<byte>, block: seq<byte>)
    requires |bytes| % 64 == 0 && |block| == 64
    ensures Folded(bytes + block) == Compressed(Folded(bytes), block)
  {
    hide Compressed;
    assert (bytes + block)[..|bytes|] == bytes && (bytes + block)[|bytes|..] == block;
  }

  // ----- the streaming hasher -----

  /** The schedule word by word, with the sum in another order. */
  method Schedule(block: seq<byte>) returns (w: array<u32>)
    requires |block| == 64
    ensures fresh(w) && w.Length == 64 && forall t :: 0 <= t < 64 ==> w[t] == W(block, t)
  {
    hide WordAt, SmallSigma0, SmallSigma1, Sum;
    w := new u32[64](_ => 0);
    for i := 0 to 16
      invariant forall t :: 0 <= t < i ==> w[t] == W(block, t)
    {
      w[i] := WordAt(block, i);
    }
    for i := 16 to 64
      invariant forall t :: 0 <= t < i ==> w[t] == W(block, t)
    {
      var s0 := SmallSigma0(w[i - 15]);
      var s1 := SmallSigma1(w[i - 2]);
      SumOrder(w[i - 16], s0, w[i - 7], s1);
      w[i] := Sum(Sum(Sum(w[i - 16], s0), w[i - 7]), s1);
    }
  }

  lemma SumCommutes(a: u32, b: u32)
    ensures Sum(a, b) == Sum(b, a)
  {
  }

  lemma SumAssociates(a: u32, b: u32, c: u32)
    ensures Sum(Sum(a, b), c) == Sum(a, Sum(b, c))
  {
    SumOfThree(a, b, c);
    SumOfThree(b, c, a);
  }

  lemma SumOfThree(a: nat, b: nat, c: nat)
    ensures ((a + b) % 0x1_0000_0000 + c) % 0x1_0000_0000 == (a + b + c) % 0x1_0000_0000
  {
    var (q, r) := ((a + b) / 0x1_0000_0000, (a + b) % 0x1_0000_0000);
    assert a + b + c == r + c + q * 0x1_0000_0000;
  }

  lemma SumOrder(a: u32, b: u32, c: u32, d: u32)
    ensures Sum(Sum(Sum(a, b), c), d) == Sum(Sum(Sum(d, c), b), a)
  {
    hide Sum;
    SumCommutes(Sum(Sum(a, b), c), d);
    SumCommutes(Sum(a, b), c);
    SumCommutes(a, b);
    SumAssociates(d, c, Sum(b, a));
    SumAssociates(Sum(d, c), b, a);
  }

  method CompressBlock(s: Vars, block: seq<byte>) returns (r: Vars)
    requires |block| == 64
    ensures r == Compressed(s, block)
  {
    hide BigSigma0, BigSigma1, Choose, Majority, W, Sum, Constant;
    var w := Schedule(block);
    var (a, b, c, d, e, f, g, h) := (s.a, s.b, s.c, s.d, s.e, s.f, s.g, s.h);
    for i := 0 to 64
      invariant Vars(a, b, c, d, e, f, g, h) == Rounds(s, block, i)
    {
      var t1 := Sum(Sum(Sum(Sum(h, BigSigma1(e)), Choose(e, f, g)), Constant(i)), w[i]);
      var t2 := Sum(BigSigma0(a), Majority(a, b, c));
      h, g, f := g, f, e;
      e := Sum(d, t1);
      d, c, b := c, b, a;
      a := Sum(t1, t2);
    }
    r := Plus(s, Vars(a, b, c, d, e, f, g, h));
    PlusCommutes(s, Vars(a, b, c, d, e, f, g, h));
  }

  lemma PlusCommutes(s: Vars, t: Vars)
    ensures Plus(s, t) == Plus(t, s)
  {
  }

  /** The hash value after these bytes, and the bytes behind the last whole block. */
  ghost predicate Holds(state: Vars, tail: seq<byte>, data: seq<byte>) {
    var n := |data| - |data| % 64;
    state == Folded(data[..n]) && tail == data[n..]
  }

  /** Some more bytes, not past the end of the block that is being filled. */
  lemma HoldsMore(state: Vars, tail: seq<byte>, data: seq<byte>, more: seq<byte>)
    requires Holds(state, tail, data) && |tail| + |more| <= 64
    ensures |tail| + |more| < 64 ==> Holds(state, tail + more, data + more)
    ensures |tail| + |more| == 64 ==> Holds(Compressed(state, tail + more), [], data + more)
  {
    hide Compressed, Folded;
    var n := |data| - |data| % 64;
    var all := data + more;
    if |tail| + |more| == 64 {
      FoldedBlock(data[..n], tail + more);
      assert all[..n + 64] == data[..n] + (tail + more);
      assert all[n + 64..] == [];
    } else {
      assert all[..n] == data[..n] && all[n..] == tail + more;
    }
  }

  class Hasher {
    var state: Vars
    var len: u64
    const buf: array<byte>
    var bufLen: nat
    /** Everything hashed so far. */
    ghost var data: seq<byte>

    ghost predicate Valid()
      reads this, buf
    {
      Stands() && len == |data| % 0x1_0000_0000_0000_0000
    }

    ghost predicate Stands()
      reads this, buf
    {
      buf.Length == 64 && bufLen < 64 && Holds(state, buf[..bufLen], data)
    }

    constructor ()
      ensures Valid() && fresh(buf) && data == []
    {
      state, len, bufLen, data := INITIAL, 0, 0, [];
      buf := new byte[64](_ => 0);
    }

    /** Copy bytes into the buffer behind what it holds. */
    method Fill(more: seq<byte>)
      requires buf.Length == 64 && bufLen + |more| <= 64
      modifies this`bufLen, buf
      ensures bufLen == old(bufLen) + |more|
      ensures buf[..bufLen] == old(buf[..bufLen]) + more
    {
      forall i | 0 <= i < |more| {
        buf[bufLen + i] := more[i];
      }
      bufLen := bufLen + |more|;
    }

    /** Take more bytes up to the end of the block that is being filled, and compress it if it is full. */
    method TopUp(more: seq<byte>)
      requires Stands() && bufLen + |more| <= 64
      modifies this`state, this`bufLen, this`data, buf
      ensures Stands() && data == old(data) + more
      ensures bufLen == if old(bufLen) + |more| == 64 then 0 else old(bufLen) + |more|
    {
      hide Holds;
      HoldsMore(state, buf[..bufLen], data, more);
      Fill(more);
      data := data + more;
      if bufLen == 64 {
        assert buf[..64] == buf[..];
        state := CompressBlock(state, buf[..]);
        bufLen := 0;
        assert buf[..0] == [];
      }
    }

    /** Compress whole blocks straight from the input; the rest of it is too short for one. */
    method TakeBlocks(input: seq<byte>) returns (rest: seq<byte>)
      requires Stands() && bufLen == 0
      modifies this`state, this`data
      ensures Stands() && |rest| < 64
      ensures data + rest == old(data) + input
    {
      hide Holds;
      rest := input;
      while |rest| >= 64
        invariant Stands() && data + rest == old(data) + input
        decreases |rest|
      {
        HoldsMore(state, [], data, rest[..64]);
        assert [] + rest[..64] == rest[..64] && buf[..0] == [];
        assert data + rest == data + rest[..64] + rest[64..];
        state := CompressBlock(state, rest[..64]);
        data := data + rest[..64];
        rest := rest[64..];
      }
    }

    method Update(input: seq<byte>)
      requires Valid()
      modifies this, buf
      ensures Valid() && data == old(data) + input
    {
      hide Holds;
      LengthWraps(|data|, |input|);
      len := (len + |input| % 0x1_0000_0000_0000_0000) % 0x1_0000_0000_0000_0000;
      var rest := input;
      if bufLen != 0 {
        var n := if 64 - bufLen < |input| then 64 - bufLen else |input|;
        TopUp(input[..n]);
        rest := input[n..];
        assert data + rest == old(data) + input;
      }
      Absorb(rest);
    }

    /** What is left of the input after topping up: nothing, unless the buffer is empty. */
    method Absorb(input: seq<byte>)
      requires Stands() && (bufLen == 0 || input == [])
      modifies this`state, this`bufLen, this`data, buf
      ensures Stands() && data == old(data) + input
    {
      hide Holds;
      if bufLen == 0 {
        var rest := TakeBlocks(input);
        if rest != [] {
          HoldsMore(state, [], data, rest);
          assert buf[..0] == [] && [] + rest == rest;
          Fill(rest);
          data := data + rest;
        }
      }
    }
  
    /** Compress the full buffer, which ends with what was put in last. */
    method Flush(ghost tail: seq<byte>, ghost more: seq<byte>)
      requires buf.Length == 64 && bufLen == 64 && buf[..bufLen] == tail + more && Holds(state, tail, data)
      modifies this`state, this`bufLen, this`data
      ensures Stands() && bufLen == 0 && data == old(data) + more
    {
      hide Holds;
      HoldsMore(state, tail, data, more);
      assert buf[..64] == buf[..];
      state := CompressBlock(state, buf[..]);
      bufLen := 0;
      data := data + more;
      assert buf[..0] == [];
    }

    /** Append the end mark, and zeros to the end of the block if the length no longer fits behind it. */
    method MarkEnd()
      requires Stands()
      modifies this`state, this`bufLen, this`data, buf
      ensures Stands() && bufLen <= 56
      ensures bufLen == if old(bufLen) + 1 > 56 then 0 else old(bufLen) + 1
      ensures data == old(data) + [0x80] + Zeros(if old(bufLen) + 1 > 56 then 63 - old(bufLen) else 0)
    {
      hide Holds;
      ghost var tail := buf[..bufLen];
      HoldsMore(state, tail, data, [0x80]);
      Fill([0x80]);
      if bufLen > 56 {
        ghost var more := [0x80] + Zeros(64 - bufLen);
        assert tail + [0x80] + Zeros(64 - bufLen) == tail + more;
        Fill(Zeros(64 - bufLen));
        Flush(tail, more);
      } else {
        data := data + [0x80];
      }
    }

    /** Append the end mark, and fill up with zeros to where the length goes. */
    method PadToLength()
      requires Stands()
      modifies this`state, this`bufLen, this`data, buf
      ensures Stands() && bufLen == 56
      ensures data == old(data) + [0x80] + Zeros(PadLength(|old(data)|))
    {
      hide Holds;
      ghost var before := bufLen;
      StandingLength(state, buf[..bufLen], data);
      MarkEnd();
      ghost var n := 56 - bufLen;
      HoldsMore(state, buf[..bufLen], data, Zeros(n));
      data := data + Zeros(n);
      Fill(Zeros(56 - bufLen));
      ZerosTogether(if before + 1 > 56 then 63 - before else 0, n);
    }

    method Finalize() returns (digest: seq<byte>)
      requires Valid()
      modifies this, buf
      ensures digest == Hash(old(data))
    {
      hide Holds;
      var bitLen := len * 8 % 0x1_0000_0000_0000_0000;
      LengthInBits(|data|);
      ghost var message := data;
      PadToLength();
      ghost var tail := buf[..bufLen];
      Fill(BigEndian(bitLen, 8));
      Flush(tail, BigEndian(bitLen, 8));
      assert data == message + Padding(|message|);
      AllFolded(state, data);
      digest := Output(state);
    }
  }

  lemma ZerosTogether(a: nat, b: nat)
    ensures Zeros(a) + Zeros(b) == Zeros(a + b)
  {
  }

  lemma StandingLength(state: Vars, tail: seq<byte>, data: seq<byte>)
    requires Holds(state, tail, data)
    ensures |tail| == |data| % 64
  {
    hide Folded;
  }

  lemma LengthInBits(n: nat)
    ensures n % 0x1_0000_0000_0000_0000 * 8 % 0x1_0000_0000_0000_0000 == 8 * n % 0x1_0000_0000_0000_0000
  {
    var (q, r) := (n / WORD, n % WORD);
    assert 8 * n == 8 * r + 8 * q * WORD;
    WholeWords(8 * r, 8 * q);
  }

  lemma WholeWords(x: nat, k: nat)
    ensures (x + k * WORD) % WORD == x % WORD
  {
  }

  lemma AllFolded(state: Vars, data: seq<byte>)
    requires Holds(state, [], data)
    ensures |data| % 64 == 0 && state == Folded(data)
  {
    hide Folded;
    StandingLength(state, [], data);
    assert data[..|data|] == data;
  }

  lemma LengthWraps(a: nat, b: nat)
    ensures (a + b) % 0x1_0000_0000_0000_0000 ==
            (a % 0x1_0000_0000_0000_0000 + b % 0x1_0000_0000_0000_0000) % 0x1_0000_0000_0000_0000
  {
  }

  // ----- any way of splitting -----

  function Concat(chunks: seq<seq<byte>>): seq<byte> {
    if chunks == [] then [] else Concat(chunks[..|chunks| - 1]) + chunks[|chunks| - 1]
  }

  /** However a message is cut into pieces, hashing them one after another hashes the message. */
  method HashChunks(chunks: seq<seq<byte>>) returns (digest: seq<byte>)
    ensures digest == Hash(Concat(chunks))
  {
    var h := new Hasher();
    for i := 0 to |chunks|
      invariant h.Valid() && fresh(h) && fresh(h.buf) && h.data == Concat(chunks[..i])
    {
      assert chunks[..i + 1][..i] == chunks[..i];
      h.Update(chunks[i]);
    }
    assert chunks[..|chunks|] == chunks;
    digest := h.Finalize();
  }
}
