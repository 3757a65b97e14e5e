/** Numbers as bytes, lowest first. */
module LittleEndians {
  import opened Bits

  /** The low n bytes of x, lowest first. */
  function LittleEndian(x: nat, n: nat): (r: seq<byte>)
    ensures |r| == n
  {
    if n == 0 then [] else [x % 0x100] + LittleEndian(x / 0x100, n - 1)
  }

  function FromLittleEndian(s: seq<byte>): (x: nat)
    ensures x < Pow2(8 * |s|)
    decreases |s|
  {
    if s == [] then 0
    else
      BytePower(|s| - 1);
      s[0] + 0x100 * FromLittleEndian(s[1..])
  }

  lemma BytePower(n: nat)
    ensures Pow2(8 * (n + 1)) == 0x100 * Pow2(8 * n)
    ensures Pow2(0) == 1
  {
    assert 8 * (n + 1) == 8 * n + 8;
    assert forall k: nat {:trigger Pow2(k)} :: k > 0 ==> Pow2(k) == 2 * Pow2(k - 1);
  }

  lemma {:induction false} NumberReadBack(x: nat, n: nat)
    requires x < Pow2(8 * n)
    ensures FromLittleEndian(LittleEndian(x, n)) == x
  {
    BytePower(if n > 0 then n - 1 else 0);
    if n > 0 {
      var s := LittleEndian(x, n);
      assert s[1..] == LittleEndian(x / 0x100, n - 1);
      NumberReadBack(x / 0x100, n - 1);
    }
  }

  lemma {:induction false} NumberWrittenBack(s: seq<byte>)
    ensures LittleEndian(FromLittleEndian(s), |s|) == s
    decreases |s|
  {
    if s != [] {
      NumberWrittenBack(s[1..]);
      assert FromLittleEndian(s) % 0x100 == s[0] && FromLittleEndian(s) / 0x100 == FromLittleEndian(s[1..]);
    }
  }

  lemma EightBytes()
    ensures Pow2(64) == 0x1_0000_0000_0000_0000
  {
    Powers();
    Pow2Add(8, 56);
    assert 0x100 * 0x100_0000_0000_0000 == 0x1_0000_0000_0000_0000;
  }

  function WordBytes(x: u64): (r: seq<byte>)
    ensures |r| == 8
  {
    LittleEndian(x, 8)
  }

  function ReadWord(s: seq<byte>): u64
    requires |s| == 8
  {
    EightBytes();
    FromLittleEndian(s)
  }

  lemma WordReadBack(x: u64)
    ensures ReadWord(WordBytes(x)) == x
  {
    EightBytes();
    NumberReadBack(x, 8);
  }

  lemma WordWrittenBack(s: seq<byte>)
    requires |s| == 8
    ensures WordBytes(ReadWord(s)) == s
  {
    NumberWrittenBack(s);
  }

  // ----- lists of words -----

  function Words(ns: seq<u64>): (r: seq<byte>)
    ensures |r| == 8 * |ns|
  {
    if ns == [] then [] else WordBytes(ns[0]) + Words(ns[1..])
  }

  function ReadWords(s: seq<byte>): (ns: seq<u64>)
    requires |s| % 8 == 0
    ensures 8 * |ns| == |s|
    decreases |s|
  {
    if s == [] then [] else [ReadWord(s[..8])] + ReadWords(s[8..])
  }

  lemma {:induction false} WordsReadBack(ns: seq<u64>)
    ensures ReadWords(Words(ns)) == ns
  {
    hide WordBytes, ReadWord;
    if ns != [] {
      WordReadBack(ns[0]);
      WordsReadBack(ns[1..]);
      var s := Words(ns);
      assert s[..8] == WordBytes(ns[0]) && s[8..] == Words(ns[1..]);
    }
  }

  lemma {:induction false} WordsWrittenBack(s: seq<byte>)
    requires |s| % 8 == 0
    ensures Words(ReadWords(s)) == s
    decreases |s|
  {
    hide WordBytes, ReadWord;
    if s != [] {
      WordWrittenBack(s[..8]);
      WordsWrittenBack(s[8..]);
      assert s[..8] + s[8..] == s;
    }
  }

  lemma {:induction false} WordAt(s: seq<byte>, i: nat)
    requires |s| % 8 == 0 && 8 * i + 8 <= |s|
    ensures ReadWords(s)[i] == ReadWord(s[8 * i..8 * i + 8])
    decreases i
  {
    hide ReadWord;
    if i > 0 {
      WordAt(s[8..], i - 1);
      WordBehind(s, 8 * i);
    }
  }

  lemma WordBehind(s: seq<byte>, a: nat)
    requires 8 <= a && a + 8 <= |s|
    ensures s[8..][a - 8..a - 8 + 8] == s[a..a + 8]
  {
  }

  lemma {:induction false} WordsAppend(ns: seq<u64>, x: u64)
    ensures Words(ns + [x]) == Words(ns) + WordBytes(x)
  {
    hide WordBytes;
    if ns != [] {
      WordsAppend(ns[1..], x);
      assert (ns + [x])[1..] == ns[1..] + [x];
    } else {
      assert ns + [x] == [x] && [x][1..] == [];
    }
  }
}
