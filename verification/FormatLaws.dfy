/** Which byte of a file holds what. */
module FormatLaws {
  import opened Bits
  import opened Outcomes
  import opened LittleEndians
  import opened Checkpoints

  // ----- numbers -----

  /** The byte of x that counts multiples of 256^i. */
  function Digit(x: nat, i: nat): byte {
    x / Pow2(8 * i) % 0x100
  }

  /** The w bytes from `at` on are a number, lowest byte first. */
  ghost predicate NumberAt(s: seq<byte>, at: nat, w: nat, x: nat) {
    at + w <= |s| && forall i :: 0 <= i < w ==> s[at + i] == Digit(x, i)
  }

  lemma NextDigit(x: nat, i: nat)
    requires i > 0
    ensures Digit(x, i) == Digit(x / 0x100, i - 1)
  {
    BytePower(i - 1);
    var p := Pow2(8 * (i - 1));
    assert Pow2(8 * i) == 0x100 * p;
    DivideTwice(x, p);
  }

  lemma DivideTwice(x: nat, p: nat)
    requires p > 0
    ensures x / (0x100 * p) == x / 0x100 / p
  {
    var (q, r) := (x / 0x100, x % 0x100);
    var (t, u) := (q / p, q % p);
    assert q == p * t + u;
    assert t * (0x100 * p) == 0x100 * (p * t);
    QuotientUnique(x, 0x100 * p, t, 0x100 * u + r);
  }

  lemma {:induction false} DigitsOf(x: nat, w: nat, i: nat)
    requires i < w
    ensures LittleEndian(x, w)[i] == Digit(x, i)
    decreases w
  {
    if i == 0 {
      assert Pow2(0) == 1;
    } else {
      DigitsOf(x / 0x100, w - 1, i - 1);
      NextDigit(x, i);
    }
  }

  /** A number written between other bytes. */
  lemma WrittenNumber(a: seq<byte>, x: nat, w: nat, b: seq<byte>)
    ensures NumberAt(a + LittleEndian(x, w) + b, |a|, w, x)
  {
    forall i | 0 <= i < w
      ensures (a + LittleEndian(x, w) + b)[|a| + i] == Digit(x, i)
    {
      DigitsOf(x, w, i);
    }
  }

  /** A number is its bytes. */
  lemma NumberIs(s: seq<byte>, at: nat, w: nat, x: nat)
    requires NumberAt(s, at, w, x) && x < Pow2(8 * w)
    ensures FromLittleEndian(s[at..at + w]) == x
  {
    forall i | 0 <= i < w
      ensures LittleEndian(x, w)[i] == s[at + i]
    {
      DigitsOf(x, w, i);
    }
    assert s[at..at + w] == LittleEndian(x, w);
    NumberReadBack(x, w);
  }

  // ----- the checkpoint file -----

  /** Eight letters, two digests, nine words from byte 72 on, and the payload. */
  ghost predicate IsFile(bytes: seq<byte>, c: EncodeCheckpoint) {
    && |bytes| == 144 + |c.encoder.out|
    && bytes[..8] == ['D' as int, 'T' as int, 'L' as int, 'Z' as int, 'B' as int, 'C' as int, 'K' as int, '1' as int]
    && bytes[8..40] == c.modelSha && bytes[40..72] == c.inputSha
    && NumberAt(bytes, 72, 8, c.nCtx) && NumberAt(bytes, 80, 8, c.overlap) && NumberAt(bytes, 88, 8, c.origLen)
    && NumberAt(bytes, 96, 8, c.symbolsLen) && NumberAt(bytes, 104, 8, c.symbolsDone)
    && NumberAt(bytes, 112, 8, c.elapsedNs)
    && NumberAt(bytes, 120, 8, c.encoder.low) && NumberAt(bytes, 128, 8, c.encoder.range)
    && NumberAt(bytes, 136, 8, |c.encoder.out|)
    && bytes[144..] == c.encoder.out
  }

  lemma {:induction false} WordWritten(ns: seq<u64>, k: nat)
    requires k < |ns|
    ensures NumberAt(Words(ns), 8 * k, 8, ns[k])
    decreases k
  {
    hide WordBytes, Digit, NumberAt;
    var s := Words(ns);
    if k == 0 {
      WordIsNumber([], ns[0], Words(ns[1..]));
      assert [] + WordBytes(ns[0]) + Words(ns[1..]) == s;
    } else {
      WordWritten(ns[1..], k - 1);
      assert s[8..8 + |Words(ns[1..])|] == Words(ns[1..]);
      NumberInside(Words(ns[1..]), s, 8, 8 * (k - 1), 8, ns[k]);
    }
  }

  lemma WordIsNumber(a: seq<byte>, x: u64, b: seq<byte>)
    ensures NumberAt(a + WordBytes(x) + b, |a|, 8, x)
  {
    WrittenNumber(a, x, 8, b);
  }

  lemma NumberInside(part: seq<byte>, s: seq<byte>, start: nat, at: nat, w: nat, x: nat)
    requires start + |part| <= |s| && s[start..start + |part|] == part && NumberAt(part, at, w, x)
    ensures NumberAt(s, start + at, w, x)
  {
    hide Digit;
    forall i | 0 <= i < w
      ensures s[start + at + i] == Digit(x, i)
    {
      assert s[start + (at + i)] == part[at + i];
    }
  }

  /** Writing a checkpoint puts everything where it belongs, or refuses a number of more than eight bytes. */
  lemma CheckpointBytes(c: EncodeCheckpoint)
    ensures Encoded(c).Ok? ==> IsFile(Encoded(c).value, c)
    ensures Encoded(c).Ok? <==>
            && c.nCtx < 0x1_0000_0000_0000_0000 && c.overlap < 0x1_0000_0000_0000_0000
            && c.origLen < 0x1_0000_0000_0000_0000 && c.symbolsLen < 0x1_0000_0000_0000_0000
            && c.symbolsDone < 0x1_0000_0000_0000_0000 && |c.encoder.out| < 0x1_0000_0000_0000_0000
  {
    hide Words, Digit;
    if Encoded(c).Ok? {
      var bytes, ns := Encoded(c).value, Numbers(c);
      PartsOfFile(c);
      forall k | 0 <= k < 9
        ensures NumberAt(bytes, 72 + 8 * k, 8, ns[k])
      {
        WordWritten(ns, k);
        NumberInside(Words(ns), bytes, 72, 8 * k, 8, ns[k]);
      }
      hide NumberAt, Encoded;
      NineNumbers(bytes, ns);
    }
  }

  lemma NineNumbers(bytes: seq<byte>, ns: seq<nat>)
    requires |ns| == 9 && forall k :: 0 <= k < 9 ==> NumberAt(bytes, 72 + 8 * k, 8, ns[k])
    ensures NumberAt(bytes, 72, 8, ns[0]) && NumberAt(bytes, 80, 8, ns[1]) && NumberAt(bytes, 88, 8, ns[2])
    ensures NumberAt(bytes, 96, 8, ns[3]) && NumberAt(bytes, 104, 8, ns[4]) && NumberAt(bytes, 112, 8, ns[5])
    ensures NumberAt(bytes, 120, 8, ns[6]) && NumberAt(bytes, 128, 8, ns[7]) && NumberAt(bytes, 136, 8, ns[8])
  {
    hide NumberAt;
    assert NumberAt(bytes, 72 + 8 * 0, 8, ns[0]) && NumberAt(bytes, 72 + 8 * 1, 8, ns[1]);
    assert NumberAt(bytes, 72 + 8 * 2, 8, ns[2]) && NumberAt(bytes, 72 + 8 * 3, 8, ns[3]);
    assert NumberAt(bytes, 72 + 8 * 4, 8, ns[4]) && NumberAt(bytes, 72 + 8 * 5, 8, ns[5]);
    assert NumberAt(bytes, 72 + 8 * 6, 8, ns[6]) && NumberAt(bytes, 72 + 8 * 7, 8, ns[7]);
    assert NumberAt(bytes, 72 + 8 * 8, 8, ns[8]);
  }

  /** Why a file is refused: what it begins with, how long it is, and the payload length at byte 136. */
  lemma RefusedFiles(bytes: seq<byte>)
    ensures Parsed(bytes) == Err(BadMagic) <==>
            |bytes| < 8 || bytes[..8] != ['D' as int, 'T' as int, 'L' as int, 'Z' as int, 'B' as int, 'C' as int,
                                          'K' as int, '1' as int]
    ensures Parsed(bytes) == Err(Truncated) <==> Parsed(bytes) != Err(BadMagic) && |bytes| < 144
    ensures Parsed(bytes) != Err(BadMagic) && |bytes| >= 144 ==>
              forall n: nat :: n < 0x1_0000_0000_0000_0000 && NumberAt(bytes, 136, 8, n) ==>
                && (Parsed(bytes) == Err(LengthOverflow) <==> 144 + n >= 0x1_0000_0000_0000_0000)
                && (Parsed(bytes) == Err(TruncatedPayload) <==>
                      144 + n < 0x1_0000_0000_0000_0000 && 144 + n > |bytes|)
                && (Parsed(bytes) == Err(TrailingBytes) <==> 144 + n < 0x1_0000_0000_0000_0000 && 144 + n < |bytes|)
  {
    hide NumberAt, ReadWords, FromLittleEndian;
    if |bytes| >= 144 {
      var head := bytes[72..144];
      WordAt(head, 8);
      assert head[64..72] == bytes[136..144];
      assert ReadWords(head)[8] == ReadWord(bytes[136..144]);
      forall n: nat | n < 0x1_0000_0000_0000_0000 && NumberAt(bytes, 136, 8, n)
        ensures ReadWords(head)[8] == n
      {
        EightBytes();
        NumberIs(bytes, 136, 8, n);
      }
    }
  }

  /** Whose checkpoint it is: the first thing that differs is the error. */
  lemma ForeignCheckpoints(c: EncodeCheckpoint, id: Identity)
    ensures var r := ValidateCheckpoint(c, id);
            && (r == Err(ModelMismatch) <==> c.modelSha != id.modelSha)
            && (r == Err(InputMismatch) <==> c.modelSha == id.modelSha && c.inputSha != id.inputSha)
            && (r.Ok? || r == Err(TooManyDone) <==>
                  Identity(c.modelSha, c.inputSha, c.nCtx, c.overlap, c.origLen, c.symbolsLen) == id)
            && (r == Err(TooManyDone) ==> c.symbolsDone > c.symbolsLen)
            && (r == Err(WindowMismatch) ==> c.nCtx != id.nCtx)
            && (r == Err(OverlapMismatch) ==> c.nCtx == id.nCtx && c.overlap != id.overlap)
            && (r == Err(LengthMismatch) ==> c.nCtx == id.nCtx && c.overlap == id.overlap && c.origLen != id.origLen)
            && (r == Err(SymbolsMismatch) ==>
                  && c.nCtx == id.nCtx && c.overlap == id.overlap && c.origLen == id.origLen
                  && c.symbolsLen != id.symbolsLen)
  {
  }
}
