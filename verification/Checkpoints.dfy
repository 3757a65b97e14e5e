/** The checkpoint file: writing it, reading it back, and refusing one that belongs to another job. */
module Checkpoints {
  import opened Bits
  import opened Outcomes
  import opened LittleEndians
  import opened RangeCoder

  datatype CheckpointError =
    | BadMagic
    | Truncated
    | LengthOverflow
    | TruncatedPayload
    | TrailingBytes
    | DoesNotFit
    | ModelMismatch
    | InputMismatch
    | WindowMismatch
    | OverlapMismatch
    | LengthMismatch
    | SymbolsMismatch
    | TooManyDone

  type Digest = s: seq<byte> | |s| == 32 witness seq(32, _ => 0)

  datatype EncodeCheckpoint = EncodeCheckpoint(
    modelSha: Digest,
    inputSha: Digest,
    nCtx: nat,
    overlap: nat,
    origLen: nat,
    symbolsLen: nat,
    symbolsDone: nat,
    elapsedNs: u64,
    encoder: Snapshot)

  /** "DTLZBCK1" in ASCII. */
  const MAGIC: seq<byte> := [68, 84, 76, 90, 66, 67, 75, 49]

  // ----- the format -----

  const HEAD: nat := 72
  const FIXED: nat := 144

  function Numbers(c: EncodeCheckpoint): seq<nat> {
    [c.nCtx, c.overlap, c.origLen, c.symbolsLen, c.symbolsDone, c.elapsedNs, c.encoder.low, c.encoder.range,
     |c.encoder.out|]
  }

  predicate FitsWords(c: EncodeCheckpoint) {
    && c.nCtx < WORD && c.overlap < WORD && c.origLen < WORD && c.symbolsLen < WORD && c.symbolsDone < WORD
    && |c.encoder.out| < WORD
  }

  function Encoded(c: EncodeCheckpoint): (r: Result<seq<byte>, CheckpointError>)
    ensures r.Ok? ==> |r.value| == FIXED + |c.encoder.out|
  {
    if FitsWords(c) then Ok(MAGIC + c.modelSha + c.inputSha + Words(Numbers(c)) + c.encoder.out)
    else Err(DoesNotFit)
  }

  function Parsed(bytes: seq<byte>): Result<EncodeCheckpoint, CheckpointError> {
    if |bytes| < 8 || bytes[..8] != MAGIC then Err(BadMagic)
    else if |bytes| < FIXED then Err(Truncated)
    else
      var w := ReadWords(bytes[HEAD..FIXED]);
      if FIXED + w[8] >= WORD then Err(LengthOverflow)
      else if FIXED + w[8] > |bytes| then Err(TruncatedPayload)
      else if FIXED + w[8] < |bytes| then Err(TrailingBytes)
      else Ok(EncodeCheckpoint(bytes[8..40], bytes[40..HEAD], w[0], w[1], w[2], w[3], w[4], w[5],
                               Snapshot(w[6], w[7], bytes[FIXED..])))
  }

  lemma PartsOfFile(c: EncodeCheckpoint)
    requires FitsWords(c)
    ensures var bytes := Encoded(c).value;
            && bytes[..8] == MAGIC && bytes[8..40] == c.modelSha && bytes[40..HEAD] == c.inputSha
            && bytes[HEAD..FIXED] == Words(Numbers(c)) && bytes[FIXED..] == c.encoder.out
  {
  }

  lemma FileOfParts(bytes: seq<byte>)
    requires |bytes| >= FIXED
    ensures bytes[..8] + bytes[8..40] + bytes[40..HEAD] + bytes[HEAD..FIXED] + bytes[FIXED..] == bytes
  {
  }

  /** Reading a checkpoint back is the exact inverse of writing it: nothing else is accepted. */
  lemma ParsedIffEncoded(bytes: seq<byte>, c: EncodeCheckpoint)
    ensures Parsed(bytes) == Ok(c) <==> Encoded(c) == Ok(bytes) && |bytes| < WORD
  {
    if Encoded(c) == Ok(bytes) && |bytes| < WORD {
      PartsOfFile(c);
      WordsReadBack(Numbers(c));
    }
    if Parsed(bytes) == Ok(c) {
      var w := ReadWords(bytes[HEAD..FIXED]);
      assert Numbers(c) == w;
      WordsWrittenBack(bytes[HEAD..FIXED]);
      FileOfParts(bytes);
    }
  }

  // ----- writing and reading -----

  /** Append a number that may or may not fit a word. */
  method PushWord(out: seq<byte>, value: nat) returns (r: Result<seq<byte>, CheckpointError>)
    ensures r == if value < WORD then Ok(out + WordBytes(value)) else Err(DoesNotFit)
  {
    if value >= WORD {
      return Err(DoesNotFit);
    }
    r := Ok(out + WordBytes(value));
  }

  method EncodeCheckpointBytes(c: EncodeCheckpoint) returns (r: Result<seq<byte>, CheckpointError>)
    ensures r == Encoded(c)
  {
    hide WordBytes;
    var out := MAGIC + c.modelSha + c.inputSha;
    ghost var start := out;
    var numbers := Numbers(c);
    ghost var written: seq<u64> := [];
    for i := 0 to |numbers|
      invariant written == numbers[..i]
      invariant out == start + Words(written)
    {
      r := PushWord(out, numbers[i]);
      if r.Err? {
        assert !FitsWords(c);
        return;
      }
      WordsAppend(written, numbers[i]);
      written := written + [numbers[i]];
      out := r.value;
    }
    assert written == numbers;
    AllFit(c, written);
    r := Ok(out + c.encoder.out);
  }

  lemma AllFit(c: EncodeCheckpoint, written: seq<u64>)
    requires written == Numbers(c)
    ensures FitsWords(c)
  {
    assert written[0] == c.nCtx && written[1] == c.overlap && written[2] == c.origLen && written[3] == c.symbolsLen;
    assert written[4] == c.symbolsDone && written[8] == |c.encoder.out|;
  }

  /** The next `len` bytes, and the cursor behind them. */
  method ReadExact(bytes: seq<byte>, cursor: nat, len: nat) returns (r: Result<seq<byte>, CheckpointError>, next: nat)
    ensures next == if cursor + len < WORD && cursor + len <= |bytes| then cursor + len else cursor
    ensures r == if cursor + len >= WORD then Err(LengthOverflow)
                 else if cursor + len > |bytes| then Err(Truncated)
                 else Ok(bytes[cursor..cursor + len])
  {
    next := cursor;
    if cursor + len >= WORD {
      return Err(LengthOverflow), next;
    }
    if cursor + len > |bytes| {
      return Err(Truncated), next;
    }
    r, next := Ok(bytes[cursor..cursor + len]), cursor + len;
  }

  /** The numbers of the header, one after another. */
  method ReadNumbers(bytes: seq<byte>) returns (r: Result<seq<u64>, CheckpointError>)
    requires |bytes| >= HEAD
    ensures r == if |bytes| < FIXED then Err(Truncated) else Ok(ReadWords(bytes[HEAD..FIXED]))
  {
    hide ReadWord, ReadWords;
    var cursor := HEAD;
    var numbers: seq<u64> := [];
    for i := 0 to 9
      invariant cursor == HEAD + 8 * i <= |bytes| && |numbers| == i
      invariant forall k :: 0 <= k < i ==> numbers[k] == ReadWord(bytes[HEAD + 8 * k..HEAD + 8 * k + 8])
    {
      var raw;
      raw, cursor := ReadExact(bytes, cursor, 8);
      if raw.Err? {
        return Err(raw.error);
      }
      numbers := numbers + [ReadWord(raw.value)];
    }
    HeadNumbers(bytes, numbers);
    r := Ok(numbers);
  }

  lemma HeadNumbers(bytes: seq<byte>, numbers: seq<u64>)
    requires |bytes| >= FIXED && |numbers| == 9
    requires forall k :: 0 <= k < 9 ==> numbers[k] == ReadWord(bytes[HEAD + 8 * k..HEAD + 8 * k + 8])
    ensures numbers == ReadWords(bytes[HEAD..FIXED])
  {
    hide ReadWord, ReadWords;
    var head := bytes[HEAD..FIXED];
    forall k | 0 <= k < 9
      ensures numbers[k] == ReadWords(head)[k]
    {
      WordAt(head, k);
      assert head[8 * k..8 * k + 8] == bytes[HEAD + 8 * k..HEAD + 8 * k + 8];
    }
  }

  method ParseCheckpoint(bytes: seq<byte>) returns (r: Result<EncodeCheckpoint, CheckpointError>)
    ensures r == Parsed(bytes)
  {
    if |bytes| < 8 || bytes[..8] != MAGIC {
      return Err(BadMagic);
    }
    var cursor := 8;
    var modelSha, inputSha;
    modelSha, cursor := ReadExact(bytes, cursor, 32);
    if modelSha.Err? {
      return Err(modelSha.error);
    }
    inputSha, cursor := ReadExact(bytes, cursor, 32);
    if inputSha.Err? {
      return Err(inputSha.error);
    }
    var numbers := ReadNumbers(bytes);
    if numbers.Err? {
      return Err(numbers.error);
    }
    var w := numbers.value;
    var end := FIXED + w[8];
    if end >= WORD {
      return Err(LengthOverflow);
    }
    if end > |bytes| {
      return Err(TruncatedPayload);
    }
    if end != |bytes| {
      return Err(TrailingBytes);
    }
    r := Ok(EncodeCheckpoint(modelSha.value, inputSha.value, w[0], w[1], w[2], w[3], w[4], w[5],
                             Snapshot(w[6], w[7], bytes[FIXED..])));
  }

  // ----- whose checkpoint it is -----

  /** What a checkpoint must have been made for. */
  datatype Identity = Identity(modelSha: Digest, inputSha: Digest, nCtx: nat, overlap: nat, origLen: nat,
                               symbolsLen: nat)

  function ValidateCheckpoint(c: EncodeCheckpoint, id: Identity): (r: Result<(), CheckpointError>)
    ensures r.Ok? <==> c == EncodeCheckpoint(id.modelSha, id.inputSha, id.nCtx, id.overlap, id.origLen, id.symbolsLen,
                                             c.symbolsDone, c.elapsedNs, c.encoder)
                       && c.symbolsDone <= id.symbolsLen
  {
    if c.modelSha != id.modelSha then Err(ModelMismatch)
    else if c.inputSha != id.inputSha then Err(InputMismatch)
    else if c.nCtx != id.nCtx then Err(WindowMismatch)
    else if c.overlap != id.overlap then Err(OverlapMismatch)
    else if c.origLen != id.origLen then Err(LengthMismatch)
    else if c.symbolsLen != id.symbolsLen then Err(SymbolsMismatch)
    else if c.symbolsDone > c.symbolsLen then Err(TooManyDone)
    else Ok(())
  }
}
