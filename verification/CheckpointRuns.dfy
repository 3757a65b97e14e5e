/** Encoding that is checkpointed, interrupted and resumed, as a state machine over its steps. */
module CheckpointRuns {
  import opened Bits
  import opened Outcomes
  import opened RangeCoder
  import opened RangeTheorems
  import opened Windows
  import opened Llama
  import opened Forward
  import opened Tokenizers
  import opened Codec
  import opened CodecTheorems
  import opened CodecLoops
  import opened Checkpoints

  /** One file being encoded, whichever process does it. */
  datatype Job = Job(settings: Settings, symbols: seq<nat>, modelSha: Digest, inputSha: Digest, origLen: nat)

  /** What a process holds between symbols. The window is where its own steps have left it. */
  datatype Live = Live(done: nat, tokens: seq<nat>, windowStart: nat, encoder: Snapshot)

  datatype SessionError = Refused(checkpoint: CheckpointError) | BadEncoder | Failed(codec: CodecError)

  datatype Phase = Idle | Running(live: Live) | Ended(result: Result<seq<byte>, SessionError>)

  /** The checkpoint file survives; the phase does not. */
  datatype Machine = Machine(file: Option<seq<byte>>, phase: Phase)

  /** Numbers of a 64-bit machine; a vector of words cannot have more than 2^60 elements. */
  predicate Addressable(job: Job) {
    && job.settings.nCtx < WORD && job.settings.overlap < WORD && job.origLen < WORD
    && |job.symbols| <= 0x1000_0000_0000_0000
  }

  function IdentityOf(job: Job): Identity {
    Identity(job.modelSha, job.inputSha, job.settings.nCtx, job.settings.overlap, job.origLen, |job.symbols|)
  }

  function Tokens(job: Job, done: nat): seq<nat>
    requires done <= |job.symbols|
  {
    TokensIn(job.symbols[..done], job.settings.model.vocab)
  }

  // ----- the steps -----

  function AsFailed<T>(r: Result<T, CodecError>): Result<T, SessionError> {
    match r
    case Ok(value) => Ok(value)
    case Err(e) => Err(Failed(e))
  }

  /** Start from the checkpoint file, or from nothing if there is none. */
  function Begin(job: Job, file: Option<seq<byte>>): (r: Result<Live, SessionError>)
    requires ValidLayout(job.settings.model)
    ensures r.Ok? ==> Usable(job.settings) && StartUp(job.settings).Ok? && r.value.done <= |job.symbols|
  {
    var c := job.settings;
    var _ :- AsFailed(CheckedWindow(c));
    var (done, encoder) :- Loaded(job, file);
    var _ :- AsFailed(StartUp(c));
    var tokens := Tokens(job, done);
    var start := PrefixStart(|tokens|, c.nCtx, c.overlap);
    var _ :- AsFailed(LogitsIn(c, tokens[start..]));
    Ok(Live(done, tokens, start, encoder))
  }

  /** How many symbols a checkpoint file says are done, and the encoder it restores. */
  function Loaded(job: Job, file: Option<seq<byte>>): (r: Result<(nat, Snapshot), SessionError>)
    ensures r.Ok? ==> r.value.0 <= |job.symbols|
  {
    if file.None? then Ok((0, BLANK))
    else
      match Parsed(file.value)
      case Err(e) => Err(Refused(e))
      case Ok(ck) =>
        match ValidateCheckpoint(ck, IdentityOf(job))
        case Err(e) => Err(Refused(e))
        case Ok(_) => if ck.encoder.range == 0 then Err(BadEncoder) else Ok((ck.symbolsDone, ck.encoder))
  }

  /** A process that can go on: its encoder is one some run could have. */
  ghost predicate Sane(job: Job, live: Live) {
    Usable(job.settings) && live.windowStart <= |live.tokens| && Ready(StateOf(live.encoder))
  }

  /** Encode the next symbol under the window as this process has moved it. */
  function EncodeOne(job: Job, live: Live): Result<Live, SessionError>
    requires Sane(job, live) && live.done < |job.symbols|
  {
    EncodeFrom(job, live, NextWindowStart(|live.tokens|, live.windowStart, job.settings.nCtx, job.settings.overlap))
  }

  function EncodeFrom(job: Job, live: Live, start: nat): Result<Live, SessionError>
    requires ValidLayout(job.settings.model) && Ready(StateOf(live.encoder))
    requires live.done < |job.symbols| && start <= |live.tokens|
  {
    var c, window, symbol := job.settings, live.tokens[start..], job.symbols[live.done];
    SlotInDistribution(c, window, symbol);
    var slot :- AsFailed(SlotIn(c, window, symbol));
    var (s, out) := EncodeStep(StateOf(live.encoder), slot);
    var next :- AsFailed(PushAfter(c, window, live.tokens, symbol));
    Ok(Live(live.done + 1, next, start, Snapshot(s.low, s.range, live.encoder.out + out)))
  }

  function Checkpoint(job: Job, live: Live, elapsedNs: u64): EncodeCheckpoint {
    EncodeCheckpoint(job.modelSha, job.inputSha, job.settings.nCtx, job.settings.overlap, job.origLen, |job.symbols|,
                     live.done, elapsedNs, live.encoder)
  }

  ghost predicate Begins(job: Job, s: Machine, t: Machine)
    requires ValidLayout(job.settings.model)
  {
    s.phase.Idle? && t.file == s.file
    && t.phase == match Begin(job, s.file) case Ok(live) => Running(live) case Err(e) => Ended(Err(e))
  }

  ghost predicate Encodes(job: Job, s: Machine, t: Machine) {
    s.phase.Running? && Sane(job, s.phase.live) && s.phase.live.done < |job.symbols| && t.file == s.file
    && t.phase == match EncodeOne(job, s.phase.live) case Ok(live) => Running(live) case Err(e) => Ended(Err(e))
  }

  /** Write a checkpoint, at any moment, with any reading of the clock. */
  ghost predicate Saves(job: Job, s: Machine, t: Machine) {
    s.phase.Running?
    && exists elapsedNs: u64 ::
         match Encoded(Checkpoint(job, s.phase.live, elapsedNs))
         case Ok(bytes) => t == Machine(Some(bytes), s.phase)
         case Err(e) => t == Machine(s.file, Ended(Err(Refused(e))))
  }

  ghost predicate Finishes(job: Job, s: Machine, t: Machine) {
    s.phase.Running? && s.phase.live.done == |job.symbols| && t.file == s.file
    && var encoder := s.phase.live.encoder;
       t.phase == Ended(Ok(encoder.out + TopBytes(encoder.low, 8)))
  }

  /** The process ends at any moment, by a crash or because it is done; the checkpoint may be deleted after success. */
  ghost predicate Stops(s: Machine, t: Machine) {
    t.phase.Idle? && (t.file == s.file || (t.file.None? && s.phase.Ended? && s.phase.result.Ok?))
  }

  ghost predicate Next(job: Job, s: Machine, t: Machine)
    requires ValidLayout(job.settings.model)
  {
    Begins(job, s, t) || Encodes(job, s, t) || Saves(job, s, t) || Finishes(job, s, t) || Stops(s, t)
  }

  ghost predicate IsRun(job: Job, run: seq<Machine>)
    requires ValidLayout(job.settings.model)
  {
    && run != [] && run[0] == Machine(None, Idle)
    && forall i :: 0 < i < |run| ==> Next(job, run[i - 1], run[i])
  }

  // ----- what encoding a prefix means -----

  lemma {:induction false} TokensInCons(symbol: nat, symbols: seq<nat>, vocabLen: nat)
    ensures TokensIn([symbol] + symbols, vocabLen) ==
            (if SymbolIsToken(symbol, vocabLen) then [symbol] else []) + TokensIn(symbols, vocabLen)
    decreases |symbols|
  {
    var all := [symbol] + symbols;
    if symbols == [] {
      assert all == [symbol] && all[..0] == [];
    } else {
      var n := |symbols| - 1;
      TokensInCons(symbol, symbols[..n], vocabLen);
      assert all[..n + 1] == [symbol] + symbols[..n];
    }
  }

  /** One result and then another, stopping at the first error. */
  function Then(first: Result<seq<Slot>, CodecError>, rest: Result<seq<Slot>, CodecError>)
    : Result<seq<Slot>, CodecError>
  {
    if first.Err? then first else Prefixed(first.value, rest)
  }

  lemma ThenAssociates(slot: Slot, first: Result<seq<Slot>, CodecError>, rest: Result<seq<Slot>, CodecError>)
    ensures Prefixed([slot], Then(first, rest)) == Then(Prefixed([slot], first), rest)
  {
    if first.Ok? && rest.Ok? {
      assert [slot] + (first.value + rest.value) == [slot] + first.value + rest.value;
    }
  }

  lemma SlotsForHead(c: Settings, tokens: seq<nat>, symbols: seq<nat>)
    requires Usable(c)
    ensures symbols == [] ==> SlotsFor(c, tokens, symbols) == Ok([])
    ensures symbols != [] ==>
              var slot, next := SlotIn(c, WindowOf(c, tokens), symbols[0]), Push(c, tokens, symbols[0]);
              SlotsFor(c, tokens, symbols) ==
              if slot.Err? then Err(slot.error)
              else if next.Err? then Err(next.error)
              else Prefixed([slot.value], SlotsFor(c, next.value, symbols[1..]))
  {
    hide SlotIn, Push;
  }

  /** Encoding a list is encoding a prefix of it and then the rest. */
  lemma {:induction false} SlotsForParts(c: Settings, tokens: seq<nat>, a: seq<nat>, b: seq<nat>)
    requires Usable(c)
    ensures SlotsFor(c, tokens, a + b) ==
            Then(SlotsFor(c, tokens, a), SlotsFor(c, tokens + TokensIn(a, c.model.vocab), b))
    decreases |a|
  {
    hide Usable, WindowOf, SlotIn, TokensIn, SlotsFor, Push, Prefixed;
    SlotsForHead(c, tokens, a);
    if a == [] {
      NoTokens(tokens, c.model.vocab);
      assert a + b == b;
      PrefixedNothing(SlotsFor(c, tokens, b));
    } else {
      UsableLayout(c);
      assert (a + b)[1..] == a[1..] + b;
      SlotsForHead(c, tokens, a + b);
      var slot, next := SlotIn(c, WindowOf(c, tokens), a[0]), Push(c, tokens, a[0]);
      if slot.Ok? && next.Ok? {
        PushedTokens(c, tokens, a);
        SlotsForParts(c, next.value, a[1..], b);
        ThenAssociates(slot.value, SlotsFor(c, next.value, a[1..]),
                       SlotsFor(c, tokens + TokensIn(a, c.model.vocab), b));
      }
    }
  }

  lemma PushedTokens(c: Settings, tokens: seq<nat>, a: seq<nat>)
    requires Usable(c) && a != [] && Push(c, tokens, a[0]).Ok?
    ensures Push(c, tokens, a[0]).value + TokensIn(a[1..], c.model.vocab) == tokens + TokensIn(a, c.model.vocab)
  {
    hide TokensIn, Usable, PushAfter, WindowOf;
    assert a == [a[0]] + a[1..];
    TokensInCons(a[0], a[1..], c.model.vocab);
    var rest := TokensIn(a[1..], c.model.vocab);
    assert tokens + [] + rest == tokens + rest && [] + rest == rest;
    assert tokens + ([a[0]] + rest) == tokens + [a[0]] + rest;
  }

  lemma NoTokens(tokens: seq<nat>, vocabLen: nat)
    ensures tokens + TokensIn([], vocabLen) == tokens
  {
  }

  // ----- what every step keeps -----

  /** The window a process restarts from can be replayed. */
  ghost predicate Resumable(c: Settings, tokens: seq<nat>)
    requires Usable(c)
  {
    LogitsIn(c, tokens[PrefixStart(|tokens|, c.nCtx, c.overlap)..]).Ok?
  }

  lemma PushResumable(c: Settings, tokens: seq<nat>, symbol: nat)
    requires Usable(c) && Resumable(c, tokens) && Push(c, tokens, symbol).Ok?
    ensures Resumable(c, Push(c, tokens, symbol).value)
  {
    hide LogitsOf, PrefixStart, ValidLayout;
    SyncIsIdempotent(|tokens|, c.nCtx, c.overlap);
    if SymbolIsToken(symbol, c.model.vocab) {
      var start := SyncedStart(|tokens|, c.nCtx, c.overlap);
      assert (tokens + [symbol])[start..] == tokens[start..] + [symbol];
    }
  }

  /** A prefix that has been encoded leaves a window that can be replayed. */
  lemma {:induction false} EncodedIsResumable(c: Settings, tokens: seq<nat>, a: seq<nat>)
    requires Usable(c) && Resumable(c, tokens) && SlotsFor(c, tokens, a).Ok?
    ensures Resumable(c, tokens + TokensIn(a, c.model.vocab))
    decreases |a|
  {
    hide Usable, Resumable, SlotsFor, SlotIn, Push, TokensIn, WindowOf;
    if a == [] {
      NoTokens(tokens, c.model.vocab);
    } else {
      UsableLayout(c);
      SlotsForHead(c, tokens, a);
      PushResumable(c, tokens, a[0]);
      EncodedIsResumable(c, Push(c, tokens, a[0]).value, a[1..]);
      PushedTokens(c, tokens, a);
    }
  }

  lemma NothingIsResumable(c: Settings)
    requires Usable(c)
    ensures Resumable(c, [])
  {
  }

  /** This much of the job has been encoded, by whichever processes. */
  ghost predicate Done(job: Job, done: nat, encoder: Snapshot) {
    var c := job.settings;
    && done <= |job.symbols| && Usable(c) && StartUp(c).Ok? && Ready(WHOLE)
    && SlotsFor(c, [], job.symbols[..done]).Ok?
    && encoder == Carried(BLANK, SlotsFor(c, [], job.symbols[..done]).value)
  }

  /** A process stands where the uninterrupted encoder would, its window moved on already or not yet. */
  ghost predicate OnTrack(job: Job, live: Live) {
    var c := job.settings;
    && Done(job, live.done, live.encoder)
    && live.tokens == Tokens(job, live.done)
    && (live.windowStart == PrefixStart(|live.tokens|, c.nCtx, c.overlap)
        || live.windowStart == SyncedStart(|live.tokens|, c.nCtx, c.overlap))
  }

  /** A checkpoint file of this job, after this many symbols. */
  ghost predicate Genuine(job: Job, bytes: seq<byte>, done: nat) {
    && Parsed(bytes).Ok? && ValidateCheckpoint(Parsed(bytes).value, IdentityOf(job)).Ok?
    && Parsed(bytes).value.symbolsDone == done
    && Done(job, done, Parsed(bytes).value.encoder)
  }

  /** What encoding without interruption returns. */
  function Uninterrupted(job: Job): Result<seq<byte>, SessionError>
    requires ValidLayout(job.settings.model)
  {
    AsFailed(EncodeSymbols(job.settings, job.symbols))
  }

  ghost predicate Safe(job: Job, s: Machine)
    requires ValidLayout(job.settings.model)
  {
    && (s.file.Some? ==> exists done :: Genuine(job, s.file.value, done))
    && match s.phase
       case Idle => true
       case Running(live) => OnTrack(job, live)
       case Ended(result) => result == Uninterrupted(job)
  }

  lemma DoneIsReady(job: Job, done: nat, encoder: Snapshot)
    requires Done(job, done, encoder)
    ensures Ready(StateOf(encoder)) && encoder.range > 0
  {
    hide After, Written, ValidLayout, StartUp, SlotsFor;
    ReadyIsWide(StateOf(encoder));
  }

  lemma OnTrackIsSane(job: Job, live: Live)
    requires OnTrack(job, live)
    ensures Sane(job, live) && live.done <= |job.symbols|
  {
    hide PrefixStart, StartUp, SlotsFor, ValidLayout;
    DoneIsReady(job, live.done, live.encoder);
  }

  /** Starting again takes up exactly where the file says the job was left. */
  lemma ResumesWhereLeft(job: Job, bytes: seq<byte>, done: nat)
    requires ValidLayout(job.settings.model) && Genuine(job, bytes, done)
    ensures Begin(job, Some(bytes)).Ok?
    ensures Begin(job, Some(bytes)).value.done == done && OnTrack(job, Begin(job, Some(bytes)).value)
  {
    hide ValidLayout, StartUp, SlotsFor, PrefixStart, Parsed, LogitsIn;
    var c := job.settings;
    DoneIsReady(job, done, Parsed(bytes).value.encoder);
    NothingIsResumable(c);
    EncodedIsResumable(c, [], job.symbols[..done]);
    assert [] + Tokens(job, done) == Tokens(job, done);
  }

  lemma BeginsFromNothing(job: Job)
    requires ValidLayout(job.settings.model)
    ensures Begin(job, None).Ok? ==> OnTrack(job, Begin(job, None).value) && Begin(job, None).value.done == 0
    ensures Begin(job, None).Err? ==> Begin(job, None).error == Failed(EncodeSymbols(job.settings, job.symbols).error)
                                      && EncodeSymbols(job.settings, job.symbols).Err?
  {
    hide ValidLayout, StartUp;
    NothingEncoded();
    assert job.symbols[..0] == [];
    assert Tokens(job, 0) == [];
  }

  /** The stepwise window of a process on track is the codec's window. */
  lemma OnTrackWindow(job: Job, live: Live)
    requires OnTrack(job, live)
    ensures Usable(job.settings) && job.settings.overlap < job.settings.nCtx
    ensures NextWindowStart(|live.tokens|, live.windowStart, job.settings.nCtx, job.settings.overlap) ==
            SyncedStart(|live.tokens|, job.settings.nCtx, job.settings.overlap)
    ensures live.tokens[SyncedStart(|live.tokens|, job.settings.nCtx, job.settings.overlap)..] ==
            WindowOf(job.settings, live.tokens)
  {
    hide PrefixStart, StartUp, SlotsFor, ValidLayout, Ready;
    SyncIsIdempotent(|live.tokens|, job.settings.nCtx, job.settings.overlap);
  }

  lemma OneMoreDone(job: Job, done: nat)
    requires done < |job.symbols|
    ensures job.symbols[..done + 1] == job.symbols[..done] + [job.symbols[done]]
    ensures job.symbols == job.symbols[..done + 1] + job.symbols[done + 1..]
    ensures job.symbols == job.symbols[..done] + job.symbols[done..]
    ensures Tokens(job, done + 1) ==
            Tokens(job, done) +
            if SymbolIsToken(job.symbols[done], job.settings.model.vocab) then [job.symbols[done]] else []
  {
    assert job.symbols[..done + 1][..done] == job.symbols[..done];
  }

  /** Encoding one symbol after an encoded prefix. */
  lemma PrefixGrows(job: Job, done: nat)
    requires done < |job.symbols| && Usable(job.settings) && SlotsFor(job.settings, [], job.symbols[..done]).Ok?
    ensures var c, symbol, tokens := job.settings, job.symbols[done], Tokens(job, done);
            var slot, next := SlotIn(c, WindowOf(c, tokens), symbol), Push(c, tokens, symbol);
            && SlotsFor(c, [], job.symbols[..done + 1]) ==
               (if slot.Err? then Err(slot.error) else if next.Err? then Err(next.error)
                else Ok(SlotsFor(c, [], job.symbols[..done]).value + [slot.value]))
            && (SlotsFor(c, [], job.symbols[..done + 1]).Err? ==>
                  SlotsFor(c, [], job.symbols) == SlotsFor(c, [], job.symbols[..done + 1]))
  {
    hide Usable, SlotsFor, SlotIn, Push, WindowOf;
    var c, symbol, tokens := job.settings, job.symbols[done], Tokens(job, done);
    UsableLayout(c);
    OneMoreDone(job, done);
    SlotsForParts(c, [], job.symbols[..done], [symbol]);
    SlotsForParts(c, [], job.symbols[..done + 1], job.symbols[done + 1..]);
    assert [] + tokens == tokens;
    SlotsForHead(c, tokens, [symbol]);
    var next := Push(c, tokens, symbol);
    if next.Ok? {
      SlotsForHead(c, next.value, []);
      assert [symbol][1..] == [];
      assert SlotIn(c, WindowOf(c, tokens), symbol).Ok? ==>
          var slot := SlotIn(c, WindowOf(c, tokens), symbol).value; [slot] + [] == [slot];
    }
  }

  lemma EncodeOneOnTrack(job: Job, live: Live)
    requires OnTrack(job, live) && live.done < |job.symbols| && Sane(job, live)
    ensures var c, symbol := job.settings, job.symbols[live.done];
            var slot, next := SlotIn(c, WindowOf(c, live.tokens), symbol), Push(c, live.tokens, symbol);
            if slot.Err? then EncodeOne(job, live) == Err(Failed(slot.error))
            else if next.Err? then EncodeOne(job, live) == Err(Failed(next.error))
            else
              && Validate(slot.value)
              && var (s, out) := EncodeStep(StateOf(live.encoder), slot.value);
                 EncodeOne(job, live) ==
                 Ok(Live(live.done + 1, next.value, SyncedStart(|live.tokens|, c.nCtx, c.overlap),
                         Snapshot(s.low, s.range, live.encoder.out + out)))
  {
    hide ValidLayout, OnTrack, SyncedStart, NextWindowStart, WindowOf, EncodeStep, SlotIn, PushAfter, Ready, EncodeFrom;
    OnTrackWindow(job, live);
    EncodeFromWindow(job, live, SyncedStart(|live.tokens|, job.settings.nCtx, job.settings.overlap));
  }

  lemma EncodeFromWindow(job: Job, live: Live, start: nat)
    requires ValidLayout(job.settings.model) && Ready(StateOf(live.encoder))
    requires live.done < |job.symbols| && start <= |live.tokens|
    ensures var c, symbol := job.settings, job.symbols[live.done];
            var slot := SlotIn(c, live.tokens[start..], symbol);
            var next := PushAfter(c, live.tokens[start..], live.tokens, symbol);
            if slot.Err? then EncodeFrom(job, live, start) == Err(Failed(slot.error))
            else if next.Err? then EncodeFrom(job, live, start) == Err(Failed(next.error))
            else
              && Validate(slot.value)
              && var (s, out) := EncodeStep(StateOf(live.encoder), slot.value);
                 EncodeFrom(job, live, start) ==
                 Ok(Live(live.done + 1, next.value, start, Snapshot(s.low, s.range, live.encoder.out + out)))
  {
    hide ValidLayout, EncodeStep, SlotIn, PushAfter, Ready, FrequenciesIn, Validate;
    SlotInDistribution(job.settings, live.tokens[start..], job.symbols[live.done]);
  }

  /** What the uninterrupted encoder has after one more symbol, if that symbol can be encoded. */
  lemma DoneGrows(job: Job, done: nat, encoder: Snapshot, slot: Slot)
    requires Done(job, done, encoder) && done < |job.symbols| && Validate(slot) && Ready(StateOf(encoder))
    requires SlotsFor(job.settings, [], job.symbols[..done + 1]) ==
             Ok(SlotsFor(job.settings, [], job.symbols[..done]).value + [slot])
    ensures var (s, out) := EncodeStep(StateOf(encoder), slot);
            Done(job, done + 1, Snapshot(s.low, s.range, encoder.out + out))
  {
    hide ValidLayout, StartUp, SlotsFor, After, Written, EncodeStep, Ready, Validate, ValidateWindow;
    EncodeOneMore(BLANK, SlotsFor(job.settings, [], job.symbols[..done]).value, slot);
  }

  lemma EncodeStaysOnTrack(job: Job, live: Live)
    requires OnTrack(job, live) && live.done < |job.symbols| && Sane(job, live)
    ensures EncodeOne(job, live).Ok? ==>
              OnTrack(job, EncodeOne(job, live).value) && EncodeOne(job, live).value.done == live.done + 1
    ensures EncodeOne(job, live).Err? ==> Err(EncodeOne(job, live).error) == Uninterrupted(job)
  {
    hide ValidLayout, StartUp, SlotsFor, PrefixStart, After, Written, EncodeStep, SlotIn, Push, Ready, Emitted;
    hide EncodeOne;
    hide SyncedStart, WindowOf, Validate, Tokens, ValidateWindow, NextWindowStart;
    var c, symbol := job.settings, job.symbols[live.done];
    EncodeOneOnTrack(job, live);
    PrefixGrows(job, live.done);
    UsableLayout(c);
    var slot := SlotIn(c, WindowOf(c, live.tokens), symbol);
    if slot.Ok? && Push(c, live.tokens, symbol).Ok? {
      PushGrowsTokens(job, live);
      DoneGrows(job, live.done, live.encoder, slot.value);
      NextStart(job, live, Push(c, live.tokens, symbol).value);
    } else {
      EncodingStops(job, SlotsFor(c, [], job.symbols).error);
    }
  }

  /** Where the window stands after a symbol: moved for the symbol, and not yet for the next. */
  lemma NextStart(job: Job, live: Live, next: seq<nat>)
    requires live.done < |job.symbols| && Usable(job.settings)
    requires next == live.tokens || |next| == |live.tokens| + 1
    ensures var c := job.settings;
            var start := SyncedStart(|live.tokens|, c.nCtx, c.overlap);
            start == PrefixStart(|next|, c.nCtx, c.overlap) || start == SyncedStart(|next|, c.nCtx, c.overlap)
  {
    hide ValidLayout, PrefixStart;
    SyncIsIdempotent(|live.tokens|, job.settings.nCtx, job.settings.overlap);
  }

  lemma EncodingStops(job: Job, error: CodecError)
    requires Usable(job.settings) && StartUp(job.settings).Ok?
    requires SlotsFor(job.settings, [], job.symbols) == Err(error)
    ensures ValidLayout(job.settings.model) && Uninterrupted(job) == Err(Failed(error))
  {
    hide StartUp, ValidLayout, SlotsFor;
  }

  lemma PushGrowsTokens(job: Job, live: Live)
    requires live.done < |job.symbols| && live.tokens == Tokens(job, live.done) && Usable(job.settings)
    requires Push(job.settings, live.tokens, job.symbols[live.done]).Ok?
    ensures Push(job.settings, live.tokens, job.symbols[live.done]).value == Tokens(job, live.done + 1)
  {
    hide Usable, PushAfter;
    OneMoreDone(job, live.done);
    assert live.tokens + [] == live.tokens;
  }

  /** A checkpoint written on track is genuine, even between the symbol that moved the window and the next one. */
  lemma SavedIsGenuine(job: Job, live: Live, elapsedNs: u64)
    requires Addressable(job) && OnTrack(job, live)
    ensures Encoded(Checkpoint(job, live, elapsedNs)).Ok?
    ensures Genuine(job, Encoded(Checkpoint(job, live, elapsedNs)).value, live.done)
  {
    hide Encoded, Parsed, ValidLayout, StartUp, SlotsFor, PrefixStart, SyncedStart, Emitted, After, Written, Ready;
    var c := Checkpoint(job, live, elapsedNs);
    WrittenFits(job, live);
    FitsAreEncoded(c);
    ParsedIffEncoded(Encoded(c).value, c);
  }

  lemma WrittenFits(job: Job, live: Live)
    requires Addressable(job) && OnTrack(job, live)
    ensures |live.encoder.out| + FIXED < WORD
  {
    hide SlotsFor, PrefixStart, SyncedStart, ValidLayout, StartUp, TokensIn;
    WrittenLength(WHOLE, SlotsFor(job.settings, [], job.symbols[..live.done]).value);
  }

  lemma FitsAreEncoded(c: EncodeCheckpoint)
    requires FitsWords(c)
    ensures Encoded(c).Ok? && |Encoded(c).value| == FIXED + |c.encoder.out|
  {
  }

  lemma FinishedIsUninterrupted(job: Job, live: Live)
    requires OnTrack(job, live) && live.done == |job.symbols|
    ensures Uninterrupted(job) == Ok(live.encoder.out + TopBytes(live.encoder.low, 8))
  {
    hide SlotsFor, PrefixStart, SyncedStart, ValidLayout, StartUp, TokensIn, Written, After;
    assert job.symbols[..live.done] == job.symbols;
    var slots := SlotsFor(job.settings, [], job.symbols).value;
    EmittedIsWrittenThenLow(WHOLE, slots);
    assert [] + Written(WHOLE, slots) == Written(WHOLE, slots);
  }

  // ----- going on from any snapshot -----

  /** What a process that begins here encodes, up to `done`. */
  function SlotsBetween(job: Job, begun: Live, done: nat): Result<seq<Slot>, CodecError>
    requires Usable(job.settings) && begun.done <= done <= |job.symbols|
  {
    SlotsFor(job.settings, begun.tokens, job.symbols[begun.done..done])
  }

  /** The encoder is wide enough for the next symbol. */
  ghost predicate CanGoOn(job: Job, live: Live)
    requires Usable(job.settings)
  {
    live.done < |job.symbols| ==>
      SlotFits(job.settings, live.tokens, job.symbols[live.done], live.encoder.range)
  }

  /** If it is not, encoding that symbol never ends: this is exactly when a restored encoder can go on. */
  lemma GoesOnIff(job: Job, live: Live)
    requires Usable(job.settings) && live.done < |job.symbols|
    requires SlotIn(job.settings, WindowOf(job.settings, live.tokens), job.symbols[live.done]).Ok?
    ensures var s := StateOf(live.encoder);
            var slot := SlotIn(job.settings, WindowOf(job.settings, live.tokens), job.symbols[live.done]).value;
            && Validate(slot)
            && (CanGoOn(job, live) <==> exists n :: StopsAfter(Narrow(s, Unit(s, slot), slot), n))
  {
    hide SlotIn, WindowOf, Validate, Narrow, StopsAfter;
    UsableLayout(job.settings);
    var window := WindowOf(job.settings, live.tokens);
    SlotInDistribution(job.settings, window, job.symbols[live.done]);
    EncodeEndsIff(StateOf(live.encoder), SlotIn(job.settings, window, job.symbols[live.done]).value);
  }

  /** Wide enough for the next symbol is wide enough for all. */
  lemma GoesOnThrough(job: Job, begun: Live, done: nat)
    requires Usable(job.settings) && begun.done <= done <= |job.symbols| && CanGoOn(job, begun)
    requires SlotsBetween(job, begun, done).Ok?
    ensures CanEncodeAll(StateOf(begun.encoder), SlotsBetween(job, begun, done).value)
  {
    hide SlotsFor, SlotIn, Push, WindowOf, Usable, CanEncode;
    UsableLayout(job.settings);
    var between := job.symbols[begun.done..done];
    SlotsForHead(job.settings, begun.tokens, between);
    if between != [] {
      var slots := SlotsFor(job.settings, begun.tokens, between).value;
      assert slots[0] == SlotIn(job.settings, WindowOf(job.settings, begun.tokens), between[0]).value;
      CanEncodeIff(StateOf(begun.encoder), slots[0]);
    }
  }

  /** What a process returns that begins here and is not interrupted. */
  ghost function Continued(job: Job, begun: Live): Result<seq<byte>, SessionError>
    requires Usable(job.settings) && begun.done <= |job.symbols| && CanGoOn(job, begun)
  {
    var slots := SlotsBetween(job, begun, |job.symbols|);
    if slots.Err? then Err(Failed(slots.error))
    else
      GoesOnThrough(job, begun, |job.symbols|);
      Ok(begun.encoder.out + Emitted(StateOf(begun.encoder), slots.value))
  }

  /** What a process that began at `begun` holds when it comes to `mid`. */
  ghost predicate Between(job: Job, begun: Live, mid: Live)
    requires Usable(job.settings) && begun.done <= |job.symbols| && CanGoOn(job, begun)
  {
    && begun.done <= mid.done <= |job.symbols| && SlotsBetween(job, begun, mid.done).Ok?
    && var slots := SlotsBetween(job, begun, mid.done).value;
       && CanEncodeAll(StateOf(begun.encoder), slots) && mid.encoder == Carried(begun.encoder, slots)
       && mid.tokens == begun.tokens + TokensIn(job.symbols[begun.done..mid.done], job.settings.model.vocab)
  }

  /** Stopping on the way and going on from there changes nothing, whatever the first snapshot was. */
  lemma ContinuedFromBetween(job: Job, begun: Live, mid: Live)
    requires Usable(job.settings) && begun.done <= |job.symbols| && CanGoOn(job, begun) && Between(job, begun, mid)
    ensures CanGoOn(job, mid) && Continued(job, mid) == Continued(job, begun)
  {
    hide SlotsFor, Usable, SlotFits, TokensIn, After, Written, Emitted, CanEncodeAll;
    BetweenGoesOn(job, begun, mid);
    var c, first := job.settings, SlotsBetween(job, begun, mid.done).value;
    var last := job.symbols[mid.done..|job.symbols|];
    assert job.symbols[begun.done..mid.done] + last == job.symbols[begun.done..|job.symbols|];
    SlotsForParts(c, begun.tokens, job.symbols[begun.done..mid.done], last);
    var rest := SlotsFor(c, mid.tokens, last);
    if rest.Ok? {
      GoesOnThrough(job, mid, |job.symbols|);
      EncodeInParts(StateOf(begun.encoder), first, rest.value);
      AppendAssociates(begun.encoder.out, Written(StateOf(begun.encoder), first),
                       Emitted(StateOf(mid.encoder), rest.value));
    }
  }

  lemma BetweenGoesOn(job: Job, begun: Live, mid: Live)
    requires Usable(job.settings) && begun.done <= |job.symbols| && CanGoOn(job, begun) && Between(job, begun, mid)
    ensures CanGoOn(job, mid)
  {
    hide Usable, SlotFits;
    if mid.done > begun.done && mid.done < |job.symbols| {
      WideFits(job.settings, mid.tokens, job.symbols[mid.done], mid.encoder.range);
    } else if mid.done == begun.done {
      NoTokens(begun.tokens, job.settings.model.vocab);
      assert job.symbols[begun.done..mid.done] == [];
    }
  }

  /** Where the uninterrupted encoder begins. */
  function Outset(): Live {
    Live(0, [], 0, BLANK)
  }

  lemma OutsetGoesOn(job: Job)
    requires Usable(job.settings) && StartUp(job.settings).Ok?
    ensures CanGoOn(job, Outset()) && Continued(job, Outset()) == Uninterrupted(job)
  {
    hide SlotsFor, SlotFits, ValidLayout, StartUp, Emitted, After, Written;
    if job.symbols != [] {
      WideFits(job.settings, [], job.symbols[0], BLANK.range);
    }
    assert job.symbols[0..|job.symbols|] == job.symbols;
    var slots := SlotsFor(job.settings, [], job.symbols);
    if slots.Ok? {
      WholeIsReady();
      assert [] + Emitted(WHOLE, slots.value) == Emitted(WHOLE, slots.value);
    }
  }

  lemma DoneIsBetween(job: Job, live: Live)
    requires Done(job, live.done, live.encoder) && live.tokens == Tokens(job, live.done)
    requires CanGoOn(job, Outset())
    ensures Between(job, Outset(), live)
  {
    hide SlotsFor, SlotFits, ValidLayout, StartUp, Emitted, After, Written;
    assert job.symbols[0..live.done] == job.symbols[..live.done];
    assert [] + live.tokens == live.tokens;
  }

  /** A process on track returns what encoding without interruption returns. */
  lemma OnTrackIsUninterrupted(job: Job, live: Live)
    requires OnTrack(job, live)
    ensures CanGoOn(job, live) && Continued(job, live) == Uninterrupted(job)
  {
    hide Usable, StartUp, CanGoOn, Continued, Between, Tokens, PrefixStart, SyncedStart;
    OutsetGoesOn(job);
    DoneIsBetween(job, live);
    ContinuedFromBetween(job, Outset(), live);
  }

  /** A checkpoint file that a process which began here writes after so many symbols. */
  ghost predicate Saved(job: Job, begun: Live, bytes: seq<byte>, done: nat)
    requires Usable(job.settings)
  {
    && Parsed(bytes).Ok? && ValidateCheckpoint(Parsed(bytes).value, IdentityOf(job)).Ok?
    && Parsed(bytes).value.symbolsDone == done
    && begun.done <= done <= |job.symbols| && SlotsBetween(job, begun, done).Ok?
    && var slots := SlotsBetween(job, begun, done).value;
       CanEncodeAll(StateOf(begun.encoder), slots) && Parsed(bytes).value.encoder == Carried(begun.encoder, slots)
  }

  /** On track, it is genuine. */
  lemma SavedOnTrack(job: Job, begun: Live, bytes: seq<byte>, done: nat)
    requires OnTrack(job, begun) && Saved(job, begun, bytes, done)
    ensures Genuine(job, bytes, done)
  {
    hide Parsed, SlotsFor, Usable, StartUp, PrefixStart, SyncedStart, Carried, ValidateCheckpoint, Ready;
    hide ValidLayout, Tokens;
    var c, b := job.settings, begun.done;
    SlotsOnTrack(job, begun, done);
    NothingEncoded();
    CarriedInParts(BLANK, SlotsFor(c, [], job.symbols[..b]).value, SlotsBetween(job, begun, done).value);
  }

  lemma SlotsOnTrack(job: Job, begun: Live, done: nat)
    requires Usable(job.settings) && begun.done <= done <= |job.symbols| && begun.tokens == Tokens(job, begun.done)
    ensures SlotsFor(job.settings, [], job.symbols[..done]) ==
            Then(SlotsFor(job.settings, [], job.symbols[..begun.done]), SlotsBetween(job, begun, done))
  {
    hide SlotsFor, Usable, Then;
    assert job.symbols[..begun.done] + job.symbols[begun.done..done] == job.symbols[..done];
    assert [] + begun.tokens == begun.tokens;
    SlotsForParts(job.settings, [], job.symbols[..begun.done], job.symbols[begun.done..done]);
  }

  lemma NextIsSafe(job: Job, s: Machine, t: Machine)
    requires ValidLayout(job.settings.model) && Addressable(job) && Safe(job, s) && Next(job, s, t)
    ensures Safe(job, t)
  {
    hide ValidLayout, OnTrack, Genuine, Uninterrupted, Sane, EncodeOne, Begin, Encoded, Checkpoint;
    if Begins(job, s, t) {
      BeginIsSafe(job, s, t);
    } else if Encodes(job, s, t) {
      EncodeStaysOnTrack(job, s.phase.live);
    } else if Saves(job, s, t) {
      var elapsedNs: u64 :|
        match Encoded(Checkpoint(job, s.phase.live, elapsedNs))
        case Ok(bytes) => t == Machine(Some(bytes), s.phase)
        case Err(e) => t == Machine(s.file, Ended(Err(Refused(e))));
      SavedIsGenuine(job, s.phase.live, elapsedNs);
    } else if Finishes(job, s, t) {
      FinishedIsUninterrupted(job, s.phase.live);
    }
  }

  lemma BeginIsSafe(job: Job, s: Machine, t: Machine)
    requires ValidLayout(job.settings.model) && Safe(job, s) && Begins(job, s, t)
    ensures Safe(job, t)
  {
    hide ValidLayout, OnTrack, Genuine, Begin;
    if s.file.Some? {
      var done :| Genuine(job, s.file.value, done);
      ResumesWhereLeft(job, s.file.value, done);
    } else {
      BeginsFromNothing(job);
    }
  }

  lemma {:induction false} RunIsSafe(job: Job, run: seq<Machine>)
    requires ValidLayout(job.settings.model) && Addressable(job) && IsRun(job, run)
    ensures forall i :: 0 <= i < |run| ==> Safe(job, run[i])
    decreases |run|
  {
    hide ValidLayout, Safe, IsRun;
    RunTurn(job, run);
    if |run| > 1 {
      var n := |run| - 1;
      RunIsSafe(job, run[..n]);
      assert Safe(job, run[..n][n - 1]);
      NextIsSafe(job, run[n - 1], run[n]);
      assert forall i :: 0 <= i < n ==> run[..n][i] == run[i];
    }
  }

  /** A run is safe at its start; a longer one is a run and one more step. */
  lemma RunTurn(job: Job, run: seq<Machine>)
    requires ValidLayout(job.settings.model) && IsRun(job, run)
    ensures run != [] && Safe(job, run[0])
    ensures |run| > 1 ==>
              var n := |run| - 1;
              IsRun(job, run[..n]) && Next(job, run[n - 1], run[n])
  {
    hide ValidLayout, OnTrack, Genuine, Next;
    if |run| > 1 {
      var n := |run| - 1;
      forall i | 0 < i < n
        ensures Next(job, run[..n][i - 1], run[..n][i])
      {
        assert Next(job, run[i - 1], run[i]);
      }
    }
  }

  /** Whatever is encoded, saved, crashed and resumed, and however often: a process that comes to an end ends with what
      encoding without interruption returns, no checkpoint these runs leave behind is ever refused, and a process that
      is running can always go on. */
  lemma EveryRunIsSafe(job: Job, run: seq<Machine>)
    requires ValidLayout(job.settings.model) && Addressable(job) && IsRun(job, run)
    ensures forall i :: 0 <= i < |run| ==> Safe(job, run[i])
    ensures forall i :: 0 <= i < |run| && run[i].phase.Ended? ==>
              run[i].phase.result == AsFailed(EncodeSymbols(job.settings, job.symbols))
    ensures forall i :: 0 <= i < |run| && run[i].phase.Running? ==>
              Sane(job, run[i].phase.live) && run[i].phase.live.done <= |job.symbols|
  {
    hide ValidLayout, Genuine, Next, IsRun, Sane, Done;
    RunIsSafe(job, run);
    forall i | 0 <= i < |run| && run[i].phase.Running?
      ensures Sane(job, run[i].phase.live) && run[i].phase.live.done <= |job.symbols|
    {
      assert Safe(job, run[i]);
      OnTrackIsSane(job, run[i].phase.live);
    }
  }
}
