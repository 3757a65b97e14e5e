/** One encoding session with a checkpoint file, as it runs. */
module CheckpointLoops {
  import opened Bits
  import opened Outcomes
  import opened RangeCoder
  import opened RangeTheorems
  import opened Windows
  import opened Llama
  import opened Forward
  import opened Tokenizers
  import opened Codec
  import opened WindowedStates
  import opened CodecLoops
  import opened Checkpoints
  import opened CheckpointRuns

  /** After how many symbols a session that starts at `from` writes its checkpoints, up to `to`. */
  function SavePoints(from: nat, to: nat, total: nat, every: nat): seq<nat>
    requires every > 0
  {
    if to <= from then []
    else SavePoints(from, to - 1, total, every) + if to == total || to % every == 0 then [to] else []
  }

  /** The same without recursion: the points in order, each multiple of the interval and the end. */
  ghost predicate AreSavePoints(points: seq<nat>, from: nat, to: nat, total: nat, every: nat)
    requires every > 0
  {
    && (forall i, j :: 0 <= i < j < |points| ==> points[i] < points[j])
    && forall d :: d in points <==> from < d <= to && (d == total || d % every == 0)
  }

  lemma {:induction false} SavePointsAre(from: nat, to: nat, total: nat, every: nat)
    requires every > 0
    ensures AreSavePoints(SavePoints(from, to, total, every), from, to, total, every)
  {
    if from < to {
      var rest := SavePoints(from, to - 1, total, every);
      SavePointsAre(from, to - 1, total, every);
      assert forall i :: 0 <= i < |rest| ==> rest[i] in rest;
    }
  }

  /** How far a session has come: to the end, or to the symbol that cannot be encoded. */
  ghost predicate GotTo(job: Job, begun: Live, reached: nat, r: Result<seq<byte>, SessionError>)
    requires Usable(job.settings)
  {
    && begun.done <= reached <= |job.symbols| && SlotsBetween(job, begun, reached).Ok?
    && if r.Ok? then reached == |job.symbols|
       else reached < |job.symbols| && SlotsBetween(job, begun, reached + 1).Err?
  }

  /** Checkpoints of a process that began here, one for each point. */
  ghost predicate AllSaved(job: Job, begun: Live, writes: seq<seq<byte>>, points: seq<nat>)
    requires Usable(job.settings)
  {
    |writes| == |points| && forall i :: 0 <= i < |writes| ==> Saved(job, begun, writes[i], points[i])
  }

  /** Genuine checkpoints, one for each point. */
  ghost predicate AllGenuine(job: Job, writes: seq<seq<byte>>, points: seq<nat>) {
    |writes| == |points| && forall i :: 0 <= i < |writes| ==> Genuine(job, writes[i], points[i])
  }

  /** The file that is there, if any, was written by a process of this job that began with none. */
  ghost predicate OwnFile(job: Job, file: Option<seq<byte>>) {
    file.Some? ==> exists done :: Genuine(job, file.value, done)
  }

  /** Where a process can begin, and its first symbol be encoded. */
  ghost predicate Begun(job: Job, begun: Live) {
    && Usable(job.settings) && StartUp(job.settings).Ok? && begun.done <= |job.symbols| && CanGoOn(job, begun)
    && |begun.encoder.out| < 0x8000_0000_0000_0000
  }

  /** A session under way: it has encoded the symbols from where it began to here. */
  ghost predicate UnderWay(job: Job, begun: Live, state: WindowedModelState, enc: RangeEncoder, tokens: seq<nat>,
                           done: nat, slots: seq<Slot>)
    reads state, state.cache, state.workspace, enc
  {
    && Begun(job, begun) && begun.done <= done <= |job.symbols|
    && state.settings == job.settings && Follows(state, tokens) && HasWritten(enc, begun.encoder, slots)
    && tokens == begun.tokens + TokensIn(job.symbols[begun.done..done], job.settings.model.vocab)
    && SlotsBetween(job, begun, done) == Ok(slots)
  }

  /** Read the checkpoint file and see whether it belongs to this job. */
  method LoadCheckpoint(job: Job, file: Option<seq<byte>>) returns (r: Result<(nat, RangeEncoder), SessionError>)
    ensures r.Err? <==> Loaded(job, file).Err?
    ensures r.Err? ==> r.error == Loaded(job, file).error
    ensures r.Ok? ==>
              && fresh(r.value.1) && Loaded(job, file) == Ok((r.value.0, r.value.1.TakeSnapshot()))
              && (OwnFile(job, file) ==> r.value.1.Valid())
  {
    hide Parsed;
    if file.None? {
      var enc := new RangeEncoder();
      return Ok((0, enc));
    }
    var parsed := ParseCheckpoint(file.value);
    if parsed.Err? {
      return Err(Refused(parsed.error));
    }
    var ck := parsed.value;
    var valid := ValidateCheckpoint(ck, IdentityOf(job));
    if valid.Err? {
      return Err(Refused(valid.error));
    }
    var restored := RangeEncoder.FromSnapshot(ck.encoder);
    if restored.Err? {
      return Err(BadEncoder);
    }
    if OwnFile(job, file) {
      GenuineIsReady(job, file.value);
    }
    r := Ok((ck.symbolsDone, restored.value));
  }

  lemma GenuineIsReady(job: Job, bytes: seq<byte>)
    requires exists done :: Genuine(job, bytes, done)
    ensures Ready(StateOf(Parsed(bytes).value.encoder))
  {
    hide Parsed, Done;
    var done :| Genuine(job, bytes, done);
    DoneIsReady(job, done, Parsed(bytes).value.encoder);
  }

  method FilterTokens(symbols: seq<nat>, vocabLen: nat) returns (tokens: seq<nat>)
    ensures tokens == TokensIn(symbols, vocabLen)
  {
    tokens := [];
    for i := 0 to |symbols|
      invariant tokens == TokensIn(symbols[..i], vocabLen)
    {
      assert symbols[..i + 1][..i] == symbols[..i];
      if SymbolIsToken(symbols[i], vocabLen) {
        tokens := tokens + [symbols[i]];
      }
    }
    assert symbols[..|symbols|] == symbols;
  }

  /** A window state brought to where the encoder of a prefix would be. */
  method ResumeState(c: Settings, tokens: seq<nat>) returns (r: Result<WindowedModelState, CodecError>)
    requires Usable(c)
    ensures StartUp(c).Err? ==> r == Err(StartUp(c).error)
    ensures StartUp(c).Ok? ==>
              var logits := LogitsIn(c, tokens[PrefixStart(|tokens|, c.nCtx, c.overlap)..]);
              && (r.Err? <==> logits.Err?)
              && (r.Err? ==> r.error == logits.error)
    ensures r.Ok? ==>
              && fresh(r.value) && fresh(r.value.cache) && fresh(r.value.workspace)
              && r.value.settings == c && Follows(r.value, tokens)
  {
    hide PrefixStart, StartUp, HistoryOf, ValidLayout;
    var start := WindowStartForEncodedPrefix(|tokens|, c.nCtx, c.overlap);
    r := WindowedModelState.New(c);
    if r.Err? {
      return;
    }
    var done := r.value.Replay(start, tokens[start..]);
    if done.Err? {
      r := Err(done.error);
    }
  }

  datatype Session = Session(done: nat, tokens: seq<nat>, enc: RangeEncoder, state: WindowedModelState)

  method StartSession(job: Job, file: Option<seq<byte>>)
    returns (r: Result<Session, SessionError>, ghost begun: Live)
    requires ValidLayout(job.settings.model)
    requires file.Some? ==> |file.value| < 0x8000_0000_0000_0000
    requires Begin(job, file).Ok? ==> CanGoOn(job, Begin(job, file).value)
    ensures r.Err? <==> Begin(job, file).Err?
    ensures r.Err? ==> r.error == Begin(job, file).error
    ensures r.Ok? ==>
              var s := r.value;
              && fresh(s.enc) && fresh(s.state) && fresh(s.state.cache) && fresh(s.state.workspace)
              && begun == Begin(job, file).value && s.done == begun.done
              && UnderWay(job, begun, s.state, s.enc, s.tokens, s.done, [])
  {
    hide PrefixStart, StartUp, ValidLayout, Loaded, LogitsIn, SlotsFor, CanGoOn, UnderWay, HasWritten, TokensIn;
    hide WindowedModelState.Valid, SyncedStart;
    var c := job.settings;
    begun := Outset();
    var checked := CheckedWindow(c);
    if checked.Err? {
      return Err(Failed(checked.error)), begun;
    }
    var loaded := LoadCheckpoint(job, file);
    if loaded.Err? {
      return Err(loaded.error), begun;
    }
    var (done, enc) := loaded.value;
    var tokens := FilterTokens(job.symbols[..done], c.model.vocab);
    var state := ResumeState(c, tokens);
    if state.Err? {
      return Err(Failed(state.error)), begun;
    }
    begun := Begin(job, file).value;
    LoadedIsShort(job, file);
    NothingWritten(enc);
    BeginsHere(job, begun, state.value, enc);
    r := Ok(Session(done, tokens, enc, state.value));
  }

  lemma LoadedIsShort(job: Job, file: Option<seq<byte>>)
    requires Loaded(job, file).Ok? && (file.Some? ==> |file.value| < 0x8000_0000_0000_0000)
    ensures |Loaded(job, file).value.1.out| < 0x8000_0000_0000_0000
  {
  }

  lemma BeginsHere(job: Job, begun: Live, state: WindowedModelState, enc: RangeEncoder)
    requires Begun(job, begun) && state.settings == job.settings
    requires Follows(state, begun.tokens) && HasWritten(enc, begun.encoder, [])
    ensures UnderWay(job, begun, state, enc, begun.tokens, begun.done, [])
  {
    hide CanGoOn, Usable, StartUp, Follows, HasWritten;
    NoTokens(begun.tokens, job.settings.model.vocab);
    assert job.symbols[begun.done..begun.done] == [];
  }

  /** One more symbol. */
  method SessionTurn(job: Job, ghost begun: Live, state: WindowedModelState, enc: RangeEncoder, tokens: seq<nat>,
                     done: nat, ghost slots: seq<Slot>)
    returns (r: Result<seq<nat>, CodecError>, ghost slots': seq<Slot>)
    requires UnderWay(job, begun, state, enc, tokens, done, slots) && done < |job.symbols|
    modifies state, state.cache, state.workspace, enc
    ensures state.cache == old(state.cache) || fresh(state.cache)
    ensures r.Err? ==> Err(Failed(r.error)) == Continued(job, begun)
    ensures r.Err? ==> Begun(job, begun) && GotTo(job, begun, done, Err(Failed(r.error)))
    ensures r.Ok? ==> UnderWay(job, begun, state, enc, r.value, done + 1, slots')
  {
    hide StartUp, ValidLayout, SlotsFor, HasWritten, Follows, Spent, Usable, TokensIn, SyncedStart, CanGoOn, SlotFits;
    var c, symbol := job.settings, job.symbols[done];
    FitsHere(job, begun, state, enc, tokens, done, slots);
    TurnOfSlots(job, begun, tokens, done, slots);
    r, slots' := EncodeNext(state, enc, tokens, symbol, begun.encoder, slots);
    if r.Err? {
      assert [symbol] + job.symbols[done + 1..] == job.symbols[done..];
      assert [symbol] + [] == [symbol];
    } else {
      SlotsForHead(c, r.value, []);
      assert [symbol] + [] == [symbol] && slots' + [] == slots';
      TokensGrow(job, begun, tokens, done);
    }
  }

  /** The slot of the symbol that is next is not too wide. */
  lemma FitsHere(job: Job, begun: Live, state: WindowedModelState, enc: RangeEncoder, tokens: seq<nat>, done: nat,
                 slots: seq<Slot>)
    requires UnderWay(job, begun, state, enc, tokens, done, slots) && done < |job.symbols|
    ensures Usable(job.settings) && ValidLayout(job.settings.model) && job.settings.overlap < job.settings.nCtx
    ensures SlotFits(job.settings, tokens, job.symbols[done], enc.range)
  {
    hide StartUp, SlotsFor, Follows, TokensIn, SlotFits, After, Written;
    UnderWayIsBetween(job, begun, state, enc, tokens, done, slots);
    BetweenGoesOn(job, begun, Live(done, tokens, 0, enc.TakeSnapshot()));
  }

  lemma UnderWayIsBetween(job: Job, begun: Live, state: WindowedModelState, enc: RangeEncoder, tokens: seq<nat>,
                          done: nat, slots: seq<Slot>)
    requires UnderWay(job, begun, state, enc, tokens, done, slots)
    ensures Usable(job.settings) && begun.done <= |job.symbols| && CanGoOn(job, begun)
    ensures Between(job, begun, Live(done, tokens, 0, enc.TakeSnapshot()))
  {
    hide StartUp, SlotsFor, Follows, TokensIn, CanGoOn, After, Written, Usable;
  }

  /** One symbol more is one slot more, or the error of all that follow. */
  lemma TurnOfSlots(job: Job, begun: Live, tokens: seq<nat>, done: nat, slots: seq<Slot>)
    requires Usable(job.settings) && begun.done <= done < |job.symbols|
    requires SlotsBetween(job, begun, done) == Ok(slots)
    requires tokens == begun.tokens + TokensIn(job.symbols[begun.done..done], job.settings.model.vocab)
    ensures SlotsBetween(job, begun, done + 1) == Prefixed(slots, SlotsFor(job.settings, tokens, [job.symbols[done]]))
    ensures SlotsBetween(job, begun, |job.symbols|) ==
            Prefixed(slots, SlotsFor(job.settings, tokens, job.symbols[done..]))
  {
    hide Usable, SlotsFor, TokensIn;
    var c, b := job.settings, begun.done;
    var before := job.symbols[b..done];
    assert before + [job.symbols[done]] == job.symbols[b..done + 1];
    assert before + job.symbols[done..] == job.symbols[b..|job.symbols|];
    SlotsForParts(c, begun.tokens, before, [job.symbols[done]]);
    SlotsForParts(c, begun.tokens, before, job.symbols[done..]);
  }

  lemma TokensGrow(job: Job, begun: Live, tokens: seq<nat>, done: nat)
    requires begun.done <= done < |job.symbols|
    requires tokens == begun.tokens + TokensIn(job.symbols[begun.done..done], job.settings.model.vocab)
    ensures begun.tokens + TokensIn(job.symbols[begun.done..done + 1], job.settings.model.vocab) ==
            if SymbolIsToken(job.symbols[done], job.settings.model.vocab) then tokens + [job.symbols[done]] else tokens
  {
    hide TokensIn;
    var before := job.symbols[begun.done..done];
    assert before + [job.symbols[done]] == job.symbols[begun.done..done + 1];
    EndsWith(job.settings, before, job.symbols[done]);
  }

  /** A session: it takes up what the file holds, writes a checkpoint at every point, and returns what going on from
      there without interruption returns. If the file is this job's own, that is what encoding without interruption
      returns. The clock may show anything. */
  method EncodeSymbolsWithModelCheckpoint(job: Job, file: Option<seq<byte>>, every: nat, clock: nat -> u64)
    returns (r: Result<seq<byte>, SessionError>, writes: seq<seq<byte>>)
    requires ValidLayout(job.settings.model) && Addressable(job) && every > 0
    requires file.Some? ==> |file.value| < 0x8000_0000_0000_0000
    requires Begin(job, file).Ok? ==> CanGoOn(job, Begin(job, file).value)
    ensures Begin(job, file).Err? ==> r == Err(Begin(job, file).error) && writes == []
    ensures Begin(job, file).Ok? ==>
              var begun := Begin(job, file).value;
              && r == Continued(job, begun)
              && exists points, reached ::
                   && AllSaved(job, begun, writes, points) && GotTo(job, begun, reached, r)
                   && AreSavePoints(points, begun.done, reached, |job.symbols|, every)
    ensures Begin(job, file).Ok? && OwnFile(job, file) ==>
              var begun := Begin(job, file).value;
              && r == Uninterrupted(job)
              && exists points, reached ::
                   && AllGenuine(job, writes, points) && GotTo(job, begun, reached, r)
                   && AreSavePoints(points, begun.done, reached, |job.symbols|, every)
  {
    hide AreSavePoints, GotTo;
    hide ValidLayout, Begin, Uninterrupted, UnderWay, Genuine, Saved, Continued, CanGoOn, OwnFile, AllSaved, AllGenuine;
    writes := [];
    ghost var begun;
    var session;
    session, begun := StartSession(job, file);
    if session.Err? {
      r := Err(session.error);
      return;
    }
    ghost var points, reached;
    r, writes, points, reached := EncodeRest(job, begun, session.value, every, clock);
    if OwnFile(job, file) {
      OwnFileOnTrack(job, file);
      OnTrackIsUninterrupted(job, begun);
      AllSavedOnTrack(job, begun, writes, points);
    }
  }

  lemma OwnFileOnTrack(job: Job, file: Option<seq<byte>>)
    requires ValidLayout(job.settings.model) && Begin(job, file).Ok? && OwnFile(job, file)
    ensures OnTrack(job, Begin(job, file).value)
  {
    hide ValidLayout, Genuine, Begin, OnTrack;
    if file.Some? {
      var done :| Genuine(job, file.value, done);
      ResumesWhereLeft(job, file.value, done);
    } else {
      BeginsFromNothing(job);
    }
  }

  lemma AllSavedOnTrack(job: Job, begun: Live, writes: seq<seq<byte>>, points: seq<nat>)
    requires OnTrack(job, begun) && AllSaved(job, begun, writes, points)
    ensures AllGenuine(job, writes, points)
  {
    hide OnTrack, Saved, Genuine;
    forall i | 0 <= i < |writes|
      ensures Genuine(job, writes[i], points[i])
    {
      SavedOnTrack(job, begun, writes[i], points[i]);
    }
  }

  /** The loop of a session. */
  method EncodeRest(job: Job, ghost begun: Live, session: Session, every: nat, clock: nat -> u64)
    returns (r: Result<seq<byte>, SessionError>, writes: seq<seq<byte>>, ghost points: seq<nat>, ghost reached: nat)
    requires Addressable(job) && every > 0
    requires session.done == begun.done
    requires UnderWay(job, begun, session.state, session.enc, session.tokens, session.done, [])
    modifies session.state, session.state.cache, session.state.workspace, session.enc
    ensures Begun(job, begun) && r == Continued(job, begun)
    ensures AllSaved(job, begun, writes, points)
    ensures GotTo(job, begun, reached, r)
    ensures AreSavePoints(points, begun.done, reached, |job.symbols|, every)
  {
    hide AreSavePoints, GotTo;
    hide UnderWay, AllSaved, Saved, Continued, CanGoOn, Usable, Begun;
    var (tokens, enc, state) := (session.tokens, session.enc, session.state);
    var start, total := session.done, |job.symbols|;
    ghost var current: seq<Slot> := [];
    UnderWayHasBegun(job, begun, state, enc, tokens, start, current);
    writes, points := [], [];
    NoneSaved(job, begun);
    reached := start;
    for done := start to total
      invariant reached == done
      invariant state.cache == old(state.cache) || fresh(state.cache)
      invariant UnderWay(job, begun, state, enc, tokens, done, current)
      invariant points == SavePoints(start, done, total, every) && AllSaved(job, begun, writes, points)
    {
      var next;
      next, current := SessionTurn(job, begun, state, enc, tokens, done, current);
      if next.Err? {
        r := Err(Failed(next.error));
        SavePointsAre(start, done, total, every);
        return;
      }
      tokens, reached := next.value, done + 1;
      if done + 1 == total || (done + 1) % every == 0 {
        var bytes := SaveSession(job, begun, state, enc, tokens, done + 1, clock(done), current);
        OneMoreSaved(job, begun, writes, points, bytes, done + 1);
        writes, points := writes + [bytes], points + [done + 1];
      }
    }
    SavePointsAre(start, total, total, every);
    r := FinishSession(job, begun, state, enc, tokens, current);
  }

  lemma UnderWayHasBegun(job: Job, begun: Live, state: WindowedModelState, enc: RangeEncoder, tokens: seq<nat>,
                         done: nat, slots: seq<Slot>)
    requires UnderWay(job, begun, state, enc, tokens, done, slots)
    ensures Begun(job, begun) && begun.done <= done <= |job.symbols|
    ensures Usable(job.settings) && CanGoOn(job, begun)
  {
    hide CanGoOn, Usable, StartUp, SlotsBetween, Follows, HasWritten;
  }

  lemma NoneSaved(job: Job, begun: Live)
    requires Usable(job.settings)
    ensures AllSaved(job, begun, [], [])
  {
  }

  lemma OneMoreSaved(job: Job, begun: Live, writes: seq<seq<byte>>, points: seq<nat>, bytes: seq<byte>, done: nat)
    requires Usable(job.settings) && AllSaved(job, begun, writes, points) && Saved(job, begun, bytes, done)
    ensures AllSaved(job, begun, writes + [bytes], points + [done])
  {
    hide Saved, Usable;
  }

  method SaveSession(job: Job, ghost begun: Live, state: WindowedModelState, enc: RangeEncoder, tokens: seq<nat>,
                     done: nat, elapsedNs: u64, ghost slots: seq<Slot>)
    returns (bytes: seq<byte>)
    requires Addressable(job) && UnderWay(job, begun, state, enc, tokens, done, slots)
    ensures Usable(job.settings) && Saved(job, begun, bytes, done)
  {
    hide UnderWay, Encoded, Saved, Usable, SlotsBetween, ValidateCheckpoint, Between;
    UnderWayHasBegun(job, begun, state, enc, tokens, done, slots);
    UnderWayIsBetween(job, begun, state, enc, tokens, done, slots);
    CheckpointIsSaved(job, begun, Live(done, tokens, 0, enc.TakeSnapshot()), elapsedNs);
    var c := job.settings;
    var checkpoint := EncodeCheckpoint(job.modelSha, job.inputSha, c.nCtx, c.overlap, job.origLen, |job.symbols|, done,
                                       elapsedNs, enc.TakeSnapshot());
    var encoded := EncodeCheckpointBytes(checkpoint);
    bytes := encoded.value;
  }

  /** What a session writes fits the format and is read back. */
  lemma CheckpointIsSaved(job: Job, begun: Live, mid: Live, elapsedNs: u64)
    requires Addressable(job) && Begun(job, begun) && Between(job, begun, mid)
    ensures Encoded(Checkpoint(job, mid, elapsedNs)).Ok?
    ensures Saved(job, begun, Encoded(Checkpoint(job, mid, elapsedNs)).value, mid.done)
  {
    hide Encoded, Parsed, SlotsFor, Usable, CanGoOn, StartUp, TokensIn, Carried, CanEncodeAll;
    var c := Checkpoint(job, mid, elapsedNs);
    StillShort(job, begun, mid);
    FitsAreEncoded(c);
    ParsedIffEncoded(Encoded(c).value, c);
  }

  lemma StillShort(job: Job, begun: Live, mid: Live)
    requires Addressable(job) && Begun(job, begun) && Between(job, begun, mid)
    ensures |mid.encoder.out| + FIXED < WORD
  {
    hide SlotsFor, Usable, CanGoOn, StartUp, TokensIn, After, Written, Debt;
    WrittenLength(StateOf(begun.encoder), SlotsBetween(job, begun, mid.done).value);
  }

  method FinishSession(job: Job, ghost begun: Live, state: WindowedModelState, enc: RangeEncoder, tokens: seq<nat>,
                       ghost slots: seq<Slot>)
    returns (r: Result<seq<byte>, SessionError>)
    requires UnderWay(job, begun, state, enc, tokens, |job.symbols|, slots)
    modifies enc
    ensures Begun(job, begun) && r == Continued(job, begun) && GotTo(job, begun, |job.symbols|, r)
  {
    hide HasWritten, Follows, SlotsFor, Usable, StartUp, CanGoOn, TokensIn, Emitted;
    var bytes := FinishSlots(enc, begun.encoder, slots);
    r := Ok(bytes);
  }
}
