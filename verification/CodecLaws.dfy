/** What a payload is, symbol by symbol, in terms of the model's logits alone. */
module CodecLaws {
  import opened Bits
  import opened Outcomes
  import opened Floats
  import opened RangeCoder
  import opened RangeTheorems
  import opened Distributions
  import opened Windows
  import opened Llama
  import opened Forward
  import opened InPlaceKernels
  import opened Workspaces
  import opened Codec

  // ----- one symbol has one share -----

  lemma {:induction false} SumsAgree(weigh: Weigher, logits: seq<F32>, tail: nat, a: seq<nat>, b: seq<nat>, i: nat)
    requires LogitSums(weigh, logits, tail, a) && LogitSums(weigh, logits, tail, b) && i <= |logits| + tail
    ensures a[i] == b[i]
    decreases i
  {
    if i > 0 {
      SumsAgree(weigh, logits, tail, a, b, i - 1);
      var j := i - 1;
      assert a[j + 1] - a[j] == b[j + 1] - b[j];
    }
  }

  lemma OneShare(weigh: Weigher, logits: seq<F32>, tail: nat, s: nat, a: seq<nat>, b: seq<nat>, x: Slot, y: Slot)
    requires LogitSums(weigh, logits, tail, a) && LogitSums(weigh, logits, tail, b)
    requires IsShare(a, s, x) && IsShare(b, s, y)
    ensures x == y
  {
    SumsAgree(weigh, logits, tail, a, b, s);
    SumsAgree(weigh, logits, tail, a, b, s + 1);
    SumsAgree(weigh, logits, tail, a, b, |logits| + tail);
  }

  lemma AcceptedIsNotRefused(weigh: Weigher, logits: seq<F32>, tail: nat, sums: seq<nat>, e: CdfError)
    requires IsAccepted(weigh, logits, tail, sums)
    ensures !IsRefused(weigh, logits, tail, e)
  {
    if IsRefused(weigh, logits, tail, e) {
      var other :| LogitSums(weigh, logits, tail, other) && other[|logits| + tail] >= 0x8000_0000;
      SumsAgree(weigh, logits, tail, sums, other, |logits| + tail);
      assert false;
    }
  }

  lemma SlotIff(c: Settings, window: seq<nat>, symbol: nat, slot: Slot)
    requires ValidLayout(c.model)
    ensures SlotIn(c, window, symbol) == Ok(slot) <==> IsModelSlot(c, window, symbol, slot)
  {
    hide SlotIn, LogitsOf, IsAccepted, IsRefused, IsShare, LogitSums;
    SlotWrittenOut(c, window, symbol);
    var r := SlotIn(c, window, symbol);
    if IsModelSlot(c, window, symbol, slot) && window != [] {
      var logits, tail := LogitsOf(c.model, window).value, if c.escapes then 256 else 0;
      var sums :| IsAccepted(c.weigh, logits, tail, sums) && IsShare(sums, symbol, slot);
      LogitsPerToken(c, window);
      InRange(c.weigh, logits, tail, sums, symbol, slot);
      if r.Ok? {
        var other :| IsAccepted(c.weigh, logits, tail, other) && IsShare(other, symbol, r.value);
        InRange(c.weigh, logits, tail, other, symbol, r.value);
        OneShare(c.weigh, logits, tail, symbol, sums, other, slot, r.value);
      } else {
        forall e | IsRefused(c.weigh, logits, tail, e)
          ensures false
        {
          AcceptedIsNotRefused(c.weigh, logits, tail, sums, e);
        }
      }
    }
  }

  lemma InRange(weigh: Weigher, logits: seq<F32>, tail: nat, sums: seq<nat>, s: nat, slot: Slot)
    requires IsAccepted(weigh, logits, tail, sums) && IsShare(sums, s, slot)
    ensures s < |logits| + tail && LogitSums(weigh, logits, tail, sums)
  {
  }

  // ----- starting up -----

  lemma {:induction false} FlatIsFinite(at: (nat, nat) -> F32, positions: nat, half: nat)
    ensures AllFinite(Flat(at, positions, half)) <==>
            forall p: nat, j: nat :: p < positions && j < half ==> IsFinite(at(p, j))
    decreases positions
  {
    hide IsFinite;
    if positions > 0 {
      FlatIsFinite(at, positions - 1, half);
      FiniteParts(Flat(at, positions - 1, half), Angles(at, positions - 1, half));
      AnglesFinite(at, positions - 1, half);
    }
  }

  lemma AnglesFinite(at: (nat, nat) -> F32, p: nat, half: nat)
    ensures AllFinite(Angles(at, p, half)) <==> forall j: nat :: j < half ==> IsFinite(at(p, j))
  {
    hide IsFinite;
    assert forall j: nat :: j < half ==> Angles(at, p, half)[j] == at(p, j);
  }

  /** Every angle of the window is finite, and there are not too many symbols. */
  lemma StartUpIff(c: Settings)
    requires ValidLayout(c.model)
    ensures StartUp(c).Ok? <==>
            && c.nCtx > 0 && c.model.vocab + (if c.escapes then 256 else 0) <= 0x4_0000
            && forall p: nat, j: nat :: p < c.nCtx && j < c.model.config.ropeDimensionCount / 2 ==>
                 IsFinite(c.model.kernels.cosAt(p, j)) && IsFinite(c.model.kernels.sinAt(p, j))
  {
    hide Flat, IsFinite;
    VocabularyNotEmpty(c);
    var half := c.model.config.ropeDimensionCount / 2;
    FlatIsFinite(c.model.kernels.cosAt, c.nCtx, half);
    FlatIsFinite(c.model.kernels.sinAt, c.nCtx, half);
  }

  // ----- a whole payload -----

  /** The part of a context that the next symbol is coded under: what is left after whole strides of n_ctx - overlap. */
  function WindowIn(c: Settings, context: seq<nat>): seq<nat>
    requires c.overlap < c.nCtx
  {
    StartIsClosedForm(|context|, c.nCtx, c.overlap);
    context[if |context| < c.nCtx then 0
            else (1 + (|context| - c.nCtx) / (c.nCtx - c.overlap)) * (c.nCtx - c.overlap)..]
  }

  /** One symbol: its share under the window before it. A token then joins the context, and its own window must have
      logits; anything else must be an escape. */
  ghost predicate IsCoded(c: Settings, context: seq<nat>, symbol: nat, slot: Slot, next: seq<nat>)
    requires ValidLayout(c.model) && c.overlap < c.nCtx
  {
    && IsModelSlot(c, WindowIn(c, context), symbol, slot)
    && if symbol < c.model.vocab then
         next == context + [symbol] && LogitsOf(c.model, WindowIn(c, context) + [symbol]).Ok?
       else c.escapes && next == context
  }

  /** The contexts from one symbol to the next, and the shares. */
  ghost predicate IsCoding(c: Settings, context: seq<nat>, symbols: seq<nat>, contexts: seq<seq<nat>>, slots: seq<Slot>)
    requires ValidLayout(c.model) && c.overlap < c.nCtx
  {
    && |contexts| == |symbols| + 1 && |slots| == |symbols| && contexts[0] == context
    && forall i :: 0 <= i < |symbols| ==> IsCoded(c, contexts[i], symbols[i], slots[i], contexts[i + 1])
  }

  lemma WindowIsThis(c: Settings, context: seq<nat>)
    requires c.overlap < c.nCtx
    ensures WindowIn(c, context) == WindowOf(c, context)
  {
    StartIsClosedForm(|context|, c.nCtx, c.overlap);
  }

  lemma CodedIff(c: Settings, context: seq<nat>, symbol: nat, slot: Slot, next: seq<nat>)
    requires Usable(c)
    ensures IsCoded(c, context, symbol, slot, next) <==>
            SlotIn(c, WindowOf(c, context), symbol) == Ok(slot) && Push(c, context, symbol) == Ok(next)
  {
    hide SlotIn, LogitsOf, IsModelSlot, WindowOf, WindowIn, ValidLayout;
    WindowIsThis(c, context);
    SlotIff(c, WindowOf(c, context), symbol, slot);
    if IsModelSlot(c, WindowOf(c, context), symbol, slot) {
      ModelSlotInAlphabet(c, WindowOf(c, context), symbol, slot);
    }
  }

  lemma ModelSlotInAlphabet(c: Settings, window: seq<nat>, symbol: nat, slot: Slot)
    requires ValidLayout(c.model) && IsModelSlot(c, window, symbol, slot)
    ensures symbol < c.model.vocab + if c.escapes then 256 else 0
  {
    hide LogitsOf;
    if window != [] {
      LogitsPerToken(c, window);
    }
  }

  lemma {:induction false} SlotsToCoding(c: Settings, context: seq<nat>, symbols: seq<nat>)
    returns (contexts: seq<seq<nat>>)
    requires Usable(c) && SlotsFor(c, context, symbols).Ok?
    ensures IsCoding(c, context, symbols, contexts, SlotsFor(c, context, symbols).value)
    decreases |symbols|
  {
    hide SlotIn, Push, IsCoded, WindowOf, WindowIn;
    if symbols == [] {
      contexts := [context];
    } else {
      var slot, next := SlotIn(c, WindowOf(c, context), symbols[0]).value, Push(c, context, symbols[0]).value;
      CodedIff(c, context, symbols[0], slot, next);
      var rest := SlotsToCoding(c, next, symbols[1..]);
      contexts := [context] + rest;
      var (slots, more) := (SlotsFor(c, context, symbols).value, SlotsFor(c, next, symbols[1..]).value);
      assert slots == [slot] + more;
      forall i | 0 <= i < |symbols|
        ensures IsCoded(c, contexts[i], symbols[i], slots[i], contexts[i + 1])
      {
        assert i > 0 ==> contexts[i] == rest[i - 1] && contexts[i + 1] == rest[i] && slots[i] == more[i - 1]
                         && symbols[i] == symbols[1..][i - 1];
      }
    }
  }

  lemma {:induction false} CodingToSlots(c: Settings, context: seq<nat>, symbols: seq<nat>, contexts: seq<seq<nat>>,
                                         slots: seq<Slot>)
    requires Usable(c) && IsCoding(c, context, symbols, contexts, slots)
    ensures SlotsFor(c, context, symbols) == Ok(slots)
    decreases |symbols|
  {
    hide SlotIn, Push, IsCoded, WindowOf, WindowIn;
    if symbols == [] {
      assert slots == [];
    } else {
      assert IsCoded(c, contexts[0], symbols[0], slots[0], contexts[1]);
      CodedIff(c, context, symbols[0], slots[0], contexts[1]);
      var (rest, more, later) := (contexts[1..], slots[1..], symbols[1..]);
      forall i | 0 <= i < |later|
        ensures IsCoded(c, rest[i], later[i], more[i], rest[i + 1])
      {
        assert IsCoded(c, contexts[i + 1], symbols[i + 1], slots[i + 1], contexts[i + 2]);
      }
      CodingToSlots(c, contexts[1], later, rest, more);
      assert slots == [slots[0]] + more;
    }
  }

  /** A payload is what the range coder writes, from the whole interval on, of the shares the symbols have under the
      model, and there is none exactly if some symbol has no share. */
  lemma EncodedIff(c: Settings, symbols: seq<nat>, bytes: seq<byte>)
    requires ValidLayout(c.model)
    ensures EncodeSymbols(c, symbols) == Ok(bytes) <==>
            && 0 < c.nCtx <= c.model.config.contextLength && c.overlap < c.nCtx && StartUp(c).Ok?
            && exists contexts, slots ::
                 && IsCoding(c, [], symbols, contexts, slots)
                 && CanEncodeAll(Interval(0, 0xffff_ffff_ffff_ffff), slots)
                 && bytes == Emitted(Interval(0, 0xffff_ffff_ffff_ffff), slots)
  {
    hide StartUp, SlotsFor, IsCoding, Emitted, ValidLayout;
    if CheckedWindow(c).Ok? && StartUp(c).Ok? {
      WholeIsReady();
      if SlotsFor(c, [], symbols).Ok? {
        var contexts := SlotsToCoding(c, [], symbols);
      }
      forall contexts, slots | IsCoding(c, [], symbols, contexts, slots)
        ensures SlotsFor(c, [], symbols) == Ok(slots)
      {
        CodingToSlots(c, [], symbols, contexts, slots);
      }
    }
  }
}
