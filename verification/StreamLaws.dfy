/** What a token stream's bytes are, in terms of its tables' own entries. */
module StreamLaws {
  import opened Bits
  import opened Outcomes
  import opened RangeCoder
  import opened RangeTheorems
  import opened Distributions
  import opened TokenStream

  // ----- tables -----

  /** Positive frequencies, each entry's sum the one before and its frequency, and the total the last. */
  ghost predicate IsProper(cdf: Cdf) {
    && 0 < |cdf.freq| == |cdf.cum| <= 0x4_0000 && cdf.cum[0] == 0
    && (forall i :: 0 <= i < |cdf.freq| ==> cdf.freq[i] > 0)
    && (forall i :: 0 <= i < |cdf.freq| - 1 ==> cdf.cum[i + 1] == cdf.cum[i] + cdf.freq[i])
    && cdf.total == cdf.cum[|cdf.cum| - 1] + cdf.freq[|cdf.freq| - 1] < 0x8000_0000
  }

  lemma {:induction false} SumsInTable(cdf: Cdf, i: nat)
    requires IsProper(cdf) && i < |cdf.freq|
    ensures cdf.cum[i] == Total(cdf.freq[..i])
    decreases i
  {
    hide Total;
    if i == 0 {
      NothingBefore(cdf.freq);
    } else {
      SumsInTable(cdf, i - 1);
      TotalStep(cdf.freq, i - 1);
    }
  }

  lemma WellFormedIff(cdf: Cdf)
    ensures WellFormed(cdf) <==> IsProper(cdf)
  {
    hide Total;
    var n := |cdf.freq|;
    if n > 0 {
      SumsStep(cdf.freq);
      TotalStep(cdf.freq, n - 1);
      assert cdf.freq[..n] == cdf.freq;
    }
    if IsProper(cdf) {
      forall i | 0 <= i < n
        ensures cdf.cum[i] == Total(cdf.freq[..i])
      {
        SumsInTable(cdf, i);
      }
      assert cdf.cum == Cumulative(cdf.freq);
    }
    if WellFormed(cdf) {
      forall i | 0 <= i < n - 1
        ensures cdf.cum[i + 1] == cdf.cum[i] + cdf.freq[i]
      {
        TotalStep(cdf.freq, i);
      }
      NothingBefore(cdf.freq);
    }
  }

  // ----- streams -----

  /** Each token has a proper table, and its slot is the token's entry there. */
  ghost predicate AreEntries(cdfs: seq<Cdf>, tokens: seq<nat>, slots: seq<Slot>) {
    && |cdfs| == |tokens| == |slots|
    && forall i :: 0 <= i < |tokens| ==> IsEntry(cdfs[i], tokens[i], slots[i])
  }

  ghost predicate IsEntry(cdf: Cdf, token: nat, slot: Slot) {
    && IsProper(cdf) && token < |cdf.freq|
    && slot == Slot(cdf.cum[token], cdf.freq[token], cdf.total)
  }

  lemma EntryIff(cdf: Cdf, token: nat, slot: Slot)
    ensures IsEntry(cdf, token, slot) <==>
            WellFormed(cdf) && token < |cdf.freq| && slot == SlotOf(cdf.freq, token) && Validate(slot)
  {
    hide Total;
    WellFormedIff(cdf);
    if IsProper(cdf) && token < |cdf.freq| {
      SumsInTable(cdf, token);
      SlotIsValid(cdf.freq, token);
    }
  }

  lemma {:induction false} EntriesIff(cdfs: seq<Cdf>, tokens: seq<nat>, slots: seq<Slot>)
    requires |cdfs| == |tokens|
    ensures SlotsOf(cdfs, tokens) == Ok(slots) <==> AreEntries(cdfs, tokens, slots)
    decreases |cdfs|
  {
    hide IsEntry, WellFormed, SlotOf, Validate;
    if cdfs != [] && slots != [] {
      EntriesIff(cdfs[1..], tokens[1..], slots[1..]);
      EntryIff(cdfs[0], tokens[0], slots[0]);
      HeadOfEntries(cdfs, tokens, slots);
      HeadOfSlots(cdfs, tokens, slots);
    } else if cdfs != [] {
      HeadOfSlots(cdfs, tokens, slots);
    }
  }

  lemma HeadOfEntries(cdfs: seq<Cdf>, tokens: seq<nat>, slots: seq<Slot>)
    requires |cdfs| == |tokens| > 0 && slots != []
    ensures AreEntries(cdfs, tokens, slots) <==>
            IsEntry(cdfs[0], tokens[0], slots[0]) && AreEntries(cdfs[1..], tokens[1..], slots[1..])
  {
    hide IsEntry;
    if IsEntry(cdfs[0], tokens[0], slots[0]) && AreEntries(cdfs[1..], tokens[1..], slots[1..]) {
      forall i | 0 <= i < |tokens|
        ensures IsEntry(cdfs[i], tokens[i], slots[i])
      {
        if i > 0 {
          assert IsEntry(cdfs[1..][i - 1], tokens[1..][i - 1], slots[1..][i - 1]);
        }
      }
    }
    if AreEntries(cdfs, tokens, slots) {
      forall i | 0 <= i < |tokens| - 1
        ensures IsEntry(cdfs[1..][i], tokens[1..][i], slots[1..][i])
      {
        assert IsEntry(cdfs[i + 1], tokens[i + 1], slots[i + 1]);
      }
    }
  }

  lemma HeadOfSlots(cdfs: seq<Cdf>, tokens: seq<nat>, slots: seq<Slot>)
    requires |cdfs| == |tokens| > 0
    ensures SlotsOf(cdfs, tokens) == Ok(slots) <==>
            && WellFormed(cdfs[0]) && tokens[0] < |cdfs[0].freq| && slots != []
            && slots[0] == SlotOf(cdfs[0].freq, tokens[0]) && SlotsOf(cdfs[1..], tokens[1..]) == Ok(slots[1..])
  {
    hide SlotOf, WellFormed, Total;
    if WellFormed(cdfs[0]) && tokens[0] < |cdfs[0].freq| {
      TableSlot(cdfs[0], tokens[0]);
      var rest := SlotsOf(cdfs[1..], tokens[1..]);
      if rest.Ok? {
        var all := [SlotOf(cdfs[0].freq, tokens[0])] + rest.value;
        assert all[1..] == rest.value;
        if slots != [] {
          assert slots == [slots[0]] + slots[1..];
        }
      }
    }
  }

  /** A stream's bytes are what the range coder writes, from the whole interval on, of the tokens' entries. */
  lemma StreamIff(cdfs: seq<Cdf>, tokens: seq<nat>, bytes: seq<byte>)
    ensures EncodeStream(cdfs, tokens) == Ok(bytes) <==>
            exists slots ::
              && AreEntries(cdfs, tokens, slots)
              && CanEncodeAll(Interval(0, 0xffff_ffff_ffff_ffff), slots)
              && bytes == Emitted(Interval(0, 0xffff_ffff_ffff_ffff), slots)
  {
    hide SlotsOf, AreEntries, Emitted;
    if |cdfs| == |tokens| {
      WholeIsReady();
      forall slots
        ensures SlotsOf(cdfs, tokens) == Ok(slots) <==> AreEntries(cdfs, tokens, slots)
      {
        EntriesIff(cdfs, tokens, slots);
      }
      var found := SlotsOf(cdfs, tokens);
      assert found.Ok? ==> found == Ok(found.value);
    } else {
      forall slots
        ensures !AreEntries(cdfs, tokens, slots)
      {
        OneEach(cdfs, tokens, slots);
      }
    }
  }

  lemma OneEach(cdfs: seq<Cdf>, tokens: seq<nat>, slots: seq<Slot>)
    ensures AreEntries(cdfs, tokens, slots) ==> |cdfs| == |tokens|
  {
  }

  /** The first token without an entry is the error: its table is not proper, or it is not in it. */
  lemma {:induction false} FirstMisfit(cdfs: seq<Cdf>, tokens: seq<nat>, i: nat)
    requires |cdfs| == |tokens| && i < |tokens|
    requires forall j :: 0 <= j < i ==> IsProper(cdfs[j]) && tokens[j] < |cdfs[j].freq|
    requires !(IsProper(cdfs[i]) && tokens[i] < |cdfs[i].freq|)
    ensures EncodeStream(cdfs, tokens) ==
            Err(if IsProper(cdfs[i]) then StreamError.SymbolOutOfRange else BadCdf)
    decreases i
  {
    hide WellFormed, SlotOf, Emitted, IsProper;
    WellFormedIff(cdfs[0]);
    if i > 0 {
      FirstMisfit(cdfs[1..], tokens[1..], i - 1);
    }
  }
}
