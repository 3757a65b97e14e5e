/** Integer distributions over symbols: the full table, and the two partial views the codec builds instead. */
module Distributions {
  import opened Bits
  import opened Outcomes
  import opened Floats
  import opened RangeCoder

  const MAX_SYMBOLS: nat := 0x4_0000
  const BYTE_ESCAPE_SYMBOLS: nat := 256

  datatype CdfError = Empty | Malformed | NonFiniteLogit | SymbolOutOfRange | TooManySymbols | TotalTooLarge

  datatype Cdf = Cdf(freq: seq<u32>, cum: seq<u64>, total: u64)

  /** The decoder's view: frequencies, and how many symbols of frequency one follow them. */
  datatype DecoderDistribution = DecoderDistribution(freq: seq<u32>, tailSymbols: nat, total: u64)

  /** The integer part of a scaled probability; one more still fits 32 bits. */
  type Weight = x: nat | x < 0xffff_ffff

  /** The weight of the i-th of a vector of logits. */
  type Weigher = (seq<F32>, nat) -> Weight

  // ----- sums of frequencies -----

  function Total(freq: seq<u32>): nat {
    if freq == [] then 0 else Total(freq[..|freq| - 1]) + freq[|freq| - 1]
  }

  lemma TotalAppend(freq: seq<u32>, f: u32)
    ensures Total(freq + [f]) == Total(freq) + f
  {
    assert (freq + [f])[..|freq|] == freq;
  }

  lemma {:induction false} TotalBound(freq: seq<u32>)
    ensures Total(freq) <= |freq| * 0xffff_ffff
    decreases |freq|
  {
    if freq != [] {
      TotalBound(freq[..|freq| - 1]);
    }
  }

  lemma {:induction false} TotalMonotone(freq: seq<u32>, i: nat, j: nat)
    requires i <= j <= |freq|
    ensures Total(freq[..i]) <= Total(freq[..j])
    decreases j
  {
    if i < j {
      TotalMonotone(freq, i, j - 1);
      assert freq[..j][..j - 1] == freq[..j - 1];
    }
  }

  lemma TotalStep(freq: seq<u32>, i: nat)
    requires i < |freq|
    ensures Total(freq[..i + 1]) == Total(freq[..i]) + freq[i]
  {
    assert freq[..i + 1][..i] == freq[..i];
  }

  /** The running totals before each symbol. */
  function Cumulative(freq: seq<u32>): (r: seq<nat>)
    ensures |r| == |freq|
    ensures forall i :: 0 <= i < |freq| ==> r[i] == Total(freq[..i])
  {
    seq(|freq|, i requires 0 <= i < |freq| => Total(freq[..i]))
  }

  function Ones(n: nat): (r: seq<u32>)
    ensures |r| == n
  {
    seq(n, _ => 1)
  }

  lemma {:induction false} TotalWithTail(freq: seq<u32>, n: nat)
    ensures Total(freq + Ones(n)) == Total(freq) + n
    decreases n
  {
    if n == 0 {
      assert freq + Ones(0) == freq;
    } else {
      assert freq + Ones(n) == (freq + Ones(n - 1)) + [1];
      TotalAppend(freq + Ones(n - 1), 1);
      TotalWithTail(freq, n - 1);
    }
  }

  // ----- the reference distribution -----

  function Frequencies(weigh: Weigher, logits: seq<F32>): (r: seq<u32>)
    ensures |r| == |logits|
  {
    seq(|logits|, i requires 0 <= i < |logits| => weigh(logits, i) + 1)
  }

  /** The distribution a vector of logits stands for, with `tail` more symbols of frequency one. */
  function Reference(weigh: Weigher, logits: seq<F32>, tail: nat): Result<seq<u32>, CdfError> {
    if logits == [] then Err(Empty)
    else if |logits| + tail > MAX_SYMBOLS then Err(TooManySymbols)
    else if !AllFinite(logits) then Err(NonFiniteLogit)
    else
      var freq := Frequencies(weigh, logits) + Ones(tail);
      if Total(freq) >= MAX_TOTAL then Err(TotalTooLarge) else Ok(freq)
  }

  ghost predicate IsTable(cdf: Cdf, freq: seq<u32>) {
    && cdf.freq == freq
    && cdf.cum == Cumulative(freq)
    && cdf.total == Total(freq)
  }

  ghost predicate WellFormed(cdf: Cdf) {
    && 0 < |cdf.freq| <= MAX_SYMBOLS
    && IsTable(cdf, cdf.freq)
    && cdf.total < MAX_TOTAL
    && forall i :: 0 <= i < |cdf.freq| ==> cdf.freq[i] > 0
  }

  /** The coding step of symbol s. */
  function SlotOf(freq: seq<u32>, s: nat): (r: Slot)
    requires s < |freq| && Total(freq) < MAX_TOTAL
  {
    TotalMonotone(freq, s, |freq|);
    assert freq[..|freq|] == freq;
    Slot(Total(freq[..s]), freq[s], Total(freq))
  }

  ghost predicate Positive(freq: seq<u32>) {
    forall i :: 0 <= i < |freq| ==> freq[i] > 0
  }

  /** Every symbol of a distribution has a slot the range coder accepts. */
  lemma SlotIsValid(freq: seq<u32>, s: nat)
    requires s < |freq| && Total(freq) < MAX_TOTAL && Positive(freq)
    ensures Validate(SlotOf(freq, s))
  {
    TotalStep(freq, s);
    TotalMonotone(freq, s + 1, |freq|);
    assert freq[..|freq|] == freq;
  }

  /** The symbol whose slot contains a value. */
  function SymbolAt(freq: seq<u32>, value: nat): (s: nat)
    requires value < Total(freq)
    ensures s < |freq| && Total(freq[..s]) <= value < Total(freq[..s]) + freq[s]
    decreases |freq|
  {
    var last := |freq| - 1;
    if Total(freq[..last]) <= value then last
    else
      var s := SymbolAt(freq[..last], value);
      assert freq[..last][..s] == freq[..s];
      s
  }

  /** Slots do not overlap, so a value belongs to one symbol. */
  lemma SymbolUnique(freq: seq<u32>, value: nat, s: nat)
    requires s < |freq| && Total(freq[..s]) <= value < Total(freq[..s]) + freq[s]
    ensures value < Total(freq) && SymbolAt(freq, value) == s
  {
    TotalStep(freq, s);
    TotalMonotone(freq, s + 1, |freq|);
    assert freq[..|freq|] == freq;
    var t := SymbolAt(freq, value);
    TotalStep(freq, t);
    if s < t {
      TotalMonotone(freq, s + 1, t);
    } else if t < s {
      TotalMonotone(freq, t + 1, s);
    }
  }

  // ----- the distribution written out, symbol by symbol -----

  /** What lies before each symbol, and in the end all of it: a logit takes one more than its weight, and each of the
      tail's symbols takes one. */
  ghost predicate LogitSums(weigh: Weigher, logits: seq<F32>, tail: nat, sums: seq<nat>) {
    && |sums| == |logits| + tail + 1 && sums[0] == 0
    && (forall i :: 0 <= i < |logits| ==> sums[i + 1] == sums[i] + weigh(logits, i) + 1)
    && (forall i :: |logits| <= i < |logits| + tail ==> sums[i + 1] == sums[i] + 1)
  }

  ghost predicate IsAccepted(weigh: Weigher, logits: seq<F32>, tail: nat, sums: seq<nat>) {
    && logits != [] && |logits| + tail <= 0x4_0000 && AllFinite(logits)
    && LogitSums(weigh, logits, tail, sums) && sums[|logits| + tail] < 0x8000_0000
  }

  /** What is wrong with some logits, in the order in which it is found out. */
  ghost predicate IsRefused(weigh: Weigher, logits: seq<F32>, tail: nat, e: CdfError) {
    if logits == [] then e == Empty
    else if |logits| + tail > 0x4_0000 then e == TooManySymbols
    else if !AllFinite(logits) then e == NonFiniteLogit
    else
      && e == TotalTooLarge
      && exists sums :: LogitSums(weigh, logits, tail, sums) && sums[|logits| + tail] >= 0x8000_0000
  }

  /** The share of one symbol. */
  ghost predicate IsShare(sums: seq<nat>, s: nat, slot: Slot) {
    s + 1 < |sums| && slot.cum == sums[s] && slot.cum + slot.freq == sums[s + 1] && slot.total == sums[|sums| - 1]
  }

  /** The sums of a list of frequencies. */
  ghost function SumsOf(freq: seq<u32>): (r: seq<nat>)
    ensures |r| == |freq| + 1
    ensures forall i :: 0 <= i <= |freq| ==> r[i] == Total(freq[..i])
  {
    seq(|freq| + 1, i requires 0 <= i < |freq| + 1 => Total(freq[..i]))
  }

  lemma SumsStep(freq: seq<u32>)
    ensures SumsOf(freq)[0] == 0 && SumsOf(freq)[|freq|] == Total(freq)
    ensures forall i :: 0 <= i < |freq| ==> SumsOf(freq)[i + 1] == SumsOf(freq)[i] + freq[i]
  {
    hide Total;
    NothingBefore(freq);
    assert freq[..|freq|] == freq;
    forall i | 0 <= i < |freq|
      ensures SumsOf(freq)[i + 1] == SumsOf(freq)[i] + freq[i]
    {
      TotalStep(freq, i);
    }
  }

  /** The reference distribution is this one, with these errors. */
  lemma ReferenceWrittenOut(weigh: Weigher, logits: seq<F32>, tail: nat)
    ensures var r := Reference(weigh, logits, tail);
            && (r.Err? ==> IsRefused(weigh, logits, tail, r.error))
            && (r.Ok? ==> IsAccepted(weigh, logits, tail, SumsOf(r.value)))
            && (r.Ok? ==> forall s :: 0 <= s < |r.value| ==> IsShare(SumsOf(r.value), s, SlotOf(r.value, s)))
  {
    hide Total, AllFinite, LogitSums, SlotOf;
    var freq := Frequencies(weigh, logits) + Ones(tail);
    SumsStep(freq);
    SumsOfLogits(weigh, logits, tail);
    if Reference(weigh, logits, tail).Ok? {
      forall s | 0 <= s < |freq|
        ensures IsShare(SumsOf(freq), s, SlotOf(freq, s))
      {
        ShareOf(freq, s);
      }
    }
  }

  lemma ShareOf(freq: seq<u32>, s: nat)
    requires s < |freq| && Total(freq) < MAX_TOTAL
    ensures IsShare(SumsOf(freq), s, SlotOf(freq, s))
  {
    SumsStep(freq);
  }

  lemma SumsOfLogits(weigh: Weigher, logits: seq<F32>, tail: nat)
    ensures LogitSums(weigh, logits, tail, SumsOf(Frequencies(weigh, logits) + Ones(tail)))
  {
    hide Total, SumsOf;
    SumsStep(Frequencies(weigh, logits) + Ones(tail));
  }

  // ----- lookups -----

  /** How many leading entries are at most `value`. */
  function PartitionPoint(cum: seq<nat>, value: nat): (r: nat)
    ensures r <= |cum|
    decreases |cum|
  {
    if cum == [] || cum[0] > value then 0 else 1 + PartitionPoint(cum[1..], value)
  }

  lemma {:induction false} PartitionPointAt(cum: seq<nat>, value: nat, k: nat)
    requires k <= |cum|
    requires forall i :: 0 <= i < k ==> cum[i] <= value
    requires k < |cum| ==> cum[k] > value
    ensures PartitionPoint(cum, value) == k
    decreases k
  {
    if k > 0 {
      PartitionPointAt(cum[1..], value, k - 1);
    }
  }

  function SymbolForValidated(cdf: Cdf, value: nat): Option<nat> {
    if cdf.cum == [] || |cdf.cum| != |cdf.freq| || value >= cdf.total then None
    else
      var idx := PartitionPoint(cdf.cum, value);
      Some(if idx == 0 then 0 else idx - 1)
  }

  /** Binary search in a well-formed table finds the symbol whose slot contains the value. */
  lemma TableLookup(cdf: Cdf, value: nat)
    requires WellFormed(cdf)
    ensures SymbolForValidated(cdf, value) ==
            if value < cdf.total then Some(SymbolAt(cdf.freq, value)) else None
  {
    if value < cdf.total {
      var freq := cdf.freq;
      var s := SymbolAt(freq, value);
      TotalStep(freq, s);
      forall i | 0 <= i < |freq|
        ensures i <= s ==> cdf.cum[i] <= value
        ensures i == s + 1 ==> cdf.cum[i] > value
      {
        if i <= s {
          TotalMonotone(freq, i, s);
        }
      }
      PartitionPointAt(cdf.cum, value, s + 1);
    }
  }

  // ----- the builders -----

  /** Buffers kept between symbols; whatever they held before has no effect. */
  class CdfScratch {
    var decoderFreq: seq<u32>
    var cdf: Cdf

    constructor ()
    {
      decoderFreq, cdf := [], Cdf([], [], 0);
    }

    method LogitsToCdf(weigh: Weigher, logits: seq<F32>) returns (r: Result<(), CdfError>)
      modifies this`cdf
      ensures r.Err? <==> Reference(weigh, logits, 0).Err?
      ensures r.Err? ==> r.error == Reference(weigh, logits, 0).error
      ensures r.Ok? ==> IsTable(cdf, Reference(weigh, logits, 0).value)
      ensures r.Ok? ==> IsAccepted(weigh, logits, 0, cdf.cum + [cdf.total])
      ensures r.Ok? ==> |cdf.freq| == |logits| && forall i :: 0 <= i < |logits| ==> cdf.freq[i] == weigh(logits, i) + 1
      ensures r.Err? ==> IsRefused(weigh, logits, 0, r.error)
    {
      ReferenceWrittenOut(weigh, logits, 0);
      hide IsAccepted, IsRefused;
      if logits == [] {
        return Err(Empty);
      }
      if |logits| > MAX_SYMBOLS {
        return Err(TooManySymbols);
      }
      if !AllFinite(logits) {
        return Err(NonFiniteLogit);
      }
      hide Total;
      ghost var all := Frequencies(weigh, logits);
      assert all + Ones(0) == all;
      var total := FillTable(weigh, logits);
      if total >= MAX_TOTAL {
        return Err(TotalTooLarge);
      }
      cdf := cdf.(total := total);
      TableSums(cdf, all);
      r := Ok(());
    }

    /** The loop over the logits, which fills the table but for its total. */
    method FillTable(weigh: Weigher, logits: seq<F32>) returns (total: u64)
      requires |logits| <= MAX_SYMBOLS
      modifies this`cdf
      ensures var all := Frequencies(weigh, logits);
              cdf.freq == all && cdf.cum == Cumulative(all) && total == Total(all)
    {
      ghost var all := Frequencies(weigh, logits);
      cdf := Cdf([], [], cdf.total);
      total := 0;
      NothingBefore(all);
      hide Total;
      for i := 0 to |logits|
        invariant cdf.freq == all[..i] && total == Total(all[..i])
        invariant cdf.cum == Cumulative(all[..i])
      {
        var f: u32 := weigh(logits, i) + 1;
        RunningTotal(all, i, total);
        CumulativeAppend(all, i);
        cdf := Cdf(cdf.freq + [f], cdf.cum + [total], cdf.total);
        total := total + f;
      }
      assert all[..|logits|] == all;
    }

    method AppendUniformTail(symbols: nat, freq: u32) returns (r: Result<(), CdfError>)
      requires IsTable(cdf, cdf.freq) && cdf.total < MAX_TOTAL
      modifies this`cdf
      ensures r.Ok? <==>
              && |old(cdf.freq)| + symbols <= MAX_SYMBOLS && freq != 0
              && old(cdf.total) + symbols * freq < MAX_TOTAL
      ensures r.Ok? ==> |cdf.freq| == |old(cdf.freq)| + symbols && IsTable(cdf, cdf.freq)
      ensures r.Ok? ==>
                && old(cdf.freq) <= cdf.freq
                && forall i :: |old(cdf.freq)| <= i < |cdf.freq| ==> cdf.freq[i] == freq
      ensures r.Err? ==> cdf == old(cdf)
      ensures r.Err? ==>
                r.error == if |old(cdf.freq)| + symbols > MAX_SYMBOLS then TooManySymbols
                           else if freq == 0 then Malformed
                           else TotalTooLarge
    {
      if |cdf.freq| + symbols > MAX_SYMBOLS {
        return Err(TooManySymbols);
      }
      if freq == 0 {
        return Err(Malformed);
      }
      if cdf.total + symbols * freq >= MAX_TOTAL {
        return Err(TotalTooLarge);
      }
      hide IsTable;
      for i := 0 to symbols
        invariant IsTable(cdf, cdf.freq)
        invariant |cdf.freq| == |old(cdf.freq)| + i && old(cdf.freq) <= cdf.freq
        invariant forall j :: |old(cdf.freq)| <= j < |cdf.freq| ==> cdf.freq[j] == freq
        invariant cdf.total == old(cdf.total) + i * freq
      {
        ProductMonotone(freq, i + 1, symbols);
        assert (i + 1) * freq == i * freq + freq;
        TableAppend(cdf, freq);
        cdf := Cdf(cdf.freq + [freq], cdf.cum + [cdf.total], cdf.total + freq);
      }
      r := Ok(());
    }

    /** Appending the byte escapes to the table gives the table of the reference with its tail. */
    method LogitsToCdfWithByteEscapes(weigh: Weigher, logits: seq<F32>) returns (r: Result<(), CdfError>)
      modifies this`cdf
      ensures r.Err? <==> Reference(weigh, logits, BYTE_ESCAPE_SYMBOLS).Err?
      ensures r.Err? ==> r.error == Reference(weigh, logits, BYTE_ESCAPE_SYMBOLS).error
      ensures r.Ok? ==> IsTable(cdf, Reference(weigh, logits, BYTE_ESCAPE_SYMBOLS).value)
      ensures r.Ok? ==> IsAccepted(weigh, logits, 256, cdf.cum + [cdf.total])
      ensures r.Ok? ==> |cdf.freq| == |logits| + 256 && forall i :: 0 <= i < |logits| + 256 ==>
                          cdf.freq[i] == if i < |logits| then weigh(logits, i) + 1 else 1
      ensures r.Err? ==> IsRefused(weigh, logits, 256, r.error)
    {
      ReferenceWrittenOut(weigh, logits, BYTE_ESCAPE_SYMBOLS);
      hide IsAccepted, IsRefused, Total, SumsOf, Cumulative;
      if |logits| + BYTE_ESCAPE_SYMBOLS > MAX_SYMBOLS {
        return Err(TooManySymbols);
      }
      ghost var all := Frequencies(weigh, logits);
      assert all + Ones(0) == all;
      TotalWithTail(all, BYTE_ESCAPE_SYMBOLS);
      r := LogitsToCdf(weigh, logits);
      if r.Err? {
        return;
      }
      r := AppendUniformTail(BYTE_ESCAPE_SYMBOLS, 1);
      if r.Ok? {
        assert cdf.freq == all + Ones(BYTE_ESCAPE_SYMBOLS);
        TableSums(cdf, cdf.freq);
      }
    }

    /** The decoder keeps frequencies only, and counts the tail instead of storing it. */
    method LogitsToDecoderDistribution(weigh: Weigher, logits: seq<F32>, tail: nat)
      returns (r: Result<DecoderDistribution, CdfError>)
      modifies this`decoderFreq
      ensures r.Err? <==> Reference(weigh, logits, tail).Err?
      ensures r.Err? ==> r.error == Reference(weigh, logits, tail).error
      ensures r.Ok? ==> Stands(r.value, Reference(weigh, logits, tail).value)
      ensures r.Ok? ==>
                && |r.value.freq| == |logits| && r.value.tailSymbols == tail
                && (forall i :: 0 <= i < |logits| ==> r.value.freq[i] == weigh(logits, i) + 1)
                && exists sums :: IsAccepted(weigh, logits, tail, sums) && r.value.total == sums[|logits| + tail]
      ensures r.Err? ==> IsRefused(weigh, logits, tail, r.error)
    {
      ReferenceWrittenOut(weigh, logits, tail);
      hide IsRefused;
      if logits == [] {
        return Err(Empty);
      }
      if |logits| + tail > MAX_SYMBOLS {
        return Err(TooManySymbols);
      }
      if !AllFinite(logits) {
        return Err(NonFiniteLogit);
      }
      hide Total;
      ghost var all := Frequencies(weigh, logits);
      var total := FillFrequencies(weigh, logits);
      TotalBound(all);
      TotalWithTail(all, tail);
      total := total + tail;
      if total >= MAX_TOTAL {
        return Err(TotalTooLarge);
      }
      SumsStep(all + Ones(tail));
      r := Ok(DecoderDistribution(decoderFreq, tail, total));
    }

    /** The same loop, frequencies only. */
    method FillFrequencies(weigh: Weigher, logits: seq<F32>) returns (total: u64)
      requires |logits| <= MAX_SYMBOLS
      modifies this`decoderFreq
      ensures decoderFreq == Frequencies(weigh, logits) && total == Total(Frequencies(weigh, logits))
    {
      ghost var all := Frequencies(weigh, logits);
      decoderFreq := [];
      total := 0;
      NothingBefore(all);
      hide Total;
      for i := 0 to |logits|
        invariant decoderFreq == all[..i] && total == Total(all[..i])
      {
        var f: u32 := weigh(logits, i) + 1;
        RunningTotal(all, i, total);
        decoderFreq := decoderFreq + [f];
        total := total + f;
      }
      assert all[..|logits|] == all;
    }
  }

  lemma TableSums(cdf: Cdf, freq: seq<u32>)
    requires IsTable(cdf, freq)
    ensures cdf.cum + [cdf.total] == SumsOf(freq)
  {
    assert freq[..|freq|] == freq;
  }

  lemma TableAppend(cdf: Cdf, f: u32)
    requires IsTable(cdf, cdf.freq) && cdf.total + f < WORD
    ensures IsTable(Cdf(cdf.freq + [f], cdf.cum + [cdf.total], cdf.total + f), cdf.freq + [f])
  {
    var longer := cdf.freq + [f];
    TotalAppend(cdf.freq, f);
    assert longer[..|cdf.freq|] == cdf.freq && longer[..|longer|] == longer;
    CumulativeAppend(longer, |cdf.freq|);
  }

  lemma CumulativeAppend(freq: seq<u32>, i: nat)
    requires i < |freq|
    ensures Cumulative(freq[..i + 1]) == Cumulative(freq[..i]) + [Total(freq[..i])]
  {
    forall k | 0 <= k < i
      ensures freq[..i + 1][..k] == freq[..i][..k]
    {
    }
    assert freq[..i + 1][..i] == freq[..i];
  }

  /** A decoder distribution that stands for a full list of frequencies. */
  ghost predicate Stands(d: DecoderDistribution, freq: seq<u32>) {
    d.freq + Ones(d.tailSymbols) == freq && d.total == Total(freq)
  }

  /** The encoder's view: one slot, without a table. */
  method LogitsToSymbolRange(weigh: Weigher, logits: seq<F32>, symbol: nat, tail: nat)
    returns (r: Result<Slot, CdfError>)
    ensures r.Ok? <==> Reference(weigh, logits, tail).Ok? && symbol < |logits| + tail
    ensures r.Ok? ==> r.value == SlotOf(Reference(weigh, logits, tail).value, symbol)
    ensures r.Err? ==>
              r.error == var ref := Reference(weigh, logits, tail);
                         if ref.Err? && ref.error in {Empty, TooManySymbols} then ref.error
                         else if symbol >= |logits| + tail then SymbolOutOfRange
                         else ref.error
    ensures r.Ok? ==> exists sums :: IsAccepted(weigh, logits, tail, sums) && IsShare(sums, symbol, r.value)
    ensures r.Err? ==>
              if 0 < |logits| <= |logits| + tail <= 0x4_0000 && symbol >= |logits| + tail
              then r.error == SymbolOutOfRange
              else IsRefused(weigh, logits, tail, r.error)
  {
    ReferenceWrittenOut(weigh, logits, tail);
    hide IsAccepted, IsShare;
    if logits == [] {
      return Err(Empty);
    }
    if |logits| + tail > MAX_SYMBOLS {
      return Err(TooManySymbols);
    }
    if symbol >= |logits| + tail {
      return Err(SymbolOutOfRange);
    }
    if !AllFinite(logits) {
      return Err(NonFiniteLogit);
    }
    hide Total, SlotOf, Frequencies;
    ghost var all := Frequencies(weigh, logits);
    var total, range := WeighSymbol(weigh, logits, symbol);
    TailSlot(all, tail, symbol);
    if symbol >= |logits| {
      range := Some((total + (symbol - |logits|), 1));
    }
    total := total + tail;
    if total >= MAX_TOTAL {
      return Err(TotalTooLarge);
    }
    r := Ok(Slot(range.value.0, range.value.1, total));
  }

  /** The loop over the logits: the running total, and the part of it before the symbol. */
  method WeighSymbol(weigh: Weigher, logits: seq<F32>, symbol: nat) returns (total: u64, range: Option<(u64, u32)>)
    requires |logits| <= MAX_SYMBOLS
    ensures var all := Frequencies(weigh, logits);
            && total == Total(all)
            && range == if symbol < |all| then Some((Total(all[..symbol]), all[symbol])) else None
  {
    ghost var all := Frequencies(weigh, logits);
    total, range := 0, None;
    NothingBefore(all);
    hide Total, Frequencies;
    WeighedOneByOne(weigh, logits);
    for i := 0 to |logits|
      invariant total == Total(all[..i])
      invariant range == if symbol < i then Some((Total(all[..symbol]), all[symbol])) else None
    {
      var f: u32 := weigh(logits, i) + 1;
      RunningTotal(all, i, total);
      if i == symbol {
        range := Some((total, f));
      }
      total := total + f;
    }
    assert all[..|logits|] == all;
  }

  lemma WeighedOneByOne(weigh: Weigher, logits: seq<F32>)
    ensures forall i :: 0 <= i < |logits| ==> Frequencies(weigh, logits)[i] == weigh(logits, i) + 1
  {
  }

  /** The slot of a symbol of a distribution with a tail, from the total and the part before it. */
  lemma TailSlot(freq: seq<u32>, tail: nat, s: nat)
    requires |freq| + tail <= MAX_SYMBOLS && s < |freq| + tail
    ensures Total(freq + Ones(tail)) == Total(freq) + tail < WORD
    ensures Total(freq + Ones(tail)) < MAX_TOTAL ==>
              var slot := SlotOf(freq + Ones(tail), s);
              && slot.cum == (if s < |freq| then Total(freq[..s]) else Total(freq) + (s - |freq|))
              && slot.freq == (if s < |freq| then freq[s] else 1)
              && slot.total == Total(freq) + tail
  {
    TotalBound(freq);
    TotalWithTail(freq, tail);
    PrefixOfTail(freq, tail, s);
  }

  lemma PrefixOfTail(freq: seq<u32>, tail: nat, s: nat)
    requires s < |freq| + tail
    ensures Total((freq + Ones(tail))[..s]) ==
            if s < |freq| then Total(freq[..s]) else Total(freq) + (s - |freq|)
  {
    if s < |freq| {
      assert (freq + Ones(tail))[..s] == freq[..s];
    } else {
      assert (freq + Ones(tail))[..s] == freq + Ones(s - |freq|);
      TotalWithTail(freq, s - |freq|);
    }
  }

  /** The linear scan finds the same symbol and slot as the table does. */
  method FindSymbol(d: DecoderDistribution, value: u64, ghost freq: seq<u32>) returns (r: Option<(nat, Slot)>)
    requires Stands(d, freq) && Total(freq) < MAX_TOTAL
    ensures r == if value < Total(freq) then
                   Some((SymbolAt(freq, value), SlotOf(freq, SymbolAt(freq, value))))
                 else None
  {
    hide SymbolAt, SlotOf, Total;
    if value >= d.total {
      return None;
    }
    var cum: u64 := 0;
    NothingBefore(d.freq);
    for i := 0 to |d.freq|
      invariant cum == Total(d.freq[..i]) <= value
    {
      FoundInFront(d, freq, value, i);
      var next: u64 := cum + d.freq[i];
      if value < next {
        return Some((i, Slot(cum, d.freq[i], d.total)));
      }
      cum := next;
    }
    assert d.freq[..|d.freq|] == d.freq;
    FoundInTail(d, freq, value);
    var offset := value - cum;
    var symbol := |d.freq| + offset;
    if offset < d.tailSymbols {
      r := Some((symbol, Slot(value, 1, d.total)));
    } else {
      r := None;
    }
  }

  lemma NothingBefore(freq: seq<u32>)
    ensures Total(freq[..0]) == 0
  {
  }

  lemma FoundInFront(d: DecoderDistribution, freq: seq<u32>, value: u64, i: nat)
    requires Stands(d, freq) && Total(freq) < MAX_TOTAL && i < |d.freq| && Total(d.freq[..i]) <= value
    ensures Total(d.freq[..i]) + d.freq[i] == Total(d.freq[..i + 1]) < WORD
    ensures value < Total(d.freq[..i]) + d.freq[i] ==>
              && value < Total(freq) && SymbolAt(freq, value) == i
              && SlotOf(freq, i) == Slot(Total(d.freq[..i]), d.freq[i], d.total)
  {
    TotalStep(d.freq, i);
    PrefixOfTail(d.freq, d.tailSymbols, i);
    TotalMonotone(d.freq, i + 1, |d.freq|);
    assert d.freq[..|d.freq|] == d.freq;
    TotalWithTail(d.freq, d.tailSymbols);
    if value < Total(d.freq[..i]) + d.freq[i] {
      SymbolUnique(freq, value, i);
    }
  }

  lemma FoundInTail(d: DecoderDistribution, freq: seq<u32>, value: u64)
    requires Stands(d, freq) && Total(freq) < MAX_TOTAL && Total(d.freq) <= value < d.total
    ensures var offset := value - Total(d.freq);
            && offset < d.tailSymbols
            && SymbolAt(freq, value) == |d.freq| + offset
            && SlotOf(freq, |d.freq| + offset) == Slot(value, 1, d.total)
  {
    hide Total, SymbolAt;
    var symbol := |d.freq| + (value - Total(d.freq));
    TotalWithTail(d.freq, d.tailSymbols);
    PrefixOfTail(d.freq, d.tailSymbols, symbol);
    SymbolUnique(freq, value, symbol);
  }

  // ----- uniform distributions -----

  function UniformReference(symbols: nat): Result<seq<u32>, CdfError> {
    if symbols == 0 then Err(Empty)
    else if symbols > MAX_SYMBOLS then Err(TooManySymbols)
    else Ok(Ones(symbols))
  }

  lemma OnesTotal(n: nat)
    ensures Total(Ones(n)) == n
  {
    TotalWithTail([], n);
    assert [] + Ones(n) == Ones(n);
  }

  method UniformCdf(symbols: nat) returns (r: Result<Cdf, CdfError>)
    ensures r.Err? <==> UniformReference(symbols).Err?
    ensures r.Err? ==> r.error == UniformReference(symbols).error
    ensures r.Ok? ==> WellFormed(r.value) && r.value.freq == UniformReference(symbols).value
    ensures r.Ok? <==> 0 < symbols <= 0x4_0000
    ensures r.Ok? ==>
              && |r.value.freq| == |r.value.cum| == r.value.total == symbols
              && forall i :: 0 <= i < symbols ==> r.value.freq[i] == 1 && r.value.cum[i] == i
    ensures r.Err? ==> r.error == if symbols == 0 then Empty else TooManySymbols
  {
    if symbols == 0 {
      return Err(Empty);
    }
    if symbols > MAX_SYMBOLS {
      return Err(TooManySymbols);
    }
    var freq: seq<u32>, cum: seq<u64> := [], [];
    for i := 0 to symbols
      invariant freq == Ones(i) && cum == Cumulative(Ones(i))
      invariant forall k :: 0 <= k < i ==> cum[k] == k
    {
      CumulativeAppend(Ones(i + 1), i);
      assert Ones(i + 1)[..i] == Ones(i) && Ones(i + 1)[..i + 1] == Ones(i + 1);
      OnesTotal(i);
      freq := freq + [1];
      cum := cum + [i];
    }
    OnesTotal(symbols);
    r := Ok(Cdf(freq, cum, symbols));
  }

  function UniformSymbolRange(symbol: nat, symbols: nat): (r: Result<Slot, CdfError>)
    ensures UniformReference(symbols).Err? ==> r == Err(UniformReference(symbols).error)
    ensures UniformReference(symbols).Ok? && symbol >= symbols ==> r == Err(SymbolOutOfRange)
    ensures UniformReference(symbols).Ok? && symbol < symbols ==>
              && Total(UniformReference(symbols).value) < MAX_TOTAL
              && r == Ok(SlotOf(UniformReference(symbols).value, symbol))
  {
    if symbols == 0 then Err(Empty)
    else if symbols > MAX_SYMBOLS then Err(TooManySymbols)
    else if symbol >= symbols then Err(SymbolOutOfRange)
    else
      OnesTotal(symbols);
      OnesTotal(symbol);
      assert Ones(symbols)[..symbol] == Ones(symbol);
      Ok(Slot(symbol, 1, symbols))
  }

  // ----- checking a table from outside -----

  lemma RunningTotal(freq: seq<u32>, i: nat, total: nat)
    requires i < |freq| <= MAX_SYMBOLS && total == Total(freq[..i])
    ensures total + freq[i] == Total(freq[..i + 1]) < WORD
  {
    TotalStep(freq, i);
    TotalBound(freq[..i + 1]);
  }

  /** The running check accepts exactly the well-formed tables. */
  method ValidateCdf(cdf: Cdf) returns (r: Result<(), CdfError>)
    ensures r.Ok? <==> WellFormed(cdf)
    ensures r.Err? ==>
              r.error == if cdf.freq == [] || cdf.cum == [] || |cdf.freq| != |cdf.cum| then Malformed
                         else if |cdf.freq| > MAX_SYMBOLS then TooManySymbols
                         else if cdf.total == 0 || cdf.total >= MAX_TOTAL then TotalTooLarge
                         else Malformed
  {
    hide WellFormed, Total;
    if WellFormed(cdf) {
      WellFormedShape(cdf);
    }
    if cdf.freq == [] || cdf.cum == [] || |cdf.freq| != |cdf.cum| {
      return Err(Malformed);
    }
    if |cdf.freq| > MAX_SYMBOLS {
      return Err(TooManySymbols);
    }
    if cdf.total == 0 || cdf.total >= MAX_TOTAL {
      return Err(TotalTooLarge);
    }
    var total: u64 := 0;
    NothingBefore(cdf.freq);
    for i := 0 to |cdf.freq|
      invariant total == Total(cdf.freq[..i])
      invariant forall k :: 0 <= k < i ==> cdf.freq[k] > 0 && cdf.cum[k] == Total(cdf.freq[..k])
    {
      if cdf.freq[i] == 0 || cdf.cum[i] != total {
        WrongEntry(cdf, i);
        return Err(Malformed);
      }
      RunningTotal(cdf.freq, i, total);
      total := total + cdf.freq[i];
    }
    assert cdf.freq[..|cdf.freq|] == cdf.freq;
    RightEntries(cdf);
    if total != cdf.total {
      return Err(Malformed);
    }
    r := Ok(());
  }

  lemma WellFormedShape(cdf: Cdf)
    requires WellFormed(cdf)
    ensures 0 < |cdf.freq| == |cdf.cum| && |cdf.freq| <= MAX_SYMBOLS && 0 < cdf.total < MAX_TOTAL
  {
    assert Total(cdf.freq) >= cdf.freq[|cdf.freq| - 1];
  }

  lemma WrongEntry(cdf: Cdf, i: nat)
    requires i < |cdf.freq| == |cdf.cum| && (cdf.freq[i] == 0 || cdf.cum[i] != Total(cdf.freq[..i]))
    ensures !WellFormed(cdf)
  {
    assert cdf.freq[i] == 0 || cdf.cum[i] != Cumulative(cdf.freq)[i];
  }

  lemma RightEntries(cdf: Cdf)
    requires 0 < |cdf.freq| == |cdf.cum| && |cdf.freq| <= MAX_SYMBOLS && cdf.total < MAX_TOTAL
    requires forall k :: 0 <= k < |cdf.freq| ==> cdf.freq[k] > 0 && cdf.cum[k] == Total(cdf.freq[..k])
    ensures WellFormed(cdf) <==> cdf.total == Total(cdf.freq)
  {
    assert cdf.cum == Cumulative(cdf.freq);
  }
}
