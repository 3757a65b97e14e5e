# detllm, modelled and verified in Dafny

`detllm` compresses a file without loss. A tokenizer turns bytes into tokens and byte escapes, a deterministic language
model gives a distribution for the next symbol from a sliding window of tokens, and a 64-bit carryless range coder writes
each symbol in its slot of that distribution. The decoder runs the same model and must find the same slots. This project
models the integer, list and state-machine code that makes this work, in the shape the Rust has (classes for the coder,
the KV cache, the workspace and the window state; loops for loops; functions for pure code), and proves what it is for.

The floating-point kernels are fields of `Llama.Kernels`: unknown functions of exactly the inputs the code gives them.
Everything proved holds for every choice of them. A float is its 32-bit pattern. `usize` is unbounded except where the code
checks for overflow or where a width matters (`u64`, `u32`, bytes, `i32` accumulators), which is written out; a file or a
payload in memory is shorter than 2^64 bytes, and a checkpoint file, which is read into one vector, than 2^63.

## The main results

- **Range coder** (`RangeCoder`, `RangeTheorems`). For every list of valid slots the decoder, run on the encoder's
  bytes, finds each slot, meets no error and reads every byte, through truncation and through `low + range = 2^64`.
  The proof goes from the end: the first eight bytes still to come always lie in the interval. A symbol takes at most
  6 bytes.
- **Whole codec** (`Codec`, `CodecTheorems`, `CodecLoops`, `WindowedStates`). Whatever compresses is restored byte for
  byte, for every model, window, overlap and mix of tokens and escapes. The loop that counts bytes stops after exactly
  the encoder's symbols; a cut payload ends in end-of-input and an extended one is refused. Decoding accepts a payload
  exactly when encoding the decoded symbols gives it; that the compressor made it is a stronger condition, also
  stated. The windowed state that reuses its cache, its logits and its buffers always stands where replaying the
  window's tokens into a new cache would, and its window never overruns.
- **Crash and resume** (`Checkpoints`, `CheckpointRuns`, `CheckpointLoops`). Over every run of starting, encoding,
  saving, crashing and reloading, a process that ends, ends with what encoding without interruption returns. This
  includes a checkpoint that falls between an escape whose coding moved the window and the next symbol.
- **Model data flow** (`KvCaches`, `InPlaceKernels`, `Forward`, `Workspaces`, `FreshReplays`). A forward step's logits
  are a function of the token list alone, whatever the reused buffers, the quantisation scratch and the cache beyond
  the position held before, and however large the workspace and the rotation tables are.
- **Tokenizers** (`Bpe`, `Vocabularies`, `Tokenizers`, `TokenizerTheorems`). The heap over a linked list, stale entries
  included, returns the tokens of the naive rank scan within 3(n - 1) pops; SentencePiece is maximal munch; every built
  tokenizer makes every byte string into symbols that decode to it.
- **Distributions and token streams** (`Distributions`, `TokenStream`). The full table, the single slot and the
  frequency-only view agree with one reference, and decoding a token stream is the exact partial inverse of encoding it.
- **Formats and kernels.** Streaming SHA-256 equals FIPS 180-4 for every way of splitting the message (`Sha256`);
  parsing a GGUF header is the exact inverse of writing it and accepted tensors are disjoint (`Ggufs`, `GgufFiles`,
  `GgufLoops`); parallel matrix rows equal sequential ones in every interleaving (`Gemv`); the Q6_K integer kernel
  stays within 2^24 (`Q6K`).

The specification functions these results are about are not taken on trust. Beside each stands what it computes, in terms
of less: `RangeLaws` the coder's words in plain numbers; `StreamLaws` and `CodecLaws` a payload by the weights of the
logits each symbol is coded under; `KernelLaws` and `ForwardLaws` a forward pass as the vectors that must be there, number
by number, and no others; `TokenizerLaws`, `VocabularyLaws` and `PieceLaws` a token list by where the text is cut and what
the vocabulary's entries spell; `FormatLaws` and `GgufLaws` which byte of a file holds what; `WordBits`, `Sha256Laws` and
`FloatLaws` the words and numbers as FIPS 180-4 and IEEE 754 define them. Most are equivalences.

`Outcomes`, `Bits`, `LittleEndians` and `Floats` hold what the others share; `Fixtures` shows that the codec's
assumptions can be met.

Two places where names promise more than the code does. `RangeEncoder::from_snapshot` refuses only a zero range.
A restored encoder whose range is below the total of its first symbol never gets through that symbol
(`RangeCoder.EncodeEndsIff`, `CheckpointRuns.GoesOnIff`); any other goes on from its snapshot, and gives the
uninterrupted result if a run of the job produced it. The tie-break of equal scores in the SentencePiece constructor
(crates/det-token/src/lib.rs:543-557) compares ids that only grow, so it never fires; the lowest id wins because a later
entry with the same score does not replace it.

## Model

| member | source | states |
|---|---|---|
| RangeCoder.NormalizeStepByQuotients | crates/det-coder/src/range.rs:169-178 | the xor test for settled top bytes is equality of quotients by 2^56, and the truncated range is the distance from `low` to the next multiple of 2^48 |
| RangeCoder.TruncatedStep | crates/det-coder/src/range.rs:161-178 | a truncation never makes the range 0 and never enlarges it; afterwards `low + range` is exactly 2^64 with a range below 2^56 |
| RangeCoder.RenormTurn | crates/det-coder/src/range.rs:75-81 | every turn of the renormalisation loop leaves a nonempty interval nonempty and makes progress, also one that wraps around 2^64; it keeps `low + range <= 2^64`, with equality only for a range below 2^56 |
| RangeCoder.RenormEndsIff | crates/det-coder/src/range.rs:75-81 | from any two words, the renormalisation loop ends exactly when the range is not zero |
| RangeCoder.EncodeEndsIff | crates/det-coder/src/range.rs:58-65 | from any two words, encoding a valid triple ends exactly when its total is at most the range |
| RangeCoder.NarrowFits | crates/det-coder/src/range.rs:58-65 | narrowing to a valid slot never wraps a product, and in a coder's interval it stays inside and wraps no sum |
| RangeCoder.RangeEncoder.constructor | crates/det-coder/src/range.rs:31-37 | a new encoder has `low` 0, `range` 2^64 - 1 and nothing written |
| RangeCoder.RangeEncoder.FromSnapshot | crates/det-coder/src/range.rs:39-48 | exactly a snapshot with zero range is refused; otherwise low, range and output are restored |
| RangeCoder.RangeEncoder.Encode | crates/det-coder/src/range.rs:58-65 | whatever was restored, an invalid triple changes nothing; a valid one no wider than the range moves the state and appends the bytes as the step function says, and the range is at least 2^48 again |
| RangeCoder.RangeEncoder.RenormInPlace | crates/det-coder/src/range.rs:75-81 | the loop on the fields does what renormalisation of the interval does |
| RangeCoder.RangeEncoder.Finish | crates/det-coder/src/range.rs:67-73 | the eight bytes of `low`, highest first, follow what has been written |
| RangeCoder.RangeDecoder.Open | crates/det-coder/src/range.rs:95-108 | end of input exactly for fewer than eight bytes; otherwise `low` is 0, `range` is 2^64 - 1, and the code is those eight bytes |
| RangeCoder.RangeDecoder.NextFreq | crates/det-coder/src/range.rs:110-127 | the value below the total that the code's position in the interval stands for, or an invalid-frequency error; a second call before advancing is refused |
| RangeCoder.RangeDecoder.AdvanceBy | crates/det-coder/src/range.rs:129-140 | narrowing by the pending unit and renormalising, or an error if the slot is invalid, nothing is pending, totals differ or input runs out |
| RangeCoder.RangeDecoder.RenormInPlace | crates/det-coder/src/range.rs:142-149 | the decoder's loop reads a byte for every shift and stops with an error when there is none |
| RangeCoder.RangeDecoder.ReadByte | crates/det-coder/src/range.rs:151-158 | the next byte, or end of input |
| RangeTheorems.EncodeInParts | crates/det-coder/src/range.rs:39-73 | encoding one list and then, from its state, another is encoding both: a snapshot resumes the same stream |
| RangeTheorems.EmittedInside | crates/det-coder/src/range.rs:58-81 | the first eight bytes an encoder will still emit lie in its current interval |
| RangeTheorems.NextSlotInside | crates/det-coder/src/range.rs:58-81 | they also lie in the part of the interval that the next slot narrows to |
| RangeTheorems.RenormMirrored | crates/det-coder/src/range.rs:142-149 | the decoder shifts in a byte wherever the encoder shifted one out, and keeps the same low and range |
| RangeTheorems.DecodeStepFollows | crates/det-coder/src/range.rs:110-140 | on the encoding, a prefix or an extension of it, one decoding step finds a value in the encoder's slot and then mirrors the encoder or runs out of input |
| RangeTheorems.RunFollows | crates/det-coder/src/range.rs:58-178 | a whole run mirrors the encoder on an input at least as long as the encoding, and ends in end-of-input on a shorter one |
| RangeTheorems.RoundTrip | crates/det-coder/src/range.rs:58-178 | for every list of valid slots, decoding the finished bytes hits every slot, never errs and consumes exactly every byte |
| RangeTheorems.RenormAtMostSix | crates/det-coder/src/range.rs:75-81 | a renormalisation from any narrowed interval writes at most six bytes |
| RangeTheorems.WrittenLength | crates/det-coder/src/range.rs:39-81 | from any snapshot whose range takes the first slot, n symbols write at most 6n + 17 bytes; a snapshot of a run owes none of the 17 |
| RangeTheorems.EncodedLength | crates/det-coder/src/range.rs:58-81 | n symbols take at least 8 and at most 8 + 6n bytes |
| RangeLaws.AcceptedTriples | crates/det-coder/src/range.rs:161-167 | accepted are exactly the triples of positive frequency that end within a total below 2^31 |
| RangeLaws.BeginsWhole | crates/det-coder/src/range.rs:31-108 | encoder and decoder begin with `low` 0 and `range` 2^64 - 1, and the decoder with the input's first eight bytes, highest first |
| RangeLaws.EncodeStepWrittenOut | crates/det-coder/src/range.rs:58-82 | a symbol narrows by quotient and product, and then its intervals give up their top byte one after another, the part beyond a multiple of 2^48 first if the ends differ there, until they differ and 2^48 is left; in plain numbers |
| RangeLaws.FirstBytesInSlot | crates/det-coder/src/range.rs:31-82 | whatever follows, the first eight bytes of an encoding are a number in `[q * cum, q * (cum + freq))` with `q = (2^64 - 1) / total` |
| RangeLaws.NextBytesInSlot | crates/det-coder/src/range.rs:58-82 | the same of what is still written at every later symbol |
| RangeLaws.ValueFound | crates/det-coder/src/range.rs:110-127 | the value decoded is the one whose unit the code lies in, and there is an error exactly if there is none |
| RangeLaws.AdvanceWrittenOut | crates/det-coder/src/range.rs:129-149 | advancing takes in one byte for each that leaves, through the same intervals, and runs out exactly if the input ends before they are wide again |
| Distributions.SlotIsValid | crates/det-coder/src/range.rs:161-167 | every symbol of a distribution of positive frequencies below the total limit has a slot the coder accepts |
| Distributions.SymbolUnique | crates/det-coder/src/cdf.rs:369-384 | slots partition the total: a value inside the slot of a symbol belongs to that symbol only |
| Distributions.TableLookup | crates/det-coder/src/cdf.rs:378-384 | on a well-formed table the partition point finds the symbol whose slot contains the value, and nothing beyond the total |
| Distributions.CdfScratch.LogitsToCdf | crates/det-coder/src/cdf.rs:52-94 | entry i of the table is the weight of logit i and one more, each sum is the one before and its entry, whatever the scratch held; or the error that comes first |
| Distributions.CdfScratch.AppendUniformTail | crates/det-coder/src/cdf.rs:255-279 | appends equal frequencies and keeps the table consistent, or refuses and changes nothing; each refusal has its own condition |
| Distributions.CdfScratch.LogitsToCdfWithByteEscapes | crates/det-coder/src/cdf.rs:96-106 | the same table with 256 entries of one behind it |
| Distributions.CdfScratch.LogitsToDecoderDistribution | crates/det-coder/src/cdf.rs:201-245 | frequencies weight by weight, one more each, a counted tail, and the total of all; or the error that comes first |
| Distributions.LogitsToSymbolRange | crates/det-coder/src/cdf.rs:138-199 | the share of the symbol: what the weights before it, one more each, add up to, its own, and all of it; or the error that comes first |
| Distributions.FindSymbol | crates/det-coder/src/cdf.rs:392-425 | the linear scan with its counted tail returns the same symbol and slot as the table does |
| Distributions.UniformCdf | crates/det-coder/src/cdf.rs:302-320 | symbol i has frequency 1 and sum i, or the error for none or too many symbols |
| Distributions.UniformSymbolRange | crates/det-coder/src/cdf.rs:322-341 | the slot the uniform table has for the symbol, without the table |
| Distributions.ValidateCdf | crates/det-coder/src/cdf.rs:344-367 | the running check accepts exactly the well-formed tables |
| TokenStream.EncodeTokenStream | crates/det-coder/src/stream.rs:12-28 | the loop returns the emission of the tokens' slots, or the first error |
| TokenStream.DecodeTokenStream | crates/det-coder/src/stream.rs:30-48 | the loop decodes token by token and then insists on the canonical bytes |
| TokenStream.DecodeIffEncode | crates/det-coder/src/stream.rs:12-48 | decoding yields a token list exactly when that list encodes to those bytes |
| TokenStream.CutOrExtended | crates/det-coder/src/stream.rs:30-48 | every strict prefix of an encoding ends in end-of-input and every proper extension is not canonical |
| TokenStream.EncodingInjective | crates/det-coder/src/stream.rs:12-28 | different token lists never share an encoding |
| StreamLaws.WellFormedIff | crates/det-coder/src/cdf.rs:344-368 | well-formed are exactly the tables of 1 to 2^18 positive frequencies whose sums are the sum before and the frequency, up to a total below 2^31 |
| StreamLaws.StreamIff | crates/det-coder/src/stream.rs:12-29 | a stream is encoded to exactly the bytes of its tokens' own table entries, in order, from the whole interval on |
| StreamLaws.FirstMisfit | crates/det-coder/src/stream.rs:12-29 | the first token without a proper table or outside it decides the error |
| Bpe.TokenizeByRankScan | crates/det-token/src/lib.rs:1577-1606 | the reference loop: its result is reached by merges, each of the first pair of lowest rank in the table, until no adjacent pair is in it |
| Bpe.MergeByHeap | crates/det-token/src/lib.rs:409-476 | the heap and the linked list reach the same list by the same merges, each of the first pair of lowest rank in the table, until no adjacent pair is in it, within 3(n - 1) pops, stale entries included |
| Bpe.MergesToOne | crates/det-token/src/lib.rs:1577-1606 | there is only one list that such merges reach |
| Bpe.PopLeast | crates/det-token/src/lib.rs:439 | a heap pop removes an entry that is least by rank and then by position |
| Bpe.MergedIsScanned | crates/det-token/src/lib.rs:439-465 | an entry that still describes a pair, when it is least, describes the pair the rank scan merges first |
| Bpe.StaleIsNotNeeded | crates/det-token/src/lib.rs:439-451 | dropping an entry whose pair has changed loses no pair that can merge |
| Bpe.CoveredAfterMerge | crates/det-token/src/lib.rs:461-464 | re-pushing the two neighbouring pairs keeps every current pair in the heap |
| Bpe.LinkedAfterMerge | crates/det-token/src/lib.rs:453-459 | unlinking the right node of a merge leaves a well-linked list without it |
| Vocabularies.FallbackFromTokens | crates/det-token/src/lib.rs:258-304 | succeeds exactly when every byte is spelled by one entry; the tables hold exactly those entries, and the mask only limits what is emitted; the error names the first repeated byte or all missing ones |
| Vocabularies.BpeFromTokens | crates/det-token/src/lib.rs:343-407 | succeeds exactly for distinct emittable entries and acceptable merges; a merged token's bytes are those of its parts; the error names the first entry or merge in the way |
| Vocabularies.RanksFromMerges | crates/det-token/src/lib.rs:369-400 | ranks are positions of usable merges; with a mask, merges of missing pieces are skipped, otherwise they are errors |
| Vocabularies.SentencePieceFromTokens | crates/det-token/src/lib.rs:520-566 | succeeds exactly for matching finite scores and complete bytes; of duplicate pieces the one of highest score and then lowest id is kept |
| VocabularyLaws.FallbackTables | crates/det-token/src/lib.rs:258-304 | a byte has exactly the unmasked entry that spells it, and an entry exactly the byte it spells |
| VocabularyLaws.PairTables | crates/det-token/src/lib.rs:352-378 | every entry has its bytes, and a byte the unmasked entry that is that byte |
| VocabularyLaws.MergeRuleIff | crates/det-token/src/lib.rs:772-787 | a merge rule is two non-empty words around the only space |
| VocabularyLaws.PairRanks | crates/det-token/src/lib.rs:380-401 | a pair has rank k and merges to an entry exactly if rule k names them and that entry's bytes are theirs joined, none of the three masked |
| VocabularyLaws.MunchTables | crates/det-token/src/lib.rs:520-566 | the token of a piece is the first among its unmasked entries of the highest score |
| PieceLaws.AlphabetIsBytes | crates/det-token/src/lib.rs:821-839 | the byte-level alphabet is a bijection onto the 256 bytes; a printable byte is its own character and the others follow from 256 on |
| PieceLaws.SpelledPieces | crates/det-token/src/lib.rs:797-819 | an entry spelled in that alphabet is those bytes |
| PieceLaws.Utf8Bits | crates/det-token/src/lib.rs:797-811 | the bytes of a character carry its bits behind the marks of UTF-8, no more bytes than needed |
| PieceLaws.Utf8Decides | crates/det-token/src/lib.rs:797-811 | different texts have different bytes |
| PieceLaws.ByteTokens | crates/det-token/src/lib.rs:841-847 | `<0xHH>` is the byte with these digits |
| PieceLaws.ByteTokenShape | crates/det-token/src/lib.rs:841-847 | no entry of another shape is a byte token |
| PieceLaws.MarkedPieces | crates/det-token/src/lib.rs:804-809 | the word-start mark is byte 32, and the text follows |
| PieceLaws.TextPieces | crates/det-token/src/lib.rs:797-811 | an entry with a character outside the alphabet, and no mark in front, is its text |
| Tokenizers.CapHidesNothing | crates/det-token/src/lib.rs:572-592 | no piece is longer than the cap, so the cap never hides a longer match |
| Tokenizers.ScanPieces | crates/det-token/src/lib.rs:572-592 | the scan finds the longest vocabulary piece at the position, or none |
| Tokenizers.MunchTokens | crates/det-token/src/lib.rs:568-604 | tokenization is maximal munch with byte fallback, stated without the cap |
| Tokenizers.TokenizeBytes | crates/det-token/src/lib.rs:134-140 | the three tokenizers agree with their specifications |
| Tokenizers.CodecSymbolStream | crates/det-token/src/lib.rs:161-180 | runs of covered bytes are tokenized together and every other byte is escaped |
| TokenizerLaws.PairsIff | crates/det-token/src/lib.rs:409-476 | byte-pair tokenization gives a list exactly if every byte has a token and these merge to it |
| TokenizerLaws.MissingByte | crates/det-token/src/lib.rs:409-415 | the first byte without a token is the error |
| TokenizerLaws.MunchIff | crates/det-token/src/lib.rs:568-604 | SentencePiece gives a list exactly if the input can be cut so that every part is the longest piece there is at its place, or, where there is none, one byte with its token |
| TokenizerLaws.SymbolsIff | crates/det-token/src/lib.rs:150-180 | the codec symbols of an input are, part by part, `vocab + b` for a byte without a token and the tokens of each longest run of bytes with tokens |
| TokenizerLaws.SymbolBytes | crates/det-token/src/lib.rs:182-196 | a symbol stands for its token's bytes below the vocabulary's length, for one byte in the 256 behind it, and for nothing else |
| TokenizerTheorems.FallbackIsSound | crates/det-token/src/lib.rs:258-304 | a byte fallback built from a vocabulary emits tokens below its size that stand for the byte |
| TokenizerTheorems.BpeIsSound | crates/det-token/src/lib.rs:343-407 | every rank of a built tokenizer joins two tokens into one whose bytes are theirs joined |
| TokenizerTheorems.SentencePieceIsSound | crates/det-token/src/lib.rs:520-566 | every piece of a built tokenizer belongs to an emittable token with those bytes, not longer than the cap |
| CodecTheorems.BuiltIsSound | crates/det-token/src/lib.rs:258-566 | whatever one of the three constructors builds meets what the codec relies on |
| TokenizerTheorems.RankScanSpells | crates/det-token/src/lib.rs:409-488 | merging by ranks never changes the bytes the tokens stand for |
| TokenizerTheorems.CoveredRunSpells | crates/det-token/src/lib.rs:150-180 | tokenizing never fails inside a covered run and conserves its bytes |
| TokenizerTheorems.EveryByteStringIsEncodable | crates/det-token/src/lib.rs:150-196 | every byte string has codec symbols, all below vocabulary plus 256, that decode one by one, each to at least one byte, to that string |
| KvCaches.SlotsDistinct | crates/det-model/src/lib.rs:867-881 | different layer, head and position never share a cache slot |
| KvCaches.StoredSlot | crates/det-model/src/lib.rs:883-913 | storing a row writes the slots of its layer and position, head by head, and no other |
| KvCaches.StoreHolds | crates/det-model/src/lib.rs:883-913 | storing the next position extends what the cache holds for its layer and keeps the other layers, whatever lies beyond |
| KvCaches.PrefixIsWindow | crates/det-model/src/lib.rs:927-959 | the contiguous prefix attention reads is the head's part of the stored rows, in order |
| KvCaches.KvCache.constructor | crates/det-model/src/lib.rs:850-865 | a new cache is all zeros and holds no row of any layer |
| KvCaches.KvCache.Store | crates/det-model/src/lib.rs:883-913 | a wrong length, a non-finite element or a place outside the cache is refused before anything is written |
| Workspaces.RowsInto | crates/det-model/src/lib.rs:244-288 | the row loop returns all rows or the first row's error, rejects a value that is not finite, and refuses a buffer of another length untouched |
| Workspaces.Fill | crates/det-model/src/lib.rs:276-288 | overwriting a buffer element by element gives the kernel's vector, or its first error, whatever the buffer held |
| Workspaces.ProjectSharedInto | crates/det-model/src/lib.rs:550-606 | a product reads the shared Q8A activations only if its matrix needs them, replaces the Q8K scratch before reading it, and refuses a buffer of another length untouched |
| InPlaceKernels.RotateHead | crates/det-model/src/lib.rs:2028-2049 | rotating a head pair by pair in place gives every element from the head as it was before, in both pairings, or an error exactly if one is not finite |
| InPlaceKernels.ApplyRope | crates/det-model/src/lib.rs:2011-2051 | rotating head by head in place gives the rotation of the whole vector, with each refusal of the source |
| InPlaceKernels.MaxIsGreatest | crates/det-model/src/lib.rs:2365-2373 | the running maximum from minus infinity is an element that no other exceeds |
| InPlaceKernels.SoftmaxInPlace | crates/det-model/src/lib.rs:2361-2388 | the three passes over one buffer give the quotients of the exponentials of the original inputs, or the first error |
| InPlaceKernels.WeightedValue | crates/det-model/src/lib.rs:2390-2418 | zeroing and then adding position by position gives the weighted sums, whatever the output held, and an error exactly if a partial sum is not finite |
| Workspaces.LlamaTables | crates/det-model/src/lib.rs:813-846 | a position's angles do not depend on how many positions the tables have; fails exactly for no positions or a non-finite angle |
| Workspaces.ForwardWorkspace.New | crates/det-model/src/lib.rs:963-997 | succeeds exactly for a valid configuration, a vocabulary and a context size the model has; the buffers then have the sizes every step needs |
| Workspaces.ForwardWorkspace.ComputeInputs | crates/det-model/src/lib.rs:1275-1330 | query, key and value of a position depend on the residual stream alone, not on the scratch |
| Workspaces.ForwardWorkspace.AttendOne | crates/det-model/src/lib.rs:2300-2333 | one head's output from the cache prefix; scores and probabilities of earlier tokens have no effect |
| Workspaces.ForwardWorkspace.AttendAll | crates/det-model/src/lib.rs:2235-2261 | all heads together give the attention over the rows the cache holds |
| Workspaces.ForwardWorkspace.FeedForward | crates/det-model/src/lib.rs:1348-1383 | the feed-forward half as a function of the residual stream |
| Workspaces.ForwardWorkspace.RunLayer | crates/det-model/src/lib.rs:1274-1384 | one layer adds its row to the cache and updates the residual stream: there are a norm, three projections with bias, two rotations, attention, its projection and sum, a second norm, gate, up, their product, down and a second sum, each element by element what the kernels give, or it fails and there are none |
| Workspaces.ForwardWorkspace.ForwardOne | crates/det-model/src/lib.rs:1249-1400 | the logits and the rows are those of such vectors for the embedding, every layer in turn and the output, whatever workspace, logits buffer, cache beyond the position and table size there were; it fails exactly if there are none, and refuses what does not fit |
| KernelLaws.NormIff | crates/det-model/src/lib.rs:2053-2073 | the norm succeeds with exactly the input scaled by one number and, element by element, by the weight, all finite |
| KernelLaws.ProjectIff | crates/det-model/src/lib.rs:276-288 | a product succeeds with exactly the rows' values over the input, quantised as the matrix needs it, all finite |
| KernelLaws.BiasedIff | crates/det-model/src/lib.rs:1982-1998 | with activations shared by several matrices, and the bias added if there is one |
| KernelLaws.RopeIff | crates/det-model/src/lib.rs:2011-2051 | rotation succeeds with exactly the pairs of every head turned by their angles, in both pairings, the rest as it was |
| KernelLaws.SoftmaxIff | crates/det-model/src/lib.rs:2361-2388 | softmax succeeds with exactly the exponentials of the distances from the first of the greatest elements, divided by their sum |
| KernelLaws.AttendHeadIff | crates/det-model/src/lib.rs:2300-2333 | a head succeeds with exactly the weighted sum of the values by the softmax of its scores with the keys, or the one value there is |
| KernelLaws.AttentionIff | crates/det-model/src/lib.rs:2235-2333 | every query head attends, over all rows, to the key and value head h / (heads / kv heads) |
| KernelLaws.SwigluIff | crates/det-model/src/lib.rs:2420-2434 | the gated activation, element by element |
| ForwardLaws.LayerToTrace | crates/det-model/src/lib.rs:1274-1384 | a layer that succeeds leaves a full list of such vectors, the last of them its output |
| ForwardLaws.TraceToLayer | crates/det-model/src/lib.rs:1274-1384 | and where there is such a list the layer succeeds |
| ForwardLaws.LogitsIff | crates/det-model/src/lib.rs:1228-1400 | a list of tokens has some logits exactly if there is a pass for each token, over the rows of those before it, the last with these logits |
| FloatLaws.FiniteIff | crates/det-model/src/lib.rs:2366-2369 | finite are the patterns below the largest exponent |
| FloatLaws.GreaterIff | crates/det-model/src/lib.rs:2365-2373 | the order of patterns is that of the numbers they stand for in IEEE 754, the two zeros equal |
| FreshReplays.ForwardFresh | crates/det-model/src/lib.rs:1228-1242 | a workspace made for one position gives the same result as a reused one |
| FreshReplays.LogitsFresh | crates/det-cli/src/main.rs:793-803 | replaying a context in fresh workspaces from an empty cache gives `LogitsOf` |
| FreshReplays.CdfForContext | crates/det-cli/src/main.rs:781-808 | the slow reference builds, entry by entry, the share every symbol has under the logits of the context, or returns the error that comes first |
| FreshReplays.ReferenceIsWindow | crates/det-cli/src/main.rs:781-808 | for every context in the window of a codec that has started up, the slow reference is the distribution under which the codec codes the next symbol |
| Windows.SyncedStart | crates/det-cli/src/main.rs:772-778 | after a step the window has room for one more token |
| Windows.SyncIsIdempotent | crates/det-cli/src/main.rs:680-689 | a second step at the same position, as after an escape, changes nothing |
| Windows.WindowStartForEncodedPrefix | xtask/src/main.rs:4671-4677 | the loop gives the start after one step at each earlier position, not at the current one |
| Windows.StartIsClosedForm | crates/det-cli/src/main.rs:772-778 | stepwise start equals the closed form: 0 below n_ctx, then whole strides of n_ctx - overlap |
| Windows.StepsInClosedForm | crates/det-cli/src/main.rs:753-778 | forward steps, replays included, are n and the overlap for each stride begun from n_ctx on |
| Windows.StartCountsRollovers | crates/det-cli/src/main.rs:680-701 | the start is the number of rollovers times the stride |
| Windows.AtMostAThirdMore | crates/det-cli/src/main.rs:443-445 | with overlap n_ctx / 4, forward steps are at most 4/3 of the tokens |
| WindowedStates.WindowedModelState.New | crates/det-cli/src/main.rs:647-678 | fails exactly when the angles are not finite or the alphabet is empty or too large; otherwise an empty window |
| WindowedStates.WindowedModelState.Advance | crates/det-cli/src/main.rs:753-769 | one more token in the window gives the logits of the longer replay; a full window is refused |
| WindowedStates.WindowedModelState.Replay | crates/det-cli/src/main.rs:691-701 | a new cache and the tokens in turn: the state of the replay, its first error, or the overrun if there are more tokens than the window has room for |
| WindowedStates.WindowedModelState.Sync | crates/det-cli/src/main.rs:680-689 | afterwards cache and logits are those of replaying `tokens[window_start..pos]` into a new cache, and the context is shorter than n_ctx, so the overrun error cannot come |
| WindowedStates.WindowedModelState.SymbolRange | crates/det-cli/src/main.rs:703-722 | before any token the share of one of equal symbols; otherwise that of the weights, one more each, of the window's logits, and one for each escape; or the error that comes first |
| WindowedStates.WindowedModelState.DecodeSymbolFrom | crates/det-cli/src/main.rs:724-751 | the symbol in whose share, as above, the decoder's value lies, and the decoder moved on by it; or why there is none |
| Codec.FrequenciesIn | crates/det-cli/src/main.rs:724-751 | every distribution has one positive frequency for each symbol of the alphabet and a total below the coder's limit |
| Codec.SlotInDistribution | crates/det-cli/src/main.rs:703-751 | the encoder's slot exists exactly when the decoder's distribution does and has the symbol, and is its slot there |
| Codec.SlotWrittenOut | crates/det-cli/src/main.rs:703-722 | the encoder's slot is the symbol's share under the window's logits, weight by weight |
| Codec.DecodeWrittenOut | crates/det-cli/src/main.rs:724-751 | the decoder finds the symbol in whose share its value lies |
| CodecLaws.SlotIff | crates/det-cli/src/main.rs:703-722 | a symbol has exactly one share, or an error |
| CodecLaws.StartUpIff | crates/det-cli/src/main.rs:647-678 | a codec starts exactly if every angle of the window is finite and the alphabet has at most 2^18 symbols |
| CodecLaws.EncodedIff | crates/det-cli/src/main.rs:523-552 | a payload is exactly what the range coder writes of the symbols' shares, each under the logits of what whole strides leave of the tokens before it |
| CodecLoops.EncodeSymbolsWithModel | crates/det-cli/src/main.rs:523-552 | the loop returns the emission of the slots under replayed windows, or the first error; it takes N + overlap * rollovers forward steps |
| CodecLoops.EncodeNext | crates/det-cli/src/main.rs:535-549 | one turn: window, slot, coder and context move together |
| CodecLoops.DecodeBytesWithModel | crates/det-cli/src/main.rs:585-630 | the loop that counts bytes returns what decoding under replayed windows gives, and takes the forward steps of encoding what it decodes |
| CodecLoops.DecodeTurn | crates/det-cli/src/main.rs:604-628 | one turn adds a symbol and at least one byte, and leaves the rest to be decoded from the new context |
| CodecLoops.CompressFile | crates/det-cli/src/main.rs:433-447 | tokenizing and encoding as the command does |
| CodecLoops.DecompressFile | crates/det-cli/src/main.rs:485-510 | decoding, the canonical re-encoding check, and the cut to the original length |
| CodecTheorems.SymbolsFollow | crates/det-cli/src/main.rs:604-628 | from any point on, decoding follows the encoder's symbols, or ends in end-of-input if the payload is cut |
| CodecTheorems.PayloadFollows | crates/det-cli/src/main.rs:485-508 | a payload decodes to the encoder's symbols, a cut one ends in end-of-input, an extended one is not canonical |
| CodecTheorems.DecodeIffEncoded | crates/det-cli/src/main.rs:485-508 | decompression accepts a payload, with this outcome, exactly when encoding the outcome's symbols makes it and the last of them is needed to reach the length |
| CodecTheorems.CompressedIffDecodedAs | crates/det-cli/src/main.rs:433-511 | a payload is the one the compressor makes of an input exactly when it decodes to that input by the compressor's own symbols |
| CodecTheorems.EscapedTokenIsAccepted | crates/det-cli/src/main.rs:485-508 | the decompressor accepts more than the compressor makes: a byte with a token of its own, escaped |
| CodecTheorems.CompressionIsLossless | crates/det-cli/src/main.rs:433-511 | if compression succeeds, decompression restores the input, with the encoder's own symbols; every cut or extended payload is refused |
| CodecTheorems.CompressionIsInjective | crates/det-cli/src/main.rs:433-463 | inputs of equal length never share a payload |
| CodecTheorems.BuiltTokenizersAreLossless | crates/det-cli/src/main.rs:932-979 | for every tokenizer a constructor built from a vocabulary of the model's size, every byte string has symbols and whatever compresses is restored |
| Fixtures.FixtureIsUsable | crates/det-cli/src/main.rs:390-424 | the self-test fixture has a valid layout and every window up to its context length is usable, whatever its kernels compute |
| Fixtures.FixtureEncodesEscape | crates/det-cli/src/main.rs:390-424 | with finite angles the fixture's codec starts up and codes an escape as its first symbol |
| Fixtures.FixtureAcceptsEscapedToken | crates/det-cli/src/main.rs:485-508 | with the fixture and a tokenizer that knows one byte, that byte escaped decompresses, and no input of its length compresses to the same payload |
| Checkpoints.ParsedIffEncoded | xtask/src/main.rs:2427-2517 | a file parses to a checkpoint exactly when writing that checkpoint gives the file |
| Checkpoints.EncodeCheckpointBytes | xtask/src/main.rs:2499-2517 | magic, digests, nine words and the payload, or the error for a number that does not fit |
| Checkpoints.ParseCheckpoint | xtask/src/main.rs:2427-2474 | the cursor-based parser, with an error of its own for bad magic, truncation, overflow, missing payload and trailing bytes |
| Checkpoints.ValidateCheckpoint | xtask/src/main.rs:2367-2413 | accepts exactly the checkpoints of the same model, input, window, length and symbol count that claim no more symbols than there are |
| FormatLaws.CheckpointBytes | xtask/src/main.rs:2499-2517 | which bytes of the file hold the magic, the digests, each of the nine numbers, lowest byte first, and the payload; refused is exactly a number of more than eight bytes |
| FormatLaws.RefusedFiles | xtask/src/main.rs:2427-2474 | which files are refused, and why, by their first bytes, their length and the number at byte 136 |
| FormatLaws.ForeignCheckpoints | xtask/src/main.rs:2367-2413 | of the things in which a checkpoint differs, the first decides the error |
| CheckpointRuns.SlotsForParts | xtask/src/main.rs:4320-4338 | encoding a list is encoding a prefix and then, from the context it leaves, the rest |
| CheckpointRuns.EncodedIsResumable | xtask/src/main.rs:4320-4327 | a prefix that has been encoded leaves a window whose replay cannot fail |
| CheckpointRuns.ResumesWhereLeft | xtask/src/main.rs:4297-4327 | starting from a checkpoint of this job succeeds and goes on after exactly the symbols it says are done |
| CheckpointRuns.EncodeStaysOnTrack | xtask/src/main.rs:4329-4337 | a step from a resumed window, moved already or not, is the uninterrupted encoder's step; an error is its error |
| CheckpointRuns.SavedIsGenuine | xtask/src/main.rs:4338-4355 | a checkpoint written at any moment can be resumed, also just after an escape that moved the window |
| CheckpointRuns.EveryRunIsSafe | xtask/src/main.rs:4280-4358 | over every run of starts, steps, saves, crashes and reloads, a process that ends, ends with the result of the uninterrupted encoding, and one that is running can always go on |
| CheckpointRuns.GoesOnIff | xtask/src/main.rs:4311-4333 | a restored encoder, whatever the file says it was, gets through its next symbol exactly when its range is at least that symbol's total |
| CheckpointRuns.ContinuedFromBetween | xtask/src/main.rs:4297-4358 | stopping on the way and going on from what has been reached gives the same bytes, whatever snapshot came first |
| CheckpointRuns.OnTrackIsUninterrupted | xtask/src/main.rs:4297-4358 | going on from a snapshot of this job gives the bytes of encoding without interruption |
| CheckpointLoops.LoadCheckpoint | xtask/src/main.rs:4297-4318 | the encoder and position a file restores, or why it is refused; the encoder of a genuine file is one that can go on |
| CheckpointLoops.ResumeState | xtask/src/main.rs:4320-4327 | a new window state replayed from the start of the encoded prefix |
| CheckpointLoops.EncodeSymbolsWithModelCheckpoint | xtask/src/main.rs:4280-4358 | one session goes on from whatever the file restores to what its snapshot leads to; it writes a checkpoint of that after exactly the symbols whose number is a multiple of the interval, and after the last, up to where it comes; with no file or one of this job the result is the uninterrupted encoding's and the checkpoints are genuine |
| Sha256.PaddingIsLeast | crates/det-num/src/hash.rs:52-76 | the padding of section 5.1.1 of FIPS 180-4 has the fewest zeros that reach whole blocks |
| Sha256.Schedule | crates/det-num/src/hash.rs:78-90 | the expanded words are the message schedule of section 6.2.2 of FIPS 180-4 |
| Sha256.CompressBlock | crates/det-num/src/hash.rs:78-130 | 64 rounds on variables and the final addition are one step of section 6.2.2 of FIPS 180-4 |
| Sha256.HoldsMore | crates/det-num/src/hash.rs:27-50 | filling the block buffer and compressing it when full keeps the state of everything hashed so far |
| Sha256.Hasher.Update | crates/det-num/src/hash.rs:27-50 | any further bytes, in any amount, extend the hashed message |
| Sha256.Hasher.Finalize | crates/det-num/src/hash.rs:52-76 | the digest of everything hashed, also when the padding needs a second block |
| Sha256.HashChunks | crates/det-num/src/hash.rs:27-76 | hashing pieces one after another hashes their concatenation |
| Sha256Laws.FirstPrimes | crates/det-num/src/hash.rs:133-142 | the numbers the constants come from are the first 64 primes |
| Sha256Laws.RoundConstants | crates/det-num/src/hash.rs:133-142 | round constant t is the first 32 bits of the fraction of the cube root of the t-th prime |
| Sha256Laws.InitialValue | crates/det-num/src/hash.rs:17-21 | the initial value is the first 32 bits of the fractions of the square roots of the first eight |
| WordBits.ChooseBit | crates/det-num/src/hash.rs:103 | each bit is taken from the second or the third word as the first says |
| WordBits.MajorityBit | crates/det-num/src/hash.rs:110 | each bit is that of two of the three |
| WordBits.BigSigma0Bit | crates/det-num/src/hash.rs:109 | each bit is the exclusive or of those 2, 13 and 22 places on, in a circle |
| WordBits.BigSigma1Bit | crates/det-num/src/hash.rs:102 | of those 6, 11 and 25 places on |
| WordBits.SmallSigma0Bit | crates/det-num/src/hash.rs:84 | of those 7 and 18 places on in a circle, and 3 on as far as there are |
| WordBits.SmallSigma1Bit | crates/det-num/src/hash.rs:85 | of those 17 and 19 places on in a circle, and 10 on as far as there are |
| Sha256Laws.FunctionsOnNumbers | crates/det-num/src/hash.rs:84-110 | the functions used on numbers are these on words |
| Sha256Laws.ScheduledWords | crates/det-num/src/hash.rs:78-90 | the first 16 words are the block's, highest byte first, and the others sums of four earlier ones modulo 2^32 |
| Sha256Laws.OneRound | crates/det-num/src/hash.rs:101-121 | a round moves every variable on and puts in the two sums modulo 2^32 |
| Sha256Laws.OneBlock | crates/det-num/src/hash.rs:92-130 | a block is 64 such rounds, each with its constant and word, and the sums with the value before |
| Sha256Laws.BlockAfterBlock | crates/det-num/src/hash.rs:27-50 | a padded message is its blocks in turn, from the initial value on |
| Sha256Laws.HashOfMessage | crates/det-num/src/hash.rs:52-76 | a hash is the digest of the message with its padding behind it |
| Sha256Laws.PaddingBytes | crates/det-num/src/hash.rs:52-70 | byte 0x80, zeros, and the length in bits in eight bytes, highest first, at the end of a block |
| Sha256Laws.DigestBytes | crates/det-num/src/hash.rs:71-75 | the digest is the eight words in order, highest byte first |
| Ggufs.ValueReads | crates/det-gguf/src/lib.rs:374-491 | a written metadata value, scalar or array, is read back, and what follows is left |
| Ggufs.ValueWas | crates/det-gguf/src/lib.rs:374-491 | an accepted metadata value is well-typed and its bytes are what writing it gives |
| Ggufs.ItemsTakeBytes | crates/det-gguf/src/lib.rs:521-529 | the count check refuses no array that is there |
| Ggufs.TensorReads | crates/det-gguf/src/lib.rs:187-208 | a written tensor entry is read back |
| Ggufs.TensorWas | crates/det-gguf/src/lib.rs:187-208 | an accepted tensor entry's bytes are what writing it gives |
| GgufFiles.ParsedIffWritten | crates/det-gguf/src/lib.rs:164-208 | parsing a header is the exact inverse of writing it, for distinct keys and names |
| GgufFiles.NeighboursSuffice | crates/det-gguf/src/lib.rs:252-258 | in sorted order it is enough to compare neighbours |
| GgufFiles.LayoutCheckIsDisjointness | crates/det-gguf/src/lib.rs:230-259 | the sorted-neighbour check accepts exactly the ranges that are pairwise disjoint |
| GgufFiles.AcceptedTensorsHaveTheirBytes | crates/det-gguf/src/lib.rs:164-337 | in an accepted file names are distinct and every tensor has its own bytes, inside the file and shared with no other |
| GgufFiles.FindsTensor | crates/det-gguf/src/lib.rs:305-312 | with distinct names a lookup by name finds exactly that tensor |
| GgufFiles.WrittenFileIsRecovered | xtask/src/main.rs:4939-4984 | parsing a written file recovers every name, shape, type and exact data slice |
| GgufFiles.RowsOfBlocks | xtask/src/main.rs:4993-5079 | whole blocks in rows are as many bytes as the parser's length calculation expects |
| GgufLoops.Reader.ReadExact | crates/det-gguf/src/lib.rs:511-519 | the next bytes, or truncation with the position unchanged |
| GgufLoops.Reader.ReadValue | crates/det-gguf/src/lib.rs:374-491 | the reader moves exactly as the grammar says |
| GgufLoops.Reader.ReadEntries | crates/det-gguf/src/lib.rs:176-183 | the metadata map of distinct keys, or the first error |
| GgufLoops.Reader.ReadTensors | crates/det-gguf/src/lib.rs:185-208 | the tensor entries with distinct names, or the first error |
| GgufLoops.CountElements | crates/det-gguf/src/lib.rs:341-353 | the loop with its early exits succeeds exactly when the product of the dimensions is positive and fits 64 bits |
| GgufLoops.ValidateTensorDataLayout | crates/det-gguf/src/lib.rs:230-259 | the first range error, or overlap, or success |
| GgufLoops.ParseInner | crates/det-gguf/src/lib.rs:164-228 | the parser equals the file function, with and without the tensor data |
| GgufLoops.PushMatrix | xtask/src/main.rs:4993-5079 | a pushed matrix gets the offset the data has reached, and as many bytes as the parser expects if it is not empty and its rows are whole blocks |
| GgufLoops.PushVector | xtask/src/main.rs:5014-5031 | a pushed vector of floats gets the offset the data has reached and four bytes for each element |
| GgufLoops.WriteGguf | xtask/src/main.rs:4939-4984 | the written bytes are header, zeros up to alignment, and data |
| GgufLoops.WriteModel | xtask/src/main.rs:4939-5079 | pushing tensors one after another and writing the file gives the file of exactly those tensors |
| GgufLoops.WrittenModelIsRecovered | xtask/src/main.rs:4939-5079 | whatever tensors the writers are asked for under names of their own, parsing the written file recovers every name, shape, type and data |
| GgufLaws.AcceptedHeader | crates/det-gguf/src/lib.rs:164-207 | in every accepted file the letters, the version, the counts, each key, type, value, name, dimension, type code and offset stand at their bytes, lowest first |
| GgufLaws.AcceptedFile | crates/det-gguf/src/lib.rs:164-225 | what the parser returns is that header, its metadata and tensors, with the data from the first multiple of 32 on |
| GgufLaws.MetadataOf | crates/det-gguf/src/lib.rs:176-183 | a key stands for its entry's value |
| GgufLaws.TensorSlice | crates/det-gguf/src/lib.rs:314-337 | a tensor's data are the bytes at its offset behind the beginning of the data, as many as it takes |
| GgufLaws.BlockSizes | crates/det-gguf/src/lib.rs:117-145 | a block's size is that of its values' bits, its part scales and its scales, type by type |
| GgufLaws.TensorBytes | crates/det-gguf/src/lib.rs:341-372 | a tensor takes whole blocks, as many as its elements fill |
| GgufLaws.ProductJoins | crates/det-gguf/src/lib.rs:341-353 | the number of elements of joined shapes is the product of theirs |
| GgufLaws.DataBegins | crates/det-gguf/src/lib.rs:209-212 | the data begin at the least multiple of 32 not inside the header |
| Gemv.RowsArePartitioned | crates/det-model/src/lib.rs:306-312 | chunks of ceil(rows / threads) cover each row exactly once and none is empty |
| Gemv.RunIsConsistent | crates/det-model/src/lib.rs:307-320 | after any interleaving of row writes every row a task has done holds its own value, and a failed task has met a row that fails |
| Gemv.ParallelIsSequential | crates/det-model/src/lib.rs:291-321 | for every thread count and interleaving the tasks succeed exactly when the sequential loop does, with the same output |
| Gemv.ChunksAreCeilings | crates/det-model/src/lib.rs:300-305 | a chunk is the rows divided by the threads, rounded up |
| Q6K.ScaleOfSixteen | crates/det-quant/src/lib.rs:555-568 | the scale of value i is scale i / 16 |
| Q6K.PackedQuant | crates/det-quant/src/lib.rs:536-553 | unpacking a packed block gives every 6-bit value back at its place |
| Q6K.QuantPacked | crates/det-quant/src/lib.rs:536-553 | packing the unpacked values gives the block back: every bit belongs to one value |
| Q6K.QuantWrittenOut | crates/det-quant/src/lib.rs:536-553 | a value by its half, quarter and place: four bits of one byte and two of another, less 32 |
| Q6K.TermWrittenOut | crates/det-quant/src/lib.rs:365-378 | a term is value times activation times the scale of its sixteen |
| Q6K.LanesMakeTheDot | crates/det-quant/src/lib.rs:365-378 | the eight lanes together are the sum of scale times activation times value over the block |
| Q6K.LaneSums | crates/det-quant/src/lib.rs:363-378 | the accumulator loops never leave 32 bits, give the lane sums, and stay within 2^24 |
| Q6K.LaneIsExact | crates/det-quant/src/lib.rs:383-388 | every lane converts to a 32-bit float without rounding |

## Left out

- Floating-point arithmetic: the scalar operations of rotation, softmax and attention, the reductions `sum` and `dot`, norms, `exp` and `sin`/`cos` and f16 are unknown functions of their inputs; their determinism is assumed.
- The weights of a distribution: `(p * M) as u32` is an arbitrary function of the logits and the index, bounded so that frequencies fit 32 bits.
- Workspaces.ForwardWorkspace.ForwardOne: the exact error is that of sequential rows and heads, as in the default build; with the `parallel` feature the code may return the error of another row or head. The same holds of the exact errors of CodecLoops.EncodeSymbolsWithModel, CodecLoops.DecodeBytesWithModel and CheckpointRuns.EveryRunIsSafe, which pass a forward error on. Which runs succeed, and their results, do not change.
- SIMD variants, Rayon pools, the thread-count override and parallel attention; only row chunks in any interleaving are modelled.
- The GGUF loader of the model and tokenizer: configuration lookups, feature rejections, reading tensors into matrices. A loaded model is one with `ValidLayout`, a built tokenizer one with `Sound` and `Capped`.
- The DTLZ header (crates/det-coder/src/file.rs): window, overlap, escape flag and length are passed directly, and the check of the model hash against the header is not modelled.
- File I/O, atomic rename, command lines, progress, timing and summaries; the clock is an arbitrary function and a checkpoint file is its bytes.
- Buffers as memory: the coder's output, the cache, the workspace vectors and the GGUF data are sequence-valued fields and results, so aliasing of slices and update in place of single elements are not captured.
- `usize` overflow of the forward pass (`checked_len`, `checked_mul`): lengths are unbounded there.
- Bpe.PopLeast: the binary heap is a multiset with a pop of a least entry; how the heap is stored is not modelled.
- RangeCoder.RangeEncoder.Encode: with a valid triple wider than the range the code's loop does not end, so no result is stated there beyond that.
- CheckpointLoops.EncodeSymbolsWithModelCheckpoint: a session whose restored encoder cannot take its first symbol does not end in the code, so nothing is said of what it has written by then.
- Gemv.ParallelIsSequential: when several tasks fail, which of their errors is returned is left open, as it is in the code; pool construction errors are not modelled.
- GgufFiles.WrittenFileIsRecovered: UTF-8 validity is an arbitrary predicate on the names, and the metadata is any list of entries with distinct keys instead of the fixed twelve.
- Q6K.LaneSums: the floating-point part of the dot product (block scales, running sums, their error checks) is left out.
- `ByteFallbackTokenizer::new` from explicit pairs, byte-coverage reports, the error texts, and metadata-driven tokenizer selection.
- Logits hashing and comparison tools, llama.cpp and Transformers scripts, CI and dependency scanners.
