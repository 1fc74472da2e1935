# llm-samplers in Dafny

A model of the core of `llm-samplers`, a Rust library that turns a model's
per-token scores into one chosen token. The scores sit in a mutable
`Logits` buffer of `(token_id, logit, prob)` entries with a `sorted` and a
`softmax` flag. A `SamplerChain` runs the buffer through a list of
samplers; each sampler filters the buffer (top-k, top-p, min-p, top-a,
tail free, locally typical), rewrites logits (temperature, flat bias,
repetition, frequency/presence and sequence-repetition penalties) or
selects a token (greedy, Mirostat V1 and V2). A configuration layer sets
sampler options by abbreviated key from `key=value:key=value` text, and a
slot-based builder assembles a chain from named, configurable slots.

The model keeps the source's form:

- `Logits`, `SamplerChain`, the samplers with state (greedy, Mirostat) and
  `SamplerChainBuilder` are classes whose methods change their fields in
  place. Each method's `ensures` ties the new state to a specification
  function of the old state, and the properties the library promises are
  proved about those functions as lemmas.
- Samplers without state are datatypes whose `Sample` method rewrites the
  buffer in place; the loops of the source (running sums, counting,
  the repeated-sequence search, the configure loop) are `while` loops with
  invariants.
- Option parsing and lookup, which the source writes as pure matches over
  trimmed text, are functions.
- `exp`, `ln`, `log2` and `pow` are fields of a `Math` value given to the
  samplers that need them; the only fact assumed about them is that `exp`
  is positive. The random draw of Mirostat and the token history are
  fields of a `Resources` value: a missing history is `None`, and the draw
  is any function from the buffer to a token id, nothing or an error.
- Logits and probabilities are `real`s, and `usize`/`u64` are unbounded
  naturals checked against 64 bits where the source narrows.

Each pair of revisions in the source (`configure.rs` and `configure/`,
`build.rs` and `building.rs`, `freqpresence.rs` and `freq_presence.rs`,
`typical.rs` and `locally_typical.rs`) is modelled as two modules, the
older one named `...Old` (`TypicalOld` for `typical.rs`), except where the
later revision repeats the earlier code: the builder of `building.rs` is
`Build`'s, and `Building` adds only `ensure_present`.

Where the documentation and the code disagree, the model follows the code:

- `SampleTemperature::default` sets the temperature to 1
  (`src/samplers/temperature.rs:18-24`), not the documented 0.8.
- `SampleSeqRepetition::default` sets `min_length` to 4, not the
  documented 0.
- `max_merge` (`src/samplers/sequence_repetition.rs:32-35`) is documented
  as off at 0 or 1 and needed at 2 to let `1, 7, 8, 3` match `1, 2, 3`.
  The code opens a window of `max_merge + 1` tokens after each tolerated
  mismatch (`src/samplers/sequence_repetition.rs:195`), so 1 already
  merges and only 0 turns merging off (`SequenceRepetition.MergeExample`).

## Model

| member | source | states |
|---|---|---|
| Types.SortBySpec | src/types.rs:63-68 | the stable sort used by `ensure_sorted` returns a permutation of its input that is ordered by the key |
| Types.SortByStable | src/types.rs:63-68 | the sort is stable: entries with equal keys keep their relative order |
| Types.SortByOfSorted | src/types.rs:59-70 | sorting an already ordered sequence changes nothing, which makes `ensure_sorted` idempotent |
| Types.SortDesc | src/types.rs:63-68 | the descending sort by logit keeps the length and the multiset of entries and yields a non-increasing sequence |
| Types.ExpSum | src/types.rs:79-83 | the running sum of `exp(logit - max)` is positive once it covers at least one entry |
| Types.SoftmaxOf | src/types.rs:78-84 | softmax keeps every entry's token id and logit and gives each a positive probability |
| Types.SoftmaxByPasses | src/types.rs:79-84 | softmax equals the exponential pass followed by division of every probability by the pass's total |
| Types.SoftmaxSumsToOne | src/types.rs:78-84 | the probabilities written by softmax add up to one |
| Types.SoftmaxBuf | src/types.rs:73-86 | `softmax` keeps the length, sorts an unsorted buffer into non-increasing order and sets both flags on a non-empty buffer |
| Types.Truncated | src/samplers/top_k.rs:50 | `truncate(n)` keeps the first `min(n, len)` entries, as a prefix |
| Types.Logits.FromScores | src/types.rs:36-46 | construction gives entry `i` token id `i`, the `i`-th score and probability zero, with both flags clear |
| Types.Logits.SetSorted | src/types.rs:54-57 | `set_sorted` changes only the sorted flag |
| Types.Logits.SetSoftmax | src/samplers/min_p.rs:77 | `set_softmax` changes only the softmax flag |
| Types.Logits.EnsureSorted | src/types.rs:59-70 | with the flag set nothing changes; otherwise the entries become their stable descending sort; the flag ends set and the softmax flag is kept |
| Types.Logits.Softmax | src/types.rs:73-86 | the new buffer is `SoftmaxBuf` of the old one: no change when empty, otherwise sorted and then given probabilities |
| Types.Logits.ExpPass | src/types.rs:79-83 | the folding loop writes `exp(logit - max)` into every probability and returns their sum |
| Types.Logits.DividePass | src/types.rs:84 | the second loop divides every probability by the sum and changes nothing else |
| Types.Logits.EnsureSoftmax | src/samplers/min_p.rs:61 | `ensure_softmax` runs softmax unless the softmax flag is already set |
| Types.Logits.Truncate | src/samplers/top_k.rs:50 | `truncate` replaces the entries by their prefix of length `min(n, len)` and keeps both flags |
| Greedy.FirstMaxIndexIsFirstMax | src/samplers/greedy.rs:44-49 | the scan's choice has the largest logit, and every earlier entry has a strictly smaller one, so ties go to the first |
| Greedy.FirstMaxIndexUnique | src/samplers/greedy.rs:44-49 | conversely, the first maximal position is the scan's choice |
| Greedy.GreedyTokenIsMax | src/samplers/greedy.rs:41-50 | there is no token exactly when the buffer is empty; otherwise the token belongs to an entry that no entry beats |
| Greedy.GreedyExamples | src/tests.rs:167-170 | scores 0.1, 0.2, 0.3, 0.4 select token 3, and the reversed scores select token 0 |
| Greedy.SampleGreedy.constructor | src/samplers/greedy.rs:16-19 | a new greedy sampler has selected no token |
| Greedy.SampleGreedy.Sample | src/samplers/greedy.rs:40-51 | the loop leaves the buffer untouched and stores the first maximal entry's token, or none for an empty buffer |
| TopK.TopKKeepsHighest | src/samplers/top_k.rs:46-50 | top-k keeps `min(max(k, min_keep), len)` entries, a prefix of the sorted buffer drawn from the input, and no dropped entry scores above a kept one |
| TopK.SortDescOfIncreasing | src/samplers/top_k.rs:47-48 | sorting strictly increasing scores reverses them |
| TopK.TopKExamples | src/tests.rs:173-188 | on four increasing scores top-1 keeps the highest, and top-3 keeps the three highest in descending order |
| TopK.SampleTopK.Sample | src/samplers/top_k.rs:46-50 | the new buffer is the sorted buffer cut to the effective k, flagged sorted |
| TopP.CutFrom | src/samplers/top_p.rs:61-67 | the scan stops at the first prefix whose cumulative probability reaches `p` and holds at least `min_keep` entries, or at the end |
| TopP.TopPLenIsLeast | src/samplers/top_p.rs:56-70 | the kept length is the least `n >= 1` whose prefix reaches `p` with at least `min_keep` entries, and all entries when no prefix qualifies |
| TopP.TopPExamples | src/tests.rs:196-208 | on probabilities 0.4, 0.3, 0.2, 0.1, `p` 0 keeps one entry, 0.7 keeps two and 1.0 keeps all |
| TopP.SampleTopP.Sample | src/samplers/top_p.rs:53-72 | the accumulating loop truncates the softmaxed buffer at exactly the length `TopPLen` names |
| MinP.FirstBelow | src/samplers/min_p.rs:68-74 | the search returns the first position at or after the start whose probability is below the threshold, or the length |
| MinP.CutBelowKeepsPrefix | src/samplers/min_p.rs:63-78 | the cut keeps a prefix that holds the first `max(1, min_keep)` entries; every kept entry past them reaches the threshold; a cut clears the softmax flag; with no cut nothing changes |
| MinP.MinPNoop | src/samplers/min_p.rs:57-59 | with `p` zero or an empty buffer Min-P changes nothing |
| MinP.MinPCut | src/samplers/min_p.rs:63-78 | on a softmaxed buffer the cut uses the threshold `prob[0] * p`, and a buffer of at most `min_keep` entries is left alone |
| MinP.MinPExamples | src/tests.rs:212-238 | on the five softmaxed test probabilities `p` 2 keeps one entry, 0.2 keeps three and 0.0001 keeps all five |
| MinP.SampleMinP.Sample | src/samplers/min_p.rs:56-79 | the new buffer is `MinPBuf` of the old one: the guards, `ensure_softmax`, then the threshold cut |
| TopA.TopANoop | src/samplers/top_a.rs:63-65 | Top-A changes nothing on an empty buffer or when `a1` or `a2` is zero |
| TopA.TopACut | src/samplers/top_a.rs:69-84 | on a softmaxed buffer the cut uses the threshold `a1 * pow(prob[0], a2)` and keeps a prefix holding the first `max(1, min_keep)` entries; every later kept entry reaches the threshold; a cut clears the softmax flag; a buffer of at most `min_keep` entries is left alone |
| TopA.TopAKeys | src/samplers/top_a.rs:99-118 | the option keys are a1, a2 and min_keep, in that order |
| TopA.TopAResolve | src/samplers/top_a.rs:99-118 | "min" resolves to min_keep, while "a" starts two keys and is ambiguous |
| TopA.SampleTopA.Sample | src/samplers/top_a.rs:62-86 | the new buffer is `TopABuf` of the old one: the guards, `ensure_softmax`, then the threshold cut |
| TailFree.CutFrom | src/samplers/tail_free.rs:86-100 | the scan returns the first position at or after `idx` whose running sum exceeds `z` and which is at least `min_keep`, and the given length when there is none |
| TailFree.TailFreeNoop | src/samplers/tail_free.rs:53-55 | with `z >= 1` or fewer than two entries the buffer is left alone and there is no error |
| TailFree.TailFreeTwoEntries | src/samplers/tail_free.rs:57-76 | with exactly two entries the sampler fails with the internal "missing next deriv item" error, after it has applied the softmax |
| TailFree.TailFreeNoError | src/samplers/tail_free.rs:57-102 | with three entries or more there is no error and the result is the cut of the softmaxed buffer |
| TailFree.TailCutPrefix | src/samplers/tail_free.rs:86-101 | the cut keeps a prefix of the entries, and either all of them or a count between `min_keep` and `len - 3` |
| TailFree.NormalisedSumsToOne | src/samplers/tail_free.rs:84 | the normalised second differences sum to one |
| TailFree.TailFreeAlwaysCuts | src/samplers/tail_free.rs:84-101 | when the second differences are not all zero and `min_keep <= len - 3`, a `z` below one always cuts to between `min_keep` and `len - 3` entries |
| TailFree.TailFreeEvenlySpaced | src/samplers/tail_free.rs:59-101 | evenly spaced probabilities have all second differences zero, and every entry is kept |
| TailFree.SecondDiffsOf | src/samplers/tail_free.rs:59-83 | on two entries the scan reports the internal error; otherwise it yields the absolute second differences and their sum |
| TailFree.NormaliseInPlace | src/samplers/tail_free.rs:84 | every second difference is divided by their sum |
| TailFree.CutIndex | src/samplers/tail_free.rs:86-100 | the running-sum loop returns the index `CutFrom` defines |
| TailFree.SampleTailFree.Sample | src/samplers/tail_free.rs:44-103 | the new buffer and the error are those of `TailFreeStep` on the old buffer |
| LocallyTypical.CutFrom | src/samplers/locally_typical.rs:79-92 | the scan returns one past the first position whose running probability sum exceeds `p` and which is at least the adjusted `min_keep`, and the full length when there is none |
| LocallyTypical.TypicalLength | src/samplers/locally_typical.rs:55-97 | the kept count is the cut position of the ranking, with no earlier position crossing, and is at least `min(min_keep, len)` |
| LocallyTypical.RankedPairs | src/samplers/locally_typical.rs:58-75 | every ranked pair is an input entry together with its score `abs(-ln(prob) - entropy)` |
| LocallyTypical.TypicalKept | src/samplers/locally_typical.rs:62-97 | every kept entry is an unchanged input entry, and the kept entries come in ascending score order |
| LocallyTypical.TypicalStable | src/samplers/locally_typical.rs:68-97 | the kept entries are a prefix of the ranking; the ranking is stable, so entries of equal score keep their input order; the flags are those of the softmaxed buffer |
| LocallyTypical.SortFirstLast | src/samplers/locally_typical.rs:68-75 | an element scoring above all the others, which tie among themselves, moves behind them |
| LocallyTypical.CutFlat | src/tests.rs:403-409 | over probabilities 0.2, 0.2, 0.2 (then 0.4) with `p` 0.5, the cut keeps three |
| LocallyTypical.CutPeak | src/tests.rs:396-402 | over a first probability of 0.97 with `p` 0.5, the cut keeps one |
| LocallyTypical.TypicalExampleFlat | src/tests.rs:403-409 | probabilities 0.4, 0.2, 0.2, 0.2 with `p` 0.5 and `min_keep` 1 keep the three 0.2 entries, in input order |
| LocallyTypical.TypicalExamplePeak | src/tests.rs:396-402 | probabilities 0.97, 0.01, 0.01, 0.01 with `p` 0.5 and `min_keep` 1 keep only the 0.97 entry |
| LocallyTypical.EntropyOf | src/samplers/locally_typical.rs:58-60 | the fold computes the entropy: the sum of `-prob * ln(prob)` |
| LocallyTypical.ShiftedOf | src/samplers/locally_typical.rs:62-65 | the collected pairs are the entries with their scores |
| LocallyTypical.CutIndex | src/samplers/locally_typical.rs:79-92 | the running-sum loop returns the count `CutFrom` defines |
| LocallyTypical.Refill | src/samplers/locally_typical.rs:93-97 | after the buffer is cleared and refilled, it holds the first `n` ranked entries and keeps its flags |
| LocallyTypical.SampleLocallyTypical.Sample | src/samplers/locally_typical.rs:46-99 | the new buffer is `TypicalBuf` of the old one |
| TypicalOld.SampleTypical.Sample | src/samplers/typical.rs:14-56 | the older sampler leaves the same buffer as locally typical sampling |
| Temperature.TemperatureKeeps | src/samplers/temperature.rs:43-47 | length, order, token ids, probabilities and both flags are kept, and a nonzero temperature times each new logit gives back the old logit |
| Temperature.TemperatureInverse | src/samplers/temperature.rs:44-46 | temperature `t` followed by temperature `1 / t` restores the buffer |
| Temperature.TemperatureIdentity | src/samplers/temperature.rs:18-23 | the default temperature, which is 1, and temperature 0 both leave the buffer alone |
| Temperature.SampleTemperature.Sample | src/samplers/temperature.rs:37-49 | the new buffer is `TemperatureBuf` of the old one |
| FlatBias.FirstBias | src/samplers/flat_bias.rs:56 | gives None exactly when no pair names the id; otherwise the value of the first pair that names it |
| FlatBias.FlatBiasEntries | src/samplers/flat_bias.rs:52-65 | length and order are kept, each named entry gets its first bias added and every other entry is unchanged; both flags are cleared exactly when some entry matched |
| FlatBias.FlatBiasEmpty | src/samplers/flat_bias.rs:52-65 | an empty bias list changes nothing |
| FlatBias.FlatBiasSingle | src/tests.rs:441-459 | one pair `(k, v)` moves only the logit of token `k`, by `v` |
| FlatBias.FlatBiasNoOptions | src/samplers/flat_bias.rs:70-91 | the sampler declares no options, so no key resolves |
| FlatBias.MatchBelowAny | src/samplers/flat_bias.rs:53-61 | the change counter's test, that something among the first `n` entries matched, is the same as an existential over those entries |
| FlatBias.SampleFlatBias.Sample | src/samplers/flat_bias.rs:46-66 | the new buffer is `FlatBiasBuf` of the old one |
| Repetition.RepetitionEntries | src/samplers/repetition.rs:20-31 | only entries named in `tokens` change, and only in their logit: a logit at or below zero is multiplied by the penalty and a positive one divided by it; the sorted flag is cleared |
| Repetition.PenaltyLowers | src/samplers/repetition.rs:25-29 | a penalty of at least 1 never raises one logit |
| Repetition.RepetitionLowers | src/samplers/repetition.rs:20-31 | a penalty of at least 1 never raises any logit |
| Repetition.RepetitionNeutral | src/samplers/repetition.rs:20-31 | a penalty of 1 changes no entry and only clears the sorted flag |
| Repetition.SampleRepetition.Sample | src/samplers/repetition.rs:18-32 | the new buffer is `RepetitionBuf` of the old one |
| History.LastN | src/samplers/freq_presence.rs:87-91 | the window is the last `n` tokens, or the whole history when it is shorter |
| History.LastNBounds | src/samplers/freq_presence.rs:87-91 | a window of zero tokens is empty, and one at least as wide as the history is all of it |
| History.CountTokens | src/samplers/freq_presence.rs:92-96 | the counting loop builds a map whose keys are exactly the window's tokens, each mapped to its positive number of occurrences |
| FreqPresence.FreqPresenceNoop | src/samplers/freq_presence.rs:76-81 | an empty buffer, `last_n` of 0 or both penalties zero leave the buffer alone, whatever the history |
| FreqPresence.FreqPresenceMissingHistory | src/samplers/freq_presence.rs:86-97 | past the guards, a missing token history is the MissingResource("last_tokens") error and the buffer is untouched |
| FreqPresence.PenaltyOfSeen | src/samplers/freq_presence.rs:103-105 | a token seen `c > 0` times loses `c * frequency_penalty + presence_penalty` |
| FreqPresence.FreqPresenceEntries | src/samplers/freq_presence.rs:83-113 | with a history, each entry seen `c > 0` times in the window loses its penalty and the others are unchanged; length and order are kept; both flags are cleared exactly when some entry was seen |
| FreqPresence.FreqPresenceLowers | src/samplers/freq_presence.rs:99-108 | non-negative penalties never raise a logit |
| FreqPresence.FreqPresenceKeys | src/samplers/freq_presence.rs:129-156 | the option keys are frequency_penalty, presence_penalty and last_n, in that order |
| FreqPresence.PenaliseCounted | src/samplers/freq_presence.rs:99-108 | the rewrite loop penalises exactly the counted entries, keeps the flags, and reports a nonzero change count exactly when some entry was seen |
| FreqPresence.SampleFreqPresence.Sample | src/samplers/freq_presence.rs:63-115 | the new buffer and the error are those of `FreqPresenceStep` on the old buffer and the resources' history |
| FreqPresenceOld.FreqPresenceOldEntries | src/samplers/freqpresence.rs:40-62 | entries seen `c > 0` times in the window lose `c * alpha_frequency + alpha_presence` and the others are unchanged; the sorted flag is always cleared and the softmax flag kept |
| FreqPresenceOld.FreqPresenceOldEmptyWindow | src/samplers/freqpresence.rs:40-62 | a window of zero tokens changes no entry, but the sorted flag is still cleared |
| FreqPresenceOld.SampleFreqPresence.Sample | src/samplers/freqpresence.rs:32-63 | the new buffer is `FreqPresenceOldBuf` of the old one |
| SeqMatch.FuzzyMatches | src/samplers/sequence_repetition.rs:166-199 | every pair `(h, n)` the matcher reports lies within both sequences, has `n >= min_len` and `n <= h`, lies past the resume point and ends on equal hay and needle tokens |
| SeqMatch.FuzzyIncreasing | src/samplers/sequence_repetition.rs:166-199 | the reported pairs strictly increase in both components |
| SeqMatch.CommonPrefix | src/samplers/sequence_repetition.rs:177-193 | the length of the common prefix: the two sequences agree up to it and differ at it, or one of them ends there |
| SeqMatch.FuzzyExact | src/samplers/sequence_repetition.rs:166-199 | with tolerance 0 the matcher is exact: it reports `(k, k)` for exactly the `k` with `min_len <= k`, `0 < k`, and `k` at most the common-prefix length |
| SeqMatch.FuzzyMatch | src/samplers/sequence_repetition.rs:166-199 | the needle loop with its inner window loop returns the pairs `FuzzyMatchOf` defines |
| SeqMatch.RecordsShape | src/samplers/sequence_repetition.rs:143-151 | every record comes from a reported pair `(h_len - 1, n_len)` and is the stretch of history at the hay start of length `h_len`, ending before the last token |
| SeqMatch.FoundMismatch | src/samplers/sequence_repetition.rs:140 | a hay start whose token differs from the first token of the suffix yields no record, whatever the tolerance |
| SeqMatch.FuzzyFirstMismatch | src/samplers/sequence_repetition.rs:140 | with tolerance 0, a hay and needle whose first tokens differ give no match, so the first-token guard may be folded into the tolerance |
| SeqMatch.FoundShape | src/samplers/sequence_repetition.rs:137-141 | every match for the suffix of length `nlen` ends on a hay token equal to the last history token |
| SeqMatch.FoundRecordsShape | src/samplers/sequence_repetition.rs:139-153 | each record of one hay start and suffix length is a stretch of history at that start, taken from one of the matches |
| SeqMatch.FindSeqsContinues | src/samplers/sequence_repetition.rs:121-164 | every record is a stretch of history ending before its last token; it matched a suffix of length between `min_len` and `h_len - 1`, leaving `min_len` tokens before it; and its second-to-last token equals the last history token |
| SeqMatch.FindSeqsShort | src/samplers/sequence_repetition.rs:127-130 | a history shorter than twice `min_len` yields no records |
| SeqMatch.FindSeqsFirst | src/samplers/sequence_repetition.rs:133-141 | the records for the first hay start and the shortest suffix are among the results |
| SeqMatch.ExactFound | src/samplers/sequence_repetition.rs:140-141 | with tolerance 0, the only match for the suffix of length `nlen` is `(nlen, nlen)`, and it is present exactly when the hay starts with that suffix |
| SeqMatch.ExactRecords | src/samplers/sequence_repetition.rs:139-153 | with tolerance 0, the records of one hay start and suffix length are the exact occurrence there, when a token follows it |
| SeqMatch.FindSeqsExact | src/samplers/sequence_repetition.rs:121-164 | with tolerance 0 the records are exactly the earlier occurrences of a history suffix of length `k`, with `min_len <= k <= len - min_len`, that a token follows; each is recorded together with that token |
| SeqMatch.RecordsOf | src/samplers/sequence_repetition.rs:142-152 | the filter-and-record pass returns `Records` of the match list |
| SeqMatch.FoundRecordsOf | src/samplers/sequence_repetition.rs:140-153 | one inner step returns the records of that hay start and suffix length |
| SeqMatch.NeedleLoop | src/samplers/sequence_repetition.rs:136-160 | the loop over suffix lengths returns the records `NeedleScan` defines |
| SeqMatch.HayLoop | src/samplers/sequence_repetition.rs:133-162 | the loop that drops one hay token per pass returns the records `HayScan` defines |
| SeqMatch.FindSeqsLoop | src/samplers/sequence_repetition.rs:121-164 | `find_seqs` returns the records `FindSeqs` defines |
| SequenceRepetition.PenaltyMapSpec | src/samplers/sequence_repetition.rs:235-244 | the table's keys are exactly the last tokens of the non-empty records; each maps to the length of the longest record ending in it |
| SequenceRepetition.PenaltyMapHas | src/samplers/sequence_repetition.rs:238-243 | a record's last token is a key, and its value is at least the record's length |
| SequenceRepetition.PenaltyMapWitness | src/samplers/sequence_repetition.rs:238-243 | every key comes from a record that ends in it and whose length is the key's value |
| SequenceRepetition.SeqRepNoop | src/samplers/sequence_repetition.rs:215-221 | an empty buffer, both penalties zero, `min_length < 2` or `last_n < min_length` leave the buffer alone, whatever the history |
| SequenceRepetition.SeqRepMissingHistory | src/samplers/sequence_repetition.rs:225-245 | past the guards, a missing history is the MissingResource("last_tokens") error and the buffer is untouched |
| SequenceRepetition.SeqRepShortHistory | src/samplers/sequence_repetition.rs:226-228 | a history shorter than twice `min_length` changes nothing |
| SequenceRepetition.SeqRepEntries | src/samplers/sequence_repetition.rs:247-270 | each buffer position that is a key of the table loses `len * stacking_penalty + flat_penalty`; the others and both flags are unchanged; the sampler errs exactly when some key is not a buffer position |
| SequenceRepetition.SeqPenaltyMonotone | src/samplers/sequence_repetition.rs:261-267 | with non-negative penalties, the penalty is non-negative and grows with the sequence length |
| SequenceRepetition.RepetitionMapContinues | src/samplers/sequence_repetition.rs:225-244 | every key of the table is the last token of a record found in the window, one that continues a repeated stretch longer than `min_length` |
| SequenceRepetition.ExactLast | src/samplers/sequence_repetition.rs:143-151 | the last token of an exact record is the token that follows the occurrence |
| SequenceRepetition.ExactKeysFollow | src/samplers/sequence_repetition.rs:121-164 | with tolerance 0, every key follows an exact earlier occurrence of a suffix of length `k >= min_length` and maps to `k + 1` for one such occurrence |
| SequenceRepetition.ExactFollowIsKey | src/samplers/sequence_repetition.rs:121-164 | with tolerance 0, every token that follows an exact earlier occurrence of a suffix is a key, with a value of at least `k + 1` |
| SequenceRepetition.RepetitionMapExact | src/samplers/sequence_repetition.rs:121-164 | with tolerance 0, the tokens that follow an exact earlier occurrence of a history suffix are exactly the table's keys, and each maps to one more than the longest such suffix |
| SequenceRepetition.RepetitionExample | src/samplers/sequence_repetition.rs:7-13 | the history 1, 2, 3, 4, 1, 2, 3 with `min_length` 3 penalises exactly token 4, with length 4 |
| SequenceRepetition.ExampleOccurrences | src/samplers/sequence_repetition.rs:7-13 | in that history, the only suffix occurrence followed by a token is 1, 2, 3 at the start, followed by 4 |
| SequenceRepetition.DefaultNoop | src/samplers/sequence_repetition.rs:48-60 | the default sampler has both penalties zero and changes nothing |
| SequenceRepetition.RepetitionMapSingle | src/samplers/sequence_repetition.rs:225-244 | when the scan of a history of at most 64 tokens yields one record, only that record's last token is penalised, with the record's length |
| SequenceRepetition.ToleranceExample | src/samplers/sequence_repetition.rs:14-16 | with tolerance 1 and `min_length` 3, the history 1, 8, 3, 4, 1, 2, 3 penalises exactly token 4, with length 4: the 8 is tolerated |
| SequenceRepetition.ToleranceTest | src/tests.rs:377-388 | with tolerance 1 and `min_length` 3, the history 0, 4, 2, 3, 0, 1, 2 penalises exactly token 3, with length 4 |
| SequenceRepetition.MergeExample | src/samplers/sequence_repetition.rs:16-18 | with tolerance 1 and `min_length` 3, the history 1, 7, 8, 3, 4, 1, 2, 3 penalises exactly token 4, with length 5, when `max_merge` is 1 or 2, and nothing when it is 0 |
| SequenceRepetition.SeqRepKeys | src/samplers/sequence_repetition.rs:289-336 | the option keys are flat_penalty, stacking_penalty, min_length, tolerance, max_merge and last_n, in that order |
| SequenceRepetition.PenaltyMapOf | src/samplers/sequence_repetition.rs:235-244 | the table-building loop returns `PenaltyMap` of the records |
| SequenceRepetition.PenaliseAtStep | src/samplers/sequence_repetition.rs:259-267 | penalising the next key in ascending order extends the penalised range by that one position |
| SequenceRepetition.ApplyPenalties | src/samplers/sequence_repetition.rs:247-268 | the loop over the keys penalises every in-range key's position and keeps the flags; it reports "TID out of range for logits" exactly when some key is past the end |
| SequenceRepetition.SampleSeqRepetition.Sample | src/samplers/sequence_repetition.rs:201-272 | the new buffer and the error are those of `SeqRepStep` on the old buffer and the resources' history |
| Chain.RunUpTo | src/chain.rs:42-49 | after `n` stages the sampler list keeps its length; a stage runs only while no earlier stage has failed, and a successful stage overwrites the cached token with its own report |
| Chain.RunUpToUntouched | src/chain.rs:42-49 | stages past `n` have not run yet |
| Chain.RunUpToStuck | src/chain.rs:45-46 | once a stage has failed, no later stage changes anything |
| Chain.ChainEmpty | src/chain.rs:42-49 | an empty chain leaves the buffer alone, reports no token and succeeds |
| Chain.ChainAborts | src/chain.rs:45-48 | the first failing stage ends the call: its error and buffer are returned, the token is the one cached before it (None for the first stage), and no later stage runs |
| Chain.ChainTokenIsLast | src/chain.rs:47-54 | after a successful run, the chain's token is the last stage's report |
| Chain.RunUpToPrefix | src/chain.rs:42-49 | stages appended behind the first `n` do not affect how those `n` run |
| Chain.RunUpToSuffix | src/chain.rs:42-49 | running a concatenation runs the first chain and then, on its buffer, the second |
| Chain.ChainAppend | src/chain.rs:57-76 | running a chain extended by further stages is running the original chain and then the added stages on its result; the token is the added stages' report unless there are none |
| Chain.SamplerChain.constructor | src/chain.rs:19-24 | a new chain has no samplers and no token |
| Chain.SamplerChain.PushSampler | src/chain.rs:26-33 | `push_sampler` (and `+`, `+=`) appends one sampler and clears the cached token |
| Chain.SamplerChain.Sample | src/chain.rs:37-50 | the new samplers, buffer, token and error are those of `RunChain` on the old samplers and buffer |
| Samplers.TokenOf | src/chain.rs:47 | only the token-selecting stages ever report a token |
| Samplers.Run | src/chain.rs:46 | running one built-in stage leaves stages without state as they were and never changes a stage's kind |
| Samplers.ChainEndingInFilterReportsNothing | src/chain.rs:42-54 | a chain whose last stage does not select a token reports no token after a successful run, whatever the earlier stages picked |
| Samplers.ChainFlatBiasThenGreedy | src/tests.rs:107-117 | biasing token 3 and then token 2 far down, followed by greedy selection over the scores 0.1, 0.2, 0.3, 0.4, selects token 1 |
| Values.TrimStartSpec | src/configure/value.rs:78 | what the leading trim removes is whitespace, and what it keeps does not start with whitespace |
| Values.TrimEndSpec | src/configure/value.rs:78 | what the trailing trim removes is whitespace, and what it keeps does not end with whitespace |
| Values.Trim | src/configure/value.rs:78 | the trimmed text starts and ends with something other than whitespace, and it is no longer than the input |
| Values.TrimPadded | src/configure/value.rs:78 | trimming a tight text padded with whitespace on either side gives that text back |
| Values.TrimIdempotent | src/configure/value.rs:78 | trimming twice is the same as trimming once |
| Values.ParseUInt | src/configure/value.rs:77-79 | a successful unsigned parse fits in 64 bits |
| Values.DecimalValue | src/configure/value.rs:77-79 | the decimal text of `n` denotes `n` |
| Values.ParseUIntDecimal | src/configure/value.rs:77-79 | parsing the decimal text of any 64-bit value gives that value back |
| Values.ParseUIntExamples | src/tests.rs:533-542 | "1" parses as 1, while "-1" and "derp" are refused |
| Values.NotDigitRejected | src/configure/value.rs:77-79 | a tight text of two or more characters starting with neither `+` nor a digit is refused |
| Values.ParseFloat | src/configure/value.rs:81-87 | the trimmed text "-inf" or "-INF" gives negative infinity and "inf", "INF", "+inf" or "+INF" positive infinity; any other text succeeds exactly when the library reading of the trimmed text does, with its value, and otherwise fails with that text |
| Values.ParseBool | src/configure/value.rs:89-97 | gives true exactly for true/t/yes/1 and false exactly for false/f/no/0 after trimming, and an error for anything else |
| Values.ParseString | src/configure/value.rs:99-101 | a string option always parses, to its trimmed text |
| Values.ParseValue | src/configure/value.rs:67-75 | a parsed value has the requested kind, and the parse succeeds exactly when that kind's parser does |
| Values.ParseValueOfTrim | src/configure/value.rs:67-101 | every parser looks only at the trimmed text |
| Values.ParsersIgnorePadding | src/configure/value.rs:67-101 | every parser reads through whitespace padding around the text |
| Metadata.Keys | src/configure/metadata.rs:5-24 | the keys of a metadata list, one per definition and in order |
| Metadata.BuildOptions | src/configure/metadata.rs:62-67 | pairing definitions with accessors gives as many pairs as the shorter list has items, the i-th definition with the i-th accessor |
| Metadata.MatchesFrom | src/configure/metadata.rs:74-78 | the matching positions, in increasing order, are exactly the options whose key starts with the lookup key |
| Metadata.FindOptionDefinition | src/configure/metadata.rs:69-92 | a successful lookup names an option whose key starts with the trimmed key, and gives its position only when it has an accessor |
| Metadata.NotStartsWith | src/configure/metadata.rs:76 | a key that is shorter than the prefix, or that differs from it in the first letter, does not start with it |
| Metadata.MatchesSingleton | src/configure/metadata.rs:74-78 | when exactly one option's key starts with the lookup key, the matches are that one position |
| Metadata.FindOptionDefinitionUnique | src/configure/metadata.rs:69-92 | when exactly one option matches the trimmed key, the lookup returns it, with its position exactly when it has an accessor |
| Metadata.FindOptionDefinitionUnknown | src/configure/metadata.rs:79-85 | with no matching option the lookup fails with UnknownOrBadType of the key, or of "<unspecified>" when the key is empty |
| Metadata.FindOptionDefinitionAmbiguous | src/configure/metadata.rs:87-89 | with two matching options the lookup fails with AmbiguousKey, even when one of them is spelled exactly like the key |
| Metadata.FindOptionDefinitionEmptyKey | src/configure/metadata.rs:69-92 | the empty key resolves exactly when there is one option |
| Metadata.FindOptionDefinitionSound | src/configure/metadata.rs:69-92 | every successful lookup names the single option matching the trimmed key |
| Configurable.Assign | src/configure/configurable.rs:116-131 | a value whose kind differs from the accessor's is refused with UnknownOrBadType and nothing is written; a numeric value that does not narrow is refused with ConversionFailure; otherwise the value is stored |
| Configurable.SetOptionUnresolved | src/configure/configurable.rs:96-106 | a key that resolves to no single option changes nothing, and setting or getting reports the lookup's error |
| Configurable.SetOptionWrite | src/configure/configurable.rs:96-133 | once the key resolves to an option with an accessor and the pre hook accepts, the kind check, the narrowing and the post hook decide the outcome, in that order |
| Configurable.SetGetRoundTrip | src/configure/configurable.rs:86-162 | setting an option and reading it back under the same key gives the value that was set, when the value has the option's kind and narrows, the accessor reads back what it stores and the hooks leave the option alone |
| Configurable.IndexOf | src/configure/configurable.rs:180 | the position of the first occurrence of a character |
| Configurable.Split | src/configure/configurable.rs:176 | splitting gives at least one piece, and no piece contains the separator |
| Configurable.SplitJoin | src/configure/configurable.rs:175-176 | joining the pieces with the separator gives the text back |
| Configurable.Cleaned | src/configure/configurable.rs:177-178 | the kept pieces are non-empty and trimmed |
| Configurable.SplitKeyValue | src/configure/configurable.rs:180 | the key holds no `=`; a segment with `=` is the key, `=` and the value; a segment without one is a value with an empty key |
| Configurable.ApplySegmentsStuck | src/configure/configurable.rs:179-190 | once a segment has failed, no later segment changes anything |
| Configurable.ApplySegmentsNext | src/configure/configurable.rs:179-190 | after successful segments, the next segment is applied to the sampler they left |
| Configurable.ConfigureAbortsAtFirstFailure | src/configure/configurable.rs:164-192 | the first failing segment ends `configure` with its error; the segments before it stay applied and none after it is applied |
| Configurable.ConfigureBareValue | src/configure/configurable.rs:65-67 | a segment without `=` sets the only option of a sampler that has exactly one, to the value parsed as that option's kind |
| Configurable.SetOption | src/configure/configurable.rs:86-134 | the step-by-step `set_option` gives the outcome `SetOptionOf` defines |
| Configurable.ApplyInOrder | src/configure/configurable.rs:179-190 | the loop over segments applies them in order and stops at the first failure, as `ApplySegments` defines |
| Configurable.ConfigureFromText | src/configure/configurable.rs:164-192 | `configure` gives the outcome `ConfigureOf` defines |
| ConfigureOld.Positions | src/configure.rs:303 | every option is writable, through the slot at its own position |
| ConfigureOld.FindOld | src/configure.rs:347-383 | a successful lookup gives the position of the one option whose key starts with the key |
| ConfigureOld.FindOldUnique | src/configure.rs:347-383 | when exactly one option's key starts with the key, the lookup gives its position |
| ConfigureOld.FindOldUnknown | src/configure.rs:365-376 | a non-empty key that starts no option's key fails with UnknownOrBadType of the key |
| ConfigureOld.FindOldAmbiguous | src/configure.rs:355-380 | two options starting with the key make it ambiguous; the empty key is reported as "<unspecified>" |
| ConfigureOld.FindOldAgreesWithNew | src/configure.rs:347-383 | on trimmed non-empty keys the older lookup gives the same result as the newer one; on the empty key both succeed under the same condition, on the first option |
| ConfigureOld.SetOptionOldWrite | src/configure.rs:299-321 | once the key resolves to option `i` and the pre hook accepts, the kind check, the narrowing and the post hook decide the outcome, in that order |
| ConfigureOld.SetGetRoundTripOld | src/configure.rs:289-345 | setting an option and reading it back gives the value that was set, when the key resolves, the value has the option's kind and narrows, the slot reads back what it stores and the hooks leave the option alone |
| ConfigureOld.ConfigureOldBareValue | src/configure.rs:355-363 | a bare value sets the only option of a sampler that has exactly one; with any other number of options it fails as AmbiguousKey("<unspecified>") and nothing changes |
| ConfigureOld.ConfigureOldAbortsAtFirstFailure | src/configure.rs:385-407 | the first failing segment ends `configure` with its error, and no later segment is applied |
| ConfigureOld.SetOptionOld | src/configure.rs:289-322 | the step-by-step older `set_option` gives the outcome `SetOptionOldOf` defines |
| ConfigureOld.ConfigureFromTextOld | src/configure.rs:385-407 | the older `configure` gives the outcome `ConfigureOldOf` defines |
| Mirostat.MuMovesAgainstError | src/samplers/mirostat.rs:152 | with a positive rate, the learning update lowers mu after a token more surprising than tau, raises it after a less surprising one and keeps it on target |
| Mirostat.FindToken | src/samplers/mirostat.rs:148-150 | the lookup of a drawn id finds the first entry with that id, or reports that no entry has it |
| Mirostat.Select | src/samplers/mirostat.rs:147-154 | a failed draw is passed on and a draw of nothing reports nothing, both with mu unchanged; a drawn id absent from the buffer gives the "Impossible: sample token not in logits?" error exactly when no entry has it; a reported token is the drawn one and comes with the mu update for an entry carrying it |
| Mirostat.Mirostat1Behaviour | src/samplers/mirostat.rs:102-156 | V1 clears the token; an empty buffer or m < 1 changes nothing else; a zero vocabulary size fails with "Mirostat v1 sampler requires n_vocab" and leaves the buffer; otherwise at least one entry survives, the survivors are a prefix of the softmaxed buffer, tau, eta, m and n_vocab never change and a reported token comes with its mu update |
| Mirostat.Mirostat1Builders | src/samplers/mirostat.rs:41-98 | the default is `new` with n_vocab 0, tau 5 and eta 0.1 (mu 10, m 100); `new` is the default with its arguments applied through the builders; setting tau resets mu to 2·tau, so mu must be set after tau to stick |
| Mirostat.Mirostat1Lookup | src/samplers/mirostat.rs:173-205 | V1's options are tau, eta, mu, m and n_vocab in that order, and the key "m" is ambiguous because it starts both "mu" and "m" |
| Mirostat.Mirostat1TauUnique | src/samplers/mirostat.rs:173-205 | the key "tau" resolves to V1's first option and to no other |
| Mirostat.Mirostat1SetTau | src/samplers/mirostat.rs:164-169 | setting tau through the option layer stores it and resets mu to 2·tau |
| Mirostat.Mirostat1SetMu | src/samplers/mirostat.rs:207-220 | setting mu through the option layer changes mu and nothing else |
| Mirostat.Mirostat1RoundTrip | src/samplers/mirostat.rs:207-235 | every V1 option written with a value of its kind that narrows reads back as that value, tau included despite the mu reset |
| Mirostat.SampleMirostat1.constructor | src/samplers/mirostat.rs:58-69 | a V1 sampler holds exactly the given fields |
| Mirostat.SampleMirostat1.PostSetOption | src/samplers/mirostat.rs:164-169 | after an option write, writing tau resets mu to 2·tau and any other key leaves the sampler alone |
| Mirostat.SampleMirostat1.SetOption | src/samplers/mirostat.rs:207-220 | `set_option` on a V1 sampler leaves it in the state, and returns the error, that the shared option semantics gives for its configuration |
| Mirostat.SampleMirostat1.Configure | src/samplers/mirostat.rs:163-170 | `configure` on a V1 sampler leaves it in the state, and returns the error, that the shared configure semantics gives for its configuration |
| Mirostat.SampleMirostat1.Sample | src/samplers/mirostat.rs:102-156 | one V1 call leaves the sampler and the buffer exactly as `Mirostat1Step` describes |
| Mirostat.SampleMirostat1.SelectToken | src/samplers/mirostat.rs:147-154 | the in-place selection updates mu and the token, and returns the error, exactly as `Select` describes |
| Mirostat.FirstSurprising | src/samplers/mirostat.rs:321-324 | finds the first entry whose surprise exceeds mu, with every entry before it at most mu, or reports that there is none |
| Mirostat.V2NewSizeAsWrittenDropsUnsurprising | src/samplers/mirostat.rs:321-327 | as written, a buffer of two or more entries none of which is more surprising than mu is cut to a single entry, where keeping all of them is intended |
| Mirostat.V2NewSizeKeepsUnsurprising | src/samplers/mirostat.rs:321-327 | the corrected cut keeps between 1 and all entries, keeps only unsurprising entries when the first one is, stops right before a surprising entry, cuts nothing when no entry is surprising, and agrees with the code as written whenever some entry is surprising |
| Mirostat.Mirostat2CutBehaviour | src/samplers/mirostat.rs:327-337 | cutting the softmaxed buffer to `n` entries, between one and all, leaves its first `n` entries, ids and logits in order, with probabilities summing to 1; tau and eta never change and a reported token comes with the mu update for a kept entry |
| Mirostat.Mirostat2Behaviour | src/samplers/mirostat.rs:308-339 | V2 clears the token; an empty buffer changes nothing else; otherwise the buffer becomes the prefix of the softmaxed buffer cut as the source computes it (up to the first surprising entry, or to one entry when none is surprising), ids and logits in order, with probabilities summing to 1; tau and eta never change and a reported token comes with the mu update for a kept entry |
| Mirostat.Mirostat2DropsUnsurprising | src/samplers/mirostat.rs:308-339 | as written, when no softmaxed entry is more surprising than mu, V2 keeps only the most probable entry, with probability 1, and any token it reports is that entry's |
| Mirostat.Mirostat2IntendedKeepsUnsurprising | src/samplers/mirostat.rs:321-327 | with the corrected cut, when no softmaxed entry is more surprising than mu, V2 keeps every entry, ids in order, with probabilities summing to 1 |
| Mirostat.Mirostat2Builders | src/samplers/mirostat.rs:261-305 | the default is `new` with tau 5 and eta 0.1 (mu 10); `new` is the default with its arguments applied through the builders; setting tau resets mu, so mu must be set after tau to stick |
| Mirostat.Mirostat2SetTau | src/samplers/mirostat.rs:346-353 | setting tau through the option layer stores it and resets mu to 2·tau |
| Mirostat.Mirostat2SetMuByInitial | src/samplers/mirostat.rs:355-404 | for V2 the key "m" is unambiguous and sets mu alone |
| Mirostat.SampleMirostat2.constructor | src/samplers/mirostat.rs:276-285 | a V2 sampler holds exactly the given fields |
| Mirostat.SampleMirostat2.PostSetOption | src/samplers/mirostat.rs:346-353 | after an option write, writing tau resets mu to 2·tau and any other key leaves the sampler alone |
| Mirostat.SampleMirostat2.SetOption | src/samplers/mirostat.rs:380-392 | `set_option` on a V2 sampler leaves it in the state, and returns the error, that the shared option semantics gives for its configuration |
| Mirostat.SampleMirostat2.Sample | src/samplers/mirostat.rs:308-339 | one V2 call leaves the sampler and the buffer exactly as `Mirostat2Step` describes, with the cut as the source computes it |
| Mirostat.SampleMirostat2.SelectToken | src/samplers/mirostat.rs:330-337 | the in-place selection updates mu and the token, and returns the error, exactly as `Select` describes |
| Build.FindSlot | src/configure/build.rs:208-212 | finds the first slot with exactly the given name, or reports that no slot has it |
| Build.ConfigureSlot | src/configure/build.rs:214-232 | configuring a slot never changes its kind or its factory |
| Build.ConfigureBuilder | src/configure/build.rs:201-234 | `configure` keeps the number of slots, every name, kind and factory, and every slot other than the one named; with no slot of that name nothing changes and the error is UnknownSlot |
| Build.ConfigureStaticRefused | src/configure/build.rs:215-217 | configuring a static slot fails with CannotConfigureStatic and changes nothing |
| Build.ConfigureErrorNamesSlot | src/configure/build.rs:203-217 | every configure error names the slot: UnknownSlot, CannotConfigureStatic or the sampler's error wrapped in ConfigureFailed |
| Build.ConfigureFailureKeepsSlots | src/configure/build.rs:218-231 | a failed configure leaves the builder unchanged, except a sampler already held by a single slot, which keeps what was applied before the error |
| Build.ConfigureChainAppends | src/configure/build.rs:227-231 | a successful configure of a chain slot appends exactly one freshly configured instance after the ones it held |
| Build.ConfigureSingleHolds | src/configure/build.rs:218-225 | a successful configure of a single slot leaves it holding the configured sampler: the one it held, or a fresh one if it was empty |
| Build.FlattenAppend | src/configure/build.rs:239-249 | the chain built from a concatenation of slots is the concatenation of the chains built from each part, so slot order is kept |
| Build.SamplerChainBuilder.constructor | src/configure/build.rs:127-133 | a default builder has no slots |
| Build.SamplerChainBuilder.FromSlots | src/configure/build.rs:135-146 | a builder made from named slots holds them in the order given |
| Build.SamplerChainBuilder.PushSlot | src/configure/build.rs:162-199 | pushing a slot (also `+` and `+=`) appends it, with its name, after the existing slots |
| Build.SamplerChainBuilder.Configure | src/configure/build.rs:201-234 | the in-place `configure` leaves the slots, and returns the error, exactly as `ConfigureBuilder` describes |
| Build.SamplerChainBuilder.IntoChain | src/configure/build.rs:236-251 | `into_chain` yields a new chain with no token whose samplers are every slot's contribution in slot order: a static slot's instance, a single slot's sampler if any, a chain slot's samplers |
| Building.EnsurePresent | src/configure/building.rs:132-142 | `ensure_present` keeps the slot's kind and factory, leaves a single slot holding a sampler and a chain slot non-empty, and leaves a slot that already contributes something unchanged |
| Building.EnsurePresentIdempotent | src/configure/building.rs:132-142 | ensuring presence twice is the same as once |
| Building.EnsurePresentFills | src/configure/building.rs:132-142 | after `ensure_present` every slot contributes something, and an empty slot contributes exactly its factory's instance |
| Building.EnsureAllChainLength | src/configure/building.rs:132-142 | once a caller has ensured every slot present, the built chain has at least one sampler per slot |

## Left out

- Mirostat.Mirostat1Step: the source's weighted draw softmaxes the buffer in place before drawing (`src/samplers/rand_distrib.rs:35`). The model's draw is a pure function of the buffer, so the buffer V1 leaves behind and the probability read for the mu update are not renormalised after the cut to `k` entries. V2 softmaxes again after its cut and is not affected.
- Random selection: `src/rand.rs`, `src/resource.rs` and `src/samplers/rand_distrib.rs` are not part of this model. Mirostat's draw is the `draw` field of `Resources`, any function of the buffer; a weighted draw is not modelled.
- Mirostat.Mirostat1Step: the Zipf-exponent estimate `s_hat` and the size `k` derived from it (`src/samplers/mirostat.rs:127-145`) are the `KEstimate` parameter, since they are floating-point transcendentals and casts; the model proves what holds for any estimate.
- IEEE-754 behaviour: NaN and rounding are not modelled; infinities are modelled only as configuration values (`Values.FloatValue`). Reals replace `f32`, and so the comparison failure of locally typical sampling (`src/samplers/locally_typical.rs:67-76`), which needs a NaN score, cannot arise. Its error path is not modelled.
- FlatBias.FlatBiasBuf: the examples bias by negative infinity; the model uses finite biases small enough to give the same outcome.
- TailFree: the examples of `src/tests.rs:413-437` depend on `f32` rounding. With exact reals, evenly spaced probabilities have all-zero second differences, which the model treats separately (`TailFree.TailFreeEvenlySpaced`).
- Mirostat.FitsF32: narrowing to `f32` accepts exactly the finite values in `f32` range. Rounding to the nearest `f32` and the narrowing of infinities are not modelled.
- Values.ParseFloat: text other than the `inf` keywords is read by a `decimal` parameter, since `f64::from_str` is a library call. It may give any finite value or infinity, so other spellings of infinity are covered, but it cannot give NaN, which `FloatValue` does not have.
- Configurable: the narrowing of `u64`/`f64` values through `NumCast` is the `fitsUInt`/`fitsFloat` tests of each configuration. Failure of the widening in `get_option` is not modelled, since it cannot happen for the samplers' own types.
- `usize` is 64 bits wide throughout.
- Repetition.SampleRepetition.Sample: requires a non-zero penalty. The source divides by the penalty, and a zero divisor gives a float infinity, which reals do not have.
- SequenceRepetition.SeqRepStep: the conversions of token ids to `usize` cannot fail for naturals, so their error paths are not modelled. The per-token `HashMap` of longest lengths is applied in ascending token order. Each token is penalised once, so the order matters only when some id is past the end of the buffer: the source then fails after penalising whichever positions its hash order visited first, while the model penalises every position in range before failing.
- Samplers: the older repetition penalty is not one of the chain stages, since it has no `Sampler` implementation; it is modelled on its own by `Repetition`.
- Temperature: `src/samplers/temperature.rs` has no configuration impl, so temperature options are not part of this model.
- Build: a slot's factory is modelled by the instance it returns, one fixed value per slot. A factory that keeps state between calls (`FnMut`) is not modelled.
- Build and Building: `Box<dyn …>` dispatch, `Deref`/`DerefMut` and the `Debug` impl (`src/configure/building.rs:83-95`) are not modelled. The samplers of a chain are elements of one closed datatype (`Samplers.Sampler`), dispatched by `Samplers.Run`.
- Building.EnsurePresent: the in-place `&mut self` update of one slot is modelled on slot values.
- Configurable.SetOptionOf, ConfigureOld.SetOptionOldOf: writing through a mutable accessor is modelled as a function from the sampler's state to its new state. Each sampler class's `SetOption`/`Configure` method stores that new state in its fields.
- `src/lib.rs`, `src/samplers/mod.rs` and `src/configure/mod.rs` only wire modules together and are not modelled.

## Findings

| source | as written | input that shows it | evidently intended | confidence | as-written member | corrected member |
|---|---|---|---|---|---|---|
| src/samplers/mirostat.rs:321-327 | the V2 cut takes the position of the first entry whose surprise exceeds mu, falls back to 0 when there is none, and raises the result to 1 | two entries of probability 0.5 each (surprise 1 bit) with mu = 10: no entry is surprising, and the buffer is cut to one entry | with no surprising entry, the whole buffer is kept, as the Mirostat V2 algorithm describes | not executed | Mirostat.Mirostat2DropsUnsurprising | Mirostat.Mirostat2IntendedKeepsUnsurprising |
