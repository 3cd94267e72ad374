# Verified model of the DS4 inference engine

This project models the algorithms of a DeepSeek-style inference engine written in Rust with Metal
kernels, and proves what they are for: that every fast, parallel, batched or stateful form means the
same as a simple one. Each module follows one component.

- Sorting and selection: `Bits`, `BitonicNetwork`, `BitonicSorts`, `SortKernels`, `MergePath`, `ArgsortMerge`,
  `TopK`.
  A kernel is a sequence of rounds; within a round the threads run one after another in an order that
  is left open, and a barrier ends the round. `Swap` is the kernel's exchange test, so one proof of the
  network serves the argsort, the router and the row-id sort.
- Attention: `Softmax`, `IndexedAttention`.
- Layers and prefill: `HyperConnection`, `Sinkhorn`, `SinkhornLaws`, `HcMixer`, `HcBatch`, `FeedForward`,
  `FeedForwardBatch`, `Schedule`, `ScheduleGrid`, `LayerPhases`, `BatchSchedule`, `Prefill`,
  `PrefillDispatch`, `MixedRouting`, with `Flat` for buffers of records laid end to end.
- Quantisation: `Hadamard`, `Grid`, `E4m3`, `KvQuantize`, `Fp8Rule`, `Q8K`, `Q2K`, `Q80`, `WeightFormats`,
  `RoutedMoe`, `RoutedMoeBatch`.
- Text: `Utf8`, `Utf8Text`, `ByteAlphabet`, `PieceRules`, `JoyaiPieces`, `Bpe`, `Tokenizer`, `Chat`.
- State and storage: `InferenceEngine`, `FloatBits`, `Session`, `Snapshot`, `LittleEndian`, `ToolMap`, `KvStore`,
  `FileFormats`, `Persistence`.
- Tool-call arguments: `Json`, `JsonArguments`, `JsonRoundTrip`, `JsonSpacing`.
- Model files: `GgufReader`, `GgufMetadata`, `GgufModel`, `GgufFile`, `GgufRules`.
- Shared by these: `Wrappers`, `Reals`, `Seqs`.

Code that loops over mutable state is a `method`, and objects that the source updates are classes
(`Online`, `KvCache`, `TransformerKv`, `Session`, `KvDiskStore`, `Reader`). A method is proved against a
specification function, and lemmas say what that function means: by a property, by an inverse, or by a second
definition that names neither the function nor its constants (`ScheduleGrid`, `PieceRules`, `Fp8Rule`,
`WeightFormats`, `FileFormats`, `GgufRules`).

Some of the source's promises do not hold on every input. There the project says exactly when they do,
and names an input that fails:

- The row-id sort is right exactly for zero or a power of two ids (`SortKernels.RowSortExact`).
- A long prompt whose batched prefill gives up behind the first attention is run a second time on the
  rows already pushed, whichever of a layer's two mixers has the wrong width
  (`PrefillDispatch.PrefillLogits`); the batched path returns the output head's vector without the
  final norm and projection that the token path applies; and with a mixer base of the 24 entries the
  split reads, the batched path refuses every batch of a model wider than one
  (`HcMixer.ShortBaseFails`).
- When routing fails for one token of a batch, the batch drops the routed part of every token. It has
  the token loop's rows and states behind every layer if and only if in each layer routing succeeds for
  all tokens or is silent for all of them (`BatchSchedule.BatchAgreesThroughout`); a two-layer net whose
  rows come out different is `MixedRouting.OneLostTokenChangesRows`. Rows alone show a difference only
  where a later attention looks, so what the dispatcher leaves is tied to the batch schedule's rows.
- A text that is itself a vocabulary entry is one token, which loses special texts and characters that
  double as byte names (`Tokenizer.TextRoundTrip`, `Tokenizer.SpaceNameIsLost`).
- Syncing to an empty prompt, and `invalidate`, keep the logits of the earlier tokens
  (`Session.EmptyPromptKeepsLogits`).
- Control characters that are written as a four-digit escape are not read back
  (`Json.MangledIsSame`, `JsonRoundTrip.BellIsLost`).
- An entry saved with other tokens than its snapshot's is refused or comes back with the snapshot's
  (`KvStore.StoreRoundTrip`, `KvStore.MismatchRefused`). The server stores the prompt's tokens with the
  snapshot taken after the reply, so its entry loads again if and only if the prompt is empty or the
  reply added no token (`Persistence.Respond`, `Persistence.ReplyIsRefused`).

Reals stand for floating-point numbers, except for logits and snapshots, which are bit patterns. `exp`
is a parameter: any function that is positive and turns sums into products (only positivity is used in
`Sinkhorn`). The arithmetic inside a layer, an expert, the router and the engine's step is a parameter
too: any deterministic function that may fail.

## Model

| member | source | states |
|---|---|---|
| BitonicNetwork.RunRound | sys/metal/argsort.metal:66-96 | One round run by its threads in any order equals the simultaneous compare-exchange of every pair, and permutes the cells |
| BitonicNetwork.RunNetwork | sys/metal/argsort.metal:66-96 | The two nested stage loops leave the whole network applied to the old cells, a permutation of them |
| BitonicSorts.NetworkSorts | sys/metal/argsort.metal:66-96 | For every power-of-two width, every row and every total preorder the exchange test honours, the network sorts (0/1 principle: every threshold's bits are sorted) |
| BitonicSorts.StridesSortBitonic | sys/metal/argsort.metal:69-94 | The inner stride loop sorts every bitonic block of bits, up or down by the block's direction bit |
| BitonicSorts.NetworkCommutesWithCut | sys/metal/argsort.metal:66-96 | Cutting the order at any pivot commutes with the whole network |
| SortKernels.ArgsortBlock | sys/metal/argsort.metal:45-105 | A thread group writes the first `top_k` indices of its sorted block to its own part of `dst` and no other cell |
| SortKernels.ArgsortOrderIsSorted | sys/metal/argsort.metal:45-105 | For every power-of-two thread count and row: a permutation of the block's indices, real ones by descending score, padding last |
| SortKernels.EqualScoresStay | sys/metal/argsort.metal:66-96 | A block whose scores are all equal keeps its order |
| SortKernels.SortRowAsc | sys/metal/dsv4_misc.metal:324-356 | The row-id sort kernel leaves the network's result, also when sorting in place |
| SortKernels.RowSortPermutes | sys/metal/dsv4_misc.metal:324-356 | The row-id sort keeps the multiset of ids, for every length |
| SortKernels.RowSortSorts | sys/metal/dsv4_misc.metal:324-356 | For a power-of-two number of ids the result is ascending |
| SortKernels.RowSortExact | sys/metal/dsv4_misc.metal:324-356 | The row sort is right on all rows of n ids if and only if n is zero or a power of two (a row that fails is given for every other n) |
| MergePath.FindCut | sys/metal/argsort.metal:177-205 | The binary search reads in bounds and ends at a cut on the path of the sequential stable merge |
| MergePath.CutSplitsMerge | sys/metal/argsort.metal:204-262 | From any cut on the path, merging what is left gives the rest of the whole merge |
| MergePath.MergeSlice | sys/metal/argsort.metal:204-263 | One thread's merge loop fills exactly its output cells with those of the whole merge |
| MergePath.SlicesTile | sys/metal/argsort.metal:164-175 | The threads' slices are disjoint and cover the first min(top_k, total) cells |
| MergePath.MergeRuns | sys/metal/argsort.metal:121-263 | All threads, in any order: `dst` holds the first top_k entries of the sequential merge, other cells untouched. For disjoint runs it is stable: entries of one run keep their order, and a right entry stands before a left one only with a greater score |
| MergePath.MergePermutes | sys/metal/argsort.metal:222-262 | The merge holds the entries of both runs, each as often as they do |
| MergePath.MergeIsRun | sys/metal/argsort.metal:222-262 | Merging two descending runs gives a descending run |
| MergePath.MergeIsStable | sys/metal/argsort.metal:177-263 | Every entry stands at the place its score gives it: a left one behind the right ones that score more, a right one behind the left ones that score as much or more |
| MergePath.RunsKeepOrder | sys/metal/argsort.metal:222-262 | Two entries of one run keep their order in the merge |
| MergePath.RightGoesFirst | sys/metal/argsort.metal:241-247 | Of two entries of different runs the right one goes first only with a strictly greater score |
| ArgsortMerge.BlockIsOrder | sys/metal/argsort.metal:45-105 | The real entries a sorted block leaves are all its indices of the row, by descending score |
| ArgsortMerge.MergeIsFirst | sys/metal/argsort.metal:121-263 | Merging the first entries of two descending orders, each at least k long or whole, gives the first k of the descending order of both |
| ArgsortMerge.PlanIsFirst | sys/metal/argsort.metal:45-263 | Blocks merged in any order of merges, none keeping more than it is given, leave the first entries of the descending order of all their indices |
| ArgsortMerge.WholeRow | sys/metal/argsort.metal:45-263 | For blocks that cover the row: the first `keep` indices of the whole row's descending order |
| ArgsortMerge.SortBlocks | sys/metal/argsort.metal:45-105 | The argsort kernel on every block leaves each block's first top_k entries in its own cells |
| ArgsortMerge.MergeBlocks | sys/metal/argsort.metal:121-263 | The merge kernel on two neighbouring blocks leaves what the plan that joins them keeps |
| ArgsortMerge.SortTwoBlocks | sys/metal/argsort.metal:45-263 | Both kernels on a row of two blocks, any thread order: the first top_k indices of the row's descending order |
| MergePath.TopKOfTopKs | sys/metal/argsort.metal:121-263 | Runs already cut to their own top_k merge to the same first top_k entries |
| TopK.TopKDescIndices | src/kernels/ffn.rs:436-451 | The in-place insertion over an index row returns the insertion specification's row |
| TopK.StableSortIsSort | src/kernels/ffn.rs:436-451 | The reference it is compared to is ranked by score then index, and a permutation of all indices |
| TopK.ScanIsPrefixOfStableSort | src/kernels/ffn.rs:436-451 | Insertion with k slots gives exactly the first min(k, n) indices of the stable descending sort |
| TopK.RouterFinalizeOne | sys/metal/dsv4_misc.metal:224-278 | Hash mode copies the clamped hash row; otherwise the six selected experts are distinct, descend by probability plus bias (probability alone without bias), and no other expert has more |
| TopK.RouterOrderSorts | sys/metal/dsv4_misc.metal:252-275 | The router's order is a permutation of the experts in descending selection score |
| TopK.RouterPicksBest | sys/metal/dsv4_misc.metal:224-275 | The first six of the order are the best six, stated with probabilities and bias only |
| TopK.EqualScoresKeepOrder | sys/metal/dsv4_misc.metal:252-275 | Where all scores are equal the experts are taken in the order of their numbers |
| TopK.RouterAgreesWithCpu | sys/metal/dsv4_misc.metal:224-278 | Place by place, CPU insertion and GPU bitonic selection pick equal scores |
| Softmax.Online.AttendRow | sys/metal/dsv4_misc.metal:404-445 | One more row: maximum, sum and output again stand for exactly the rows attended so far |
| Softmax.Online.Finish | sys/metal/dsv4_misc.metal:470-489 | With the sink and the division the output is the softmax attention over those rows |
| Softmax.AttentionRowsCpu | src/kernels/attention.rs:623-662 | The two-pass softmax with a sink computes the same attention; without rows it gives up |
| Softmax.DotIsSum | src/kernels/attention.rs:664-666 | The dot product is the sum of the products of entries |
| Softmax.AttentionIs | src/kernels/attention.rs:623-662 | An output entry times the sum of exp(query . row * scale) over all rows and of exp(sink) is the sum of the rows' entries, each times its own exp(query . row * scale) |
| Softmax.HoldsRebased | sys/metal/dsv4_misc.metal:404-445 | Moving to a new maximum rescales sum and output consistently |
| IndexedAttention.RowByRow | sys/metal/dsv4_misc.metal:496-590 | The one-row kernel attends exactly the window rows in sight out of the ring, then the visible selected rows, and returns their attention; which rows these are is stated with the kernel's arguments alone |
| IndexedAttention.FourByFour | sys/metal/dsv4_misc.metal:600-721 | The four-row staged kernel attends exactly the same row sequence, stated in the same way, and returns the same attention |
| IndexedAttention.RowsInSight | sys/metal/dsv4_misc.metal:528-571 | A window row is attended if and only if its position is among the last nRaw, not behind the token's, and inside the window; each once, ascending, from cell (rawStart + p - firstRaw) mod rawCap. A selected row c is attended if and only if c < nComp, (c + 1) * ratio <= pos0 + token + 1 and no row before it stopped the scan |
| IndexedAttention.CollectGroup | sys/metal/dsv4_misc.metal:673-687 | One group of four ids: negative ones skipped, the first invisible one stops the scan |
| IndexedAttention.AscendingLosesNothing | sys/metal/dsv4_misc.metal:564-571 | On ascending ids the early stop loses no visible row |
| IndexedAttention.SortedSelectionIsComplete | sys/metal/dsv4_misc.metal:324-356 | Behind the row-id sort every visible selected row is attended, as many times as it was selected, and no other |
| HyperConnection.HcPostOne | src/kernels/hc.rs:164-192 | The output loops compute, for every stream and entry, the gated block output plus the mixed residual streams |
| HyperConnection.HcPostMixes | src/kernels/hc.rs:164-192 | Entry by entry: gate times block output plus the mixer column's weights times the streams |
| HyperConnection.HcPostFits | src/kernels/hc.rs:164-171 | Which sizes are accepted |
| Schedule.SchedulesAgree | src/kernels/attention.rs:189-299 | Loop interchange: for any layers, rows, tokens and position, layer-major equals token-major in rows, states and success |
| Schedule.LastTokenLast | src/kernels/attention.rs:260-295 | The last token may run through all layers after the others have left them |
| ScheduleGrid.LayerFills | src/kernels/attention.rs:260-295 | A layer over all tokens succeeds with these rows and states exactly when each is what its own call at position pos + t gives on the rows before it |
| ScheduleGrid.SchedulesFillGrid | src/kernels/attention.rs:189-299 | Both schedules succeed with these rows and states exactly when there is a grid of states, one per layer and token, filled call by call, that ends in them |
| Prefill.TokenMajorPrefill | src/kernels/attention.rs:112-122 | The per-token loop leaves the KV rows and final state of the token-major definition, or fails when it does |
| Prefill.LayerMajorPrefill | src/kernels/attention.rs:238-299 | The batched loop on flat buffers succeeds only if both mixers of every layer have the embedding width, and then leaves exactly the rows and final state of the batch schedule; when it gives up behind the first attention, the first layer holds a row more for every token |
| Prefill.EmbedsAre | src/kernels/hc.rs:41-47 | The states a prefill starts from exist exactly if every token has an embedding, and are four copies of it |
| LayerPhases.PhasesAreCells | src/kernels/attention.rs:260-295 | Running a layer phase by phase over the batch equals running its tokens one after another |
| HcBatch.WrongWidthFails | src/kernels/hc.rs:126-128 | With any other width than the embedding's the first record of the batch is refused |
| HcBatch.HcPreBatch | src/kernels/hc.rs:113-162 | The batched mixer returns the single-token results packed end to end, or fails when one does |
| HcBatch.HcPostBatch | src/kernels/hc.rs:195-224 | The batched post step packs the single-token post steps end to end |
| PrefillDispatch.PrefillLogits | src/kernels/attention.rs:49-124 | Choice of loop and fallback: where the token loop succeeds the cache ends as it leaves it if and only if the run is short, or the first mixer does not fit, or both mixers of every layer fit and the batch schedule has its rows; it has its rows and states if routing is alike in every layer; the batch loop's result lacks the projection |
| PrefillDispatch.TwiceTooMany | src/kernels/attention.rs:75-123 | After a batch loop that gave up behind the first attention the fallback leaves too many rows |
| PrefillDispatch.AlikeIsSame | src/kernels/attention.rs:238-299 | With routing alike in every layer the batch schedule has the token loop's rows, states and success |
| FeedForward.FfnBlockOutput | src/kernels/ffn.rs:38-58 | One token: the shared expert's output plus the routed one, zeros in its place if routing fails |
| FeedForward.StepIs | src/kernels/ffn.rs:38-58 | One token's step through the feed-forward half: mixer, norm, shared expert plus routed part or zeros, post step |
| FeedForward.BatchAgrees | src/kernels/ffn.rs:92-93 | Where the token loop gets through, the batch's states are its states if and only if routing succeeds for every token or is silent for every token |
| FeedForwardBatch.FfnBatch | src/kernels/ffn.rs:61-103 | The batched half on flat buffers: with the embedding width every token's step, all of them without routed part if routing fails for one; with another width it gives up |
| FeedForwardBatch.RouteOrZeros | src/kernels/ffn.rs:92-93 | The routed parts of all tokens end to end, or zeros for all |
| BatchSchedule.LayerAgrees | src/kernels/attention.rs:260-295 | Where the token loop gets through a layer, the batch does the same if and only if routing is alike there |
| BatchSchedule.BatchAgreesThroughout | src/kernels/attention.rs:260-295 | The batch has the token loop's rows and states after every layer if and only if routing is alike in every layer |
| MixedRouting.OneLostTokenChangesRows | src/kernels/ffn.rs:92-93 | An input that fails: one token without experts changes the rows of the second layer |
| HcMixer.HcPreFromState | src/kernels/hc.rs:49-111 | The mixer in front of a block: projection, split and weighted sum of the streams, or failure |
| HcMixer.MixerIsSized | src/kernels/hc.rs:49-111 | Its results have the batch form's sizes and every output gate is positive |
| HcMixer.PreParts | src/kernels/hc.rs:49-111 | The parts of a mixer's result: the split of the projected row, and the streams weighted by its input gates |
| HcMixer.ShortBaseFails | src/kernels/hc.rs:126-148 | An input that fails: with a base of exactly 24 entries every batch of a wider model is refused |
| Hadamard.Butterfly | sys/metal/dsv4_kv.metal:173-182 | For every power-of-two width and every thread order the in-place butterfly leaves the Hadamard transform |
| Hadamard.RunButterflyRound | sys/metal/dsv4_kv.metal:174-181 | One round, its threads in any order, equals the simultaneous butterflies |
| Hadamard.HadIsSignedSum | sys/metal/dsv4_kv.metal:173-182 | Entry i is the sum of the inputs with the signs of row i of the Hadamard matrix |
| Hadamard.HadTwice | sys/metal/dsv4_kv.metal:173-182 | Applied twice the transform is the width times the input |
| Hadamard.HadLinear | sys/metal/dsv4_kv.metal:173-182 | The transform of a sum or difference is that of the transforms |
| Grid.Search | sys/metal/dsv4_kv.metal:59-84 | The binary search and tie rule compute rounding to the grid |
| Grid.RoundedNearest | sys/metal/dsv4_kv.metal:59-84 | For every real no grid value of either sign is nearer, and a tie means an even code |
| Grid.RoundedTwice | sys/metal/dsv4_kv.metal:59-84 | Rounding is a projection |
| E4m3.ValueGrows | sys/metal/dsv4_kv.metal:51-57 | The 127 codes have strictly increasing values |
| E4m3.ValueDoubles | sys/metal/dsv4_kv.metal:51-57 | Twice a code's value is a code's value while it does not pass 448 |
| Fp8Rule.CodeValue | sys/metal/dsv4_kv.metal:51-57 | A code is three fraction bits and four exponent bits biased by seven: (8 + m) * 2^(e - 10), or m / 512 below the first binade |
| E4m3.E4m3RoundsToFp8 | sys/metal/dsv4_kv.metal:51-84 | E4M3FN rounding keeps magnitude order, is a projection and fixes doubled values, on all reals |
| KvQuantize.ScaleUnique | sys/metal/dsv4_kv.metal:240-241 | At most one power of two bounds the block without wasting a binade |
| KvQuantize.TreeMax | sys/metal/dsv4_kv.metal:233-240 | The halving tree over 64 cells ends at the greatest magnitude |
| KvQuantize.ClampIdle | sys/metal/dsv4_kv.metal:240-243 | The clamp before rounding never changes a value |
| KvQuantize.QuantBlockProjects | sys/metal/dsv4_kv.metal:208-253 | Quantising a block twice equals once, even when the second pass halves the scale |
| KvQuantize.QuantRowProjects | sys/metal/dsv4_kv.metal:208-253 | The same for rows of any length, the last block short |
| Fp8Rule.CellIs | sys/metal/dsv4_kv.metal:226-247 | Every cell is divided by its 64-block's power of two, rounded and multiplied back; the power is the least that keeps the block and the floor of 0.0001 within 448 |
| KvQuantize.Fp8RowProjects | sys/metal/dsv4_kv.metal:208-253 | What the FP8 store wrote is a fixed point of the store |
| KvQuantize.KvFp8Store | sys/metal/dsv4_kv.metal:208-253 | The kernel leaves the row quantised in blocks of 64, its rotary tail unchanged, and its half-precision copy in the raw cache |
| ByteAlphabet.ByteToCodepoint | src/tokenizer.rs:338-353 | The counting loop gives the byte's place in the alphabet |
| ByteAlphabet.CodepointToByte | src/tokenizer.rs:355-363 | The search gives the first byte with this code point |
| ByteAlphabet.ByteCodeRoundTrip | src/tokenizer.rs:338-363 | The two maps are inverse on the alphabet |
| ByteAlphabet.ByteCodeInjective | src/tokenizer.rs:338-353 | No two bytes share a code point |
| ByteAlphabet.ByteCodeIs | src/tokenizer.rs:338-353 | The alphabet in closed form: printable bytes stand for themselves, the others for 256 to 323 in order |
| ByteAlphabet.DecodeUndoesEncode | src/tokenizer.rs:293-326 | Decoding the byte alphabet gives the bytes back |
| ByteAlphabet.DecodesToItself | src/tokenizer.rs:317-326 | A string decodes to its own bytes if and only if none of its characters stands for a byte outside ASCII; otherwise to fewer |
| JoyaiPieces.Cut | src/tokenizer.rs:365-453 | The pre-tokenizer's pieces partition the text, each of them the one the piece rules allow |
| JoyaiPieces.PieceEndIsGood | src/tokenizer.rs:372-450 | Every piece is nonempty, ends at a character boundary and holds no letter followed by ASCII punctuation |
| JoyaiPieces.PiecesPartition | src/tokenizer.rs:365-453 | Consecutive good pieces from any boundary to the end of the text |
| JoyaiPieces.NextPiece | src/tokenizer.rs:372-450 | The body of the loop, case by case, finds the piece's end; it is an end the piece rules allow |
| JoyaiPieces.PieceEndIs | src/tokenizer.rs:372-450 | The end found obeys the rules, which are stated with byte ranges and lengths: at most three digits, a whole run of ideographs or of letters, punctuation with the newlines behind it, a space run to behind its last newline or up to one space before a word |
| PieceRules.PieceEndsOnce | src/tokenizer.rs:372-450 | From one start the rules allow one end only |
| JoyaiPieces.CutOnce | src/tokenizer.rs:365-453 | A text has exactly one partition into pieces the rules allow |
| Bpe.FindBest | src/tokenizer.rs:242-271 | One scan finds the leftmost pair whose two texts, with a space between, have the least rank below the limit, or that no pair has one |
| Bpe.BestIsInList | src/tokenizer.rs:242-271 | The choice is stated with the merge list alone |
| Bpe.MergeSymbols | src/tokenizer.rs:241-277 | The loop ends where no pair can be merged, at the result of merging the best pair each time |
| Bpe.MergingKeepsText | src/tokenizer.rs:241-277 | Merging never changes the concatenation of the symbols |
| Bpe.EmitPiece | src/tokenizer.rs:237-291 | The tokens of a piece are appended: symbols in the vocabulary, else their known characters |
| Bpe.EmitCharsAre | src/tokenizer.rs:279-289 | A symbol that is no token is emitted character by character, known ones as their tokens and no other at all |
| Bpe.DecodeTokens | src/tokenizer.rs:303-326 | Decoding appends the bytes of every token, skipping control tokens and unknown ids |
| Bpe.TokenBytes | src/tokenizer.rs:303-326 | A token's bytes are those of its own text; control tokens and unknown ids have none |
| Bpe.PieceRoundTrip | src/tokenizer.rs:237-326 | A piece without a special text in its alphabet spelling decodes to itself, with no control token |
| Bpe.ControlIsSpecial | src/tokenizer.rs:328-336 | Exactly the special texts of the vocabulary are control tokens |
| Tokenizer.FromGguf | src/tokenizer.rs:44-79 | For tables of any size loading succeeds if and only if every special text is in the table; ids are last indices wrapped to 32 bits, the indices themselves up to 2^31 texts |
| Tokenizer.TwoSymbolsMerge | src/tokenizer.rs:241-277 | Two symbols become one exactly when left, space, right is in the merge list |
| Tokenizer.TokenizeText | src/tokenizer.rs:175-188 | A text that is an entry gives one token, any other the tokens of its pieces |
| Tokenizer.TextRoundTrip | src/tokenizer.rs:175-188 | Decoding the tokens of a text gives its bytes if and only if the early return is not taken on a special or ambiguous text; else strictly fewer |
| Tokenizer.PiecesRoundTrip | src/tokenizer.rs:175-188 | The tokens of all pieces decode to the whole text and hold no control token |
| Tokenizer.TextEmitsControl | src/tokenizer.rs:175-188 | Tokenizing gives a control token if and only if the text is itself a special text |
| Tokenizer.SpaceNameIsLost | src/tokenizer.rs:179-181 | An input that fails: the alphabet's name of the space comes back as a space |
| Chat.TokenizeRenderedChat | src/tokenizer.rs:190-235 | The chat loop emits the tokens of the spans and the control tokens of the special texts between them |
| Chat.SegmentsSpellText | src/tokenizer.rs:190-217 | The segments spell the text, and no span holds a special text |
| Chat.ChatControls | src/tokenizer.rs:190-235 | The control tokens of a chat are those of its special texts, in order, and no others |
| Chat.ChatRoundTrip | src/tokenizer.rs:190-235 | A chat decodes to its visible text if and only if every span round-trips |
| Chat.RenderedChat | src/tokenizer.rs:190-235 | The three facts together, for every rendered text |
| Chat.SpecialsAre | src/tokenizer.rs:219-228 | The special texts and their tokens, in the order of the scan |
| Chat.SpecialsDiffer | src/tokenizer.rs:219-235 | Any two differ within three characters, so no text starts with both |
| LittleEndian.LeRoundTrip | src/kv.rs:533-547 | Reading little-endian bytes gives the number written, at any width |
| LittleEndian.WordIs | src/kv.rs:533-539 | A word's lowest byte comes first |
| LittleEndian.LongIs | src/kv.rs:541-547 | Of eight bytes the lower four come first |
| Snapshot.SaveSnapshot | src/session.rs:177-208 | The loops write the header, tokens and logits, word by word |
| Snapshot.TryParse | src/session.rs:371-426 | The reader's checks and loops compute the parse |
| Snapshot.SaveThenParse | src/session.rs:177-208 | A payload parses to what was saved if and only if both counts fit 32 bits; otherwise it is refused |
| Snapshot.SaveKeeps | src/session.rs:371-426 | A session within its context gets its tokens, logits and context size back |
| Snapshot.ParsersAgree | src/kv.rs:549-575 | Whatever bytes the session's parser accepts, the disk parser reads the same tokens and context size |
| FileFormats.SnapshotHeader | src/session.rs:177-208 | Every word of a payload's header at its offset |
| FileFormats.SnapshotToken | src/session.rs:201-203 | Where each token stands, in two's complement |
| FileFormats.SnapshotLogit | src/session.rs:204-206 | Where each logit stands |
| FileFormats.SnapshotAccepted | src/session.rs:371-426 | Which bytes are a payload, and what is taken from where |
| FileFormats.MetaIs | src/kv.rs:549-575 | What the disk store takes from any bytes, and when it fails |
| InferenceEngine.FeedInParts | src/engine/inference.rs:21-33 | Feeding a prompt in two parts leaves the KV and logits of feeding it at once |
| InferenceEngine.FeedFromCleared | src/engine/inference.rs:21-33 | A cleared cache is as good as a fresh one |
| InferenceEngine.FedStepByStep | src/engine/inference.rs:21-33 | Feeding tokens is a chain of model steps, token i at position start + i, each on the rows the one before it left, missing layers added empty |
| InferenceEngine.TryReferencePrefill | src/engine/inference.rs:21-33 | The prefill loop feeds the tokens in order and returns the last one's logits |
| InferenceEngine.InferLogits | src/engine/inference.rs:9-19 | A reference step on an empty cache for the last token if there is a model, else the stub |
| Session.CommonPrefixLen | src/types.rs:21-27 | The longest common prefix: equal up to it, different at it |
| Session.Session.Create | src/session.rs:38-55 | Fails if and only if the context is empty; a new session is sound |
| Session.Session.Sync | src/session.rs:71-104 | Refuses a prompt that fills the context, unchanged; else ends at the prompt with cached + replay its length, in a sound state |
| Session.Session.RebuildPromptState | src/session.rs:318-337 | From any live state, ends in the state of a fresh sync |
| Session.Session.ExtendLiveSuffix | src/session.rs:339-355 | Extends a matching prefix to the state of a fresh sync, or changes nothing without a model |
| Session.Session.AppendToken | src/session.rs:292-311 | One more token, in the state of a fresh sync to all of them |
| Session.Session.DecodeNext | src/session.rs:139-148 | Appends if and only if the context has room; else nothing changes |
| Session.Session.Rewind | src/session.rs:150-154 | Cuts to a prefix and is again in the state of a fresh sync |
| Session.Session.Invalidate | src/session.rs:156-159 | Leaves no tokens and a sound state |
| Session.Session.Argmax | src/session.rs:110-117 | The last of the largest logits in the total order of floats; no finite logit stands for a greater number than the chosen one |
| FloatBits.PatternIs | src/session.rs:110-117 | What a float pattern stands for: sign, exponent biased by 127, 23 fraction bits |
| FloatBits.KeyIsValue | src/session.rs:114 | A finite pattern of a smaller number has the smaller key, and -0 lies below +0 |
| FloatBits.KeysOutside | src/session.rs:114 | Positive infinities and NaNs lie above every finite pattern, negative ones below |
| Session.ArgmaxHasGreatestValue | src/session.rs:110-117 | The choice in the order of keys is a choice of the greatest number |
| Session.GreedyTakesGreatest | src/session.rs:234-272 | Every greedy token is the index of a greatest logit |
| Session.Session.GenerateArgmaxTokens | src/session.rs:234-272 | Appends exactly the greedy tokens, a function of the tokens before, until done or the context is full |
| Session.Session.Save | src/session.rs:177-208 | Writes the payload of the session's fields |
| Session.Session.Load | src/session.rs:210-227 | Restores a payload; sound if and only if there is a model or the stored logits are the stub's; other bytes are read as bare tokens |
| Session.Run | src/session.rs:38-426 | Path independence: after any run of operations, a session with tokens has the logits and KV of a fresh session synced once to them, and stays within its context |
| Session.EmptyPromptKeepsLogits | src/session.rs:85-92 | An input that fails: after syncing to an empty prompt the logits of the earlier tokens remain |
| Utf8Text.ReadsExactlyText | src/kv.rs:373-409 | Reading UTF-8 accepts exactly the encodings of strings and gives that string |
| ToolMap.EncodeToolMap | src/kv.rs:348-371 | Writes the section if and only if all lengths fit 32 bits |
| ToolMap.ParseToolMap | src/kv.rs:373-409 | The reading loop computes the parse, errors included |
| ToolMap.MapReads | src/kv.rs:348-409 | Any list that can be written is read back wherever it stands, and the cursor ends just behind it |
| FileFormats.ToolMapLayout | src/kv.rs:348-371 | The magic bytes, the count, and the length of the whole |
| FileFormats.ToolEntryLayout | src/kv.rs:348-371 | Where each entry's lengths and texts stand |
| FileFormats.ToolsReadExactly | src/kv.rs:373-409 | Reading accepts a tool map if and only if one stands there, and gives its entries and its end |
| KvStore.EncodeFile | src/kv.rs:131-178 | Writes the file if and only if every size fits its field |
| KvStore.LoadEntry | src/kv.rs:195-256 | The loader's steps compute the load, errors included |
| KvStore.StoreThenLoad | src/kv.rs:131-256 | What is loaded from the file of any storable entry |
| FileFormats.FileHeader | src/kv.rs:131-178 | Every field of the file's 52-byte header at its offset |
| FileFormats.FileParts | src/kv.rs:131-178 | Behind it the rendered text, the payload, the tool map, and the reason behind its length |
| FileFormats.ReasonCodes | src/kv.rs:423-431 | The four reasons with a code |
| FileFormats.ReasonsOfCodes | src/kv.rs:433-441 | The reason each code stands for |
| FileFormats.LoadsExactly | src/kv.rs:195-256 | Whatever the bytes: the loader gives an entry if and only if they hold it, field by field, and fails if they hold none |
| KvStore.StoreRoundTrip | src/kv.rs:131-256 | All fields come back if and only if the entry's tokens are its snapshot's and no context size of zero is filled in from the snapshot |
| KvStore.MismatchRefused | src/kv.rs:221-223 | An entry saved with another number of tokens than its snapshot holds is refused |
| KvStore.SnapshotSurvives | src/kv.rs:131-256 | A session's snapshot stored with its tokens, any tool replays and reason is loaded whole and accepted again by the session's parser |
| Persistence.SaveThenRestore | src/session.rs:177-227 | Saved, stored, loaded after any other stores and restored: the tokens, logits and context of the saved session, in a sound state, if and only if the entry's tokens are none or as many as the session's |
| Persistence.Respond | src/server.rs:272-323 | A request is synced, answered and stored; the stored file loads again if and only if the prompt is empty or the reply added no token |
| Persistence.EntryReloads | src/kv.rs:214-223 | What the server's entry is loaded as, and that the session's parser takes the loaded snapshot |
| Persistence.ReplyIsRefused | src/server.rs:368-385 | An input that fails: three prompt tokens and one reply token |
| KvStore.KvDiskStore.Store | src/kv.rs:131-178 | Replaces the file under the rendered text, or changes nothing and fails |
| KvStore.KvDiskStore.LoadRenderedText | src/kv.rs:180-193 | Missing, loaded, failed or legacy, by the file's first bytes |
| KvStore.StoreAllThenLoad | src/kv.rs:131-193 | A stored entry is found again whatever else is stored in between |
| Json.JsonEscape | src/protocol/render.rs:5-22 | The loop writes the escaped text |
| JsonSpacing.EscapeIs | src/protocol/render.rs:5-22 | What each character becomes inside a string |
| Json.ParseStringAt | src/protocol/render.rs:721-747 | The loop computes the scan of one string from any position |
| Json.BodyScans | src/protocol/render.rs:721-747 | Scanning an escaped string gives its mangled text and stops behind its quote |
| JsonSpacing.UnescapeIs | src/protocol/render.rs:729-736 | What a character behind a backslash stands for |
| Json.MangledIsSame | src/protocol/render.rs:729-736 | Strings are given back if and only if they hold no control character besides newline, return and tab; others come back longer |
| JsonArguments.FindMatchingDelim | src/protocol/render.rs:764-793 | The loop finds the delimiter that brings the depth back to zero outside strings |
| JsonArguments.FindJsonValueEnd | src/protocol/render.rs:749-762 | The end of a string, object, array or literal |
| JsonArguments.ParseJsonObjectArguments | src/protocol/render.rs:667-708 | The member loop computes the scan of all arguments, errors included |
| JsonRoundTrip.PassValue | src/protocol/render.rs:764-793 | A printed value of any nesting leaves depth and string state of the delimiter search as they were |
| JsonRoundTrip.ValueEnds | src/protocol/render.rs:749-762 | The end found for a printed value is its end |
| JsonRoundTrip.ScannerUndoesPrinter | src/protocol/render.rs:667-793 | For every object printed compactly the scanner returns its members in order; exactly right if and only if no top string or key holds an odd control character |
| JsonSpacing.ScannerSkipsSpace | src/protocol/render.rs:667-708 | White space of any kind between the tokens at the top and around the object, and a comma behind the last member, make no difference |
| JsonSpacing.WhitespaceIs | src/protocol/render.rs:710-719 | The white space of Unicode, code point by code point |
| JsonSpacing.LiteralRuns | src/protocol/render.rs:749-762 | A literal ends at the first comma, brace or white space |
| JsonSpacing.NoColon | src/protocol/render.rs:681-686 | Without a colon behind the key there is no member |
| JsonSpacing.NoSeparator | src/protocol/render.rs:698-706 | With neither comma nor brace behind a value the object is refused |
| JsonRoundTrip.BellIsLost | src/protocol/render.rs:729-736 | An input that fails: a bell in a string |
| Q8K.QuantizeRowInto | src/kernels/quant.rs:76-111 | Fills every block, or refuses a row of the wrong size and changes nothing |
| Q8K.QuantizeBlock | src/kernels/quant.rs:80-109 | The peak gets code -127, every other value the nearest code, every cached sum is its group's |
| Q8K.ClampIdle | src/kernels/quant.rs:95-103 | The clamp changes no code |
| Q8K.QuantizedIsNear | src/kernels/quant.rs:76-111 | Scale times code is within half a scale of the value |
| Q8K.TiesGoAway | src/kernels/quant.rs:100-102 | Half-way values are rounded away from zero |
| Q2K.DotRow | src/kernels/quant.rs:125-167 | The fused dot product equals dequantising every weight and activation and adding the products; fails if and only if the row is too short |
| WeightFormats.TwoBitRow | src/kernels/quant.rs:125-167 | The plain dot product as a sum over blocks of 84 bytes and their 256 weights, each weight from its own bits, byte by byte |
| WeightFormats.CrumbsUnpack | src/kernels/quant.rs:147-160 | Four codes packed into a byte come out in their places |
| Q2K.BlockFactors | src/kernels/quant.rs:139-164 | Factoring minimums through the cached group sums keeps the plain dot product |
| Q2K.CodeAt | src/kernels/quant.rs:147-160 | The byte and shift the loops read for a weight are those of its packed code |
| Q2K.ScaledSumInRange | src/kernels/quant.rs:144-163 | The integer accumulator stays far inside 32 bits |
| Q2K.MinSumInRange | src/kernels/quant.rs:139-142 | So does the accumulator of the minimums |
| Q2K.QuantizeAndDot | src/kernels/quant.rs:114-167 | From any activation row: quantised, then dotted, with the plain meaning |
| Q80.Quantize | src/kernels/matmul.rs:931-964 | Nearest codes without clamping and the peak's scale, block by block |
| Q80.ScaleIsPeak | src/kernels/matmul.rs:939-952 | The scale is the block's greatest magnitude over 127 |
| Q80.BlockError | src/kernels/matmul.rs:1029-1036 | A block's dot is off by at most half a scale times the sum of its weight codes' magnitudes |
| Q80.DotRow | src/kernels/matmul.rs:1010-1039 | The quantised row dot differs from the exact one by at most the sum over blocks of weight scale times peak over 254 times code size |
| WeightFormats.CodeSizeIs | src/kernels/matmul.rs:1010-1039 | The code size in that bound is the sum of the magnitudes of the block's signed bytes |
| Q80.ExactDotRow | src/kernels/matmul.rs:857-866 | The unquantised row dot computes the exact sum the bound refers to |
| WeightFormats.EightBitRow | src/kernels/matmul.rs:857-866 | The exact sum over blocks of 34 bytes: a half-precision scale, then 32 signed bytes |
| RoutedMoe.RouteOne | src/kernels/ffn.rs:218-287 | One token: the sum of its experts' outputs, if routing, quantising and every expert succeed |
| RoutedMoe.RoutedIs | src/kernels/ffn.rs:218-287 | What routing means with router, quantiser and experts alone: all chosen experts have outputs, and each entry is the sum of theirs |
| RoutedMoe.PushKeepsItems | src/kernels/ffn.rs:316-329 | Pushing into the ordered groups adds one item and keeps the others |
| RoutedMoe.RegroupingKeepsItems | src/kernels/ffn.rs:315-329 | The groups hold exactly the selected (token, expert, weight) items |
| RoutedMoe.RegroupingKeepsTotals | src/kernels/ffn.rs:315-356 | Summed in group order, each token's total is that of its own choices |
| RoutedMoeBatch.RouteBatch | src/kernels/ffn.rs:290-358 | Succeeds if and only if the sizes fit and every token alone would; then each token gets what routing it alone gives |
| RoutedMoeBatch.BatchWorks | src/kernels/ffn.rs:290-358 | Every token's experts succeed if and only if every item of the batch does |
| Sinkhorn.Split | src/kernels/hc.rs:325-409 | Gates and mixer are those of the specification; fails if and only if a slice is too short |
| Sinkhorn.Start | src/kernels/hc.rs:350-374 | The first loop leaves a softmax of every row lifted by eps |
| Sinkhorn.ScaleRows | src/kernels/hc.rs:386-395 | Every row divided by its sum plus eps, in place |
| Sinkhorn.ScaleCols | src/kernels/hc.rs:375-384 | Every column divided by its sum plus eps, in place |
| Sinkhorn.IteratedIsBelowOne | src/kernels/hc.rs:375-406 | For every number of iterations the matrix is strictly positive with column sums below one |
| Sinkhorn.MixerIsBelowOne | src/kernels/hc.rs:325-409 | So is the mixer of every mixer row |
| Sinkhorn.ResidualNeverGrows | src/kernels/hc.rs:164-192 | With such a mixer the residual part of each output entry never exceeds the largest input stream there |
| Sinkhorn.PostIsBounded | src/kernels/hc.rs:164-192 | End to end: `hc_post_one` with a split's mixer is the gated block output plus a part that never grows |
| SinkhornLaws.PostGateIs | src/kernels/hc.rs:344-348 | Output gate i reads entries 4 + i of the row and the base and the second scale; times 1 + exp(-z) it is 2 |
| SinkhornLaws.PostGatesMirror | src/kernels/hc.rs:344-348 | The gates at z and -z add up to 2 |
| SinkhornLaws.PreGateIs | src/kernels/hc.rs:340-343 | Input gate i reads entry i and the first scale; less eps, times 1 + exp(-z), it is 1 |
| SinkhornLaws.StartIsSoftmax | src/kernels/hc.rs:350-374 | An entry of the first matrix, less eps, times its row's sum of exponentials is its own exponential |
| SinkhornLaws.ScalingsDivide | src/kernels/hc.rs:375-395 | A scaled entry times its row's or column's sum plus eps is the entry before |
| SinkhornLaws.IterationsAre | src/kernels/hc.rs:375-406 | A column scaling first, then rows and columns in turn, as often as the count says |
| GgufReader.Reader.ReadU32 | src/gguf.rs:439-441 | Reads four bytes or leaves the cursor |
| GgufReader.Reader.ReadU64 | src/gguf.rs:443-445 | Reads eight bytes or leaves the cursor |
| GgufReader.Reader.ReadString | src/gguf.rs:447-462 | A length and that many bytes of UTF-8 |
| GgufReader.Reader.SkipBytes | src/gguf.rs:413-423 | Moves on, never past the end |
| GgufReader.Reader.SkipValue | src/gguf.rs:365-397 | The recursive skip ends where the specification says, the cursor inside the buffer |
| GgufReader.SkipsExactly | src/gguf.rs:365-397 | Any encoded value is skipped exactly if its nesting fits the depth limit, and refused otherwise |
| GgufMetadata.ReadPairs | src/gguf.rs:176-214 | The metadata loop computes the header it should keep |
| GgufMetadata.ReadStrings | src/gguf.rs:357-363 | A table of strings, all or none |
| GgufMetadata.PairReadsBack | src/gguf.rs:176-214 | One encoded pair is consumed exactly and leaves the right header |
| GgufMetadata.MetadataReadsBack | src/gguf.rs:176-214 | Any encoded metadata is consumed exactly, leaving the header its pairs say |
| GgufModel.GuardIsOverflow | src/gguf.rs:253-259 | The division guard is true if and only if the product passes 64 bits |
| GgufModel.SizeIsWholeBlocks | src/gguf.rs:302-337 | A tensor's size is that of the fewest blocks that hold its elements |
| GgufModel.AlignUpAligns | src/gguf.rs:339-349 | The next multiple of the alignment |
| GgufModel.ReadTensor | src/gguf.rs:242-278 | Every entry read has its product of dimensions and its size |
| GgufModel.Locate | src/gguf.rs:281-294 | Succeeds if and only if no tensor lies outside the file; then every one lies inside |
| GgufModel.ReadDirectory | src/gguf.rs:237-279 | The directory loop reads exactly the entries that stand there, in file order, and maps each name to its last entry |
| GgufModel.ParseTensors | src/gguf.rs:237-300 | The tensors are the entries of the file, each at its offset past the aligned data start; fails exactly if an entry cannot be read or lies outside |
| GgufModel.Load | src/gguf.rs:129-220 | What loads is exactly the header and the tensors that stand in a GGUF v3 file; anything else is refused |
| GgufModel.LoadModel | src/gguf.rs:129-220 | The same with the source's metadata keys |
| GgufRules.StartIs | src/gguf.rs:129-160 | Which bytes a file starts with |
| GgufRules.ScalarSizesAre | src/gguf.rs:118-127 | The value types with a fixed size |
| GgufRules.BlockShapesAre | src/gguf.rs:302-330 | Elements and bytes of a block, for every tensor type |
| GgufRules.NoSize | src/gguf.rs:302-337 | When a tensor has no size |
| GgufFile.TensorReadsBack | src/gguf.rs:242-278 | An encoded entry is read back with its product and size if and only if it has one to four dimensions that do not overflow; otherwise it is refused |
| GgufFile.DirectoryReadsBack | src/gguf.rs:237-279 | Any encoded directory is read back entry by entry, or refused at its first bad entry |
| GgufFile.FileReadsBack | src/gguf.rs:129-300 | Every encoded file loads with the header its pairs say and the tensors of its entries in their places, or is refused for a pair, an entry or a tensor outside the file |
| GgufModel.TensorBytesExact | src/gguf.rs:229-234 | After any load a tensor with bytes has exactly its blocks, from its offset past the aligned data start |

## Left out

- Floating-point rounding, NaN and infinities, and the half-precision casts inside attention: reals are used instead, so agreements are exact where the source agrees up to rounding.
- 32-bit wrap-around of kernel index arithmetic: indices are unbounded; the host chooses arguments that do not wrap, and its code is not part of this model.
- Kernel arguments (`rawCap`, `ratio`, `nRaw`, `hashRows`, buffer sizes): preconditions, because the host that sets them is not part of this model.
- The ascending variants of the argsort and the merge kernels: they differ only in the comparison.
- One row, one token and one head per kernel: the outer grid dimensions only select a row.
- The staging copies of the attention kernels by thread and lane: a row is copied whole.
- IndexedAttention.FourByFour: the lanes' partial dot products (`simd_sum`) are plain sums.
- Hadamard.Butterfly: the final scaling and the FP4 (E2M1) rounding of the same kernel are not modelled.
- The second FP8 kernel (`kernel_dsv4_fp8_kv_quantize_f32`): the same block rounding on other strides.
- E4m3.Value: the table of powers of two is a function with the table's values.
- Prefill without hyper-connections (`forward_token_through_blocks_plain`).
- FeedForwardBatch.FfnBatch: the norm and the shared expert are kernels that take one token's record; the batched matrix product of the shared expert is not followed.
- Prefill.TokenMajorPrefill: what the rows are after a failure in the middle is left open, and a layer's rows are found by its place in the list of blocks.
- Prefill.LayerMajorPrefill: the cache has at most one layer per block, as `ensure_layers` leaves it, and the run is not empty, as its caller makes sure.
- ArgsortMerge.WholeRow: which merges the host runs is not part of this model, so any plan of merges is allowed.
- PrefillDispatch.PrefillLogits: the output head and the projection do not fail; what a long run returns when the token loop would fail on the first cache is left open, because the fallback then works on rows already pushed.
- Schedule.SchedulesAgree: the scratch buffers of a decode step are not state of the model.
- Softmax.Online: the query vector is one vector, not four lanes of `half4`.
- Bpe.DecodeTokens: the final lossy conversion of bytes to a string; round trips are stated on the bytes.
- Chat.TokenizeRenderedChat: positions count characters, not bytes; the special texts start at character boundaries either way.
- `render_chat_prompt`, `token_text`, the preview tokenizer: templates and lookups.
- Session.Run: the engine's step succeeds on every token or there is no model; progress callbacks, debug events, `top_logprobs` and decode scratch are left out.
- InferenceEngine.InferLogits: the stub's mixing function is any function of the tokens.
- Session.Session.Load: a context size above 32 bits is cut on saving, as in the source; `Run` keeps contexts below that.
- KvStore.KvDiskStore: the directory is a map from rendered text to bytes, which takes SHA-1 to be injective on the texts used; file errors, clocks and the legacy `DS4K` format are left out.
- The in-memory cache in front of the disk store and `find_tool_replay`: a later store can leave a stale copy under another key, so there is no invariant to state.
- ToolMap.ParseToolMap: strings are kept as their UTF-8 bytes; the check that bytes are UTF-8 is modelled.
- JsonArguments.ParseJsonObjectArguments: positions count characters, not bytes.
- The attribute escapes of the tool-call markup, replies and event streams: templates.
- Q2K.DotRow: `f16_to_f32` is any function of two bytes.
- Q80.DotRow: the vectorised (`sdot`) and multi-row variants are plain sums over the same rows.
- The IQ2 dot products, their grids and sign tables, and the other formats of `dot_tensor_row`.
- RoutedMoe.RouteOne: the tensor-type checks and the computation inside one expert are a parameter.
- Sinkhorn.Split: the number of streams is fixed to the source's constant of four, `eps` is positive.
- GgufReader.SkipsExactly: buffers hold less than 2^63 bytes, as every slice of the source's language does.
- GgufModel.Load: the data is the file's bytes; memory mapping and file errors are left out.
- GgufFile.FileReadsBack: files are shorter than 2^63 bytes.
- Persistence.Respond: a reply that runs out of context is stored as it stands, as without streaming; tool-only requests, which store no tokens, are the empty case of `SaveThenRestore`.
- HTTP, the command line, the graph and decode drivers in `src/kernels/metal`, weight binding by name.
