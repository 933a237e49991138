# LMCache: verified models of its self-contained algorithms

This project models, in Dafny 4.11, the parts of the LMCache fork whose behaviour is decided by
the code itself: the statistics monitor, the editor of translated documentation files, the
ranking and bucketing metrics, the streaming attention collector and its file exporter, the slot
and cache-key text formats, the prefix-chained chunk hashes, the balanced selection of examples,
the address manager of the memory allocators, the completion recorder, and the precision plans
with their tensor layouts. Every function the code computes is a Dafny function, method or class
in the form the code has, and what the code is for is stated as lemmas over all inputs or all runs.

`dafny verify dfyconfig.toml` checks the whole project.

## Components

- **Statistics monitor** (`Requests`, `StatsModel`, `StatsSteps`, `StatsMonitor`, `StatsRuns`,
  `StatsRequests`, `StatsTotals`, `StatsWarnings`, `StatsClient`). Requests start, finish and are harvested by a
  snapshot-and-clear step; the lock makes each event atomic. `Requests` compares a table of
  requests with the life of each single request; the other modules instantiate it for lookups,
  retrievals, stores and transfers, and `StatsMonitor` has the objects that callers share: every
  method of its class is proved to be one step of the model. `StatsClient` plays any sequence of
  events on the class, with the objects it was handed, and gets the model's states, exceptions and
  reports, so that what holds of every run of the model holds of the class.
- **PO files** (`PoText`, `Lists`, `PoLayout`, `PoParser`, `PoEditor`, `PoUpdate`, `PoFormat`,
  `PoFile`). A parser, a printer and an in-place editor that works backwards through a file.
- **Rankings and buckets** (`Ordering`, `Ndcg`, `RankBiasedOverlap`, `Agreement`, `Buckets`,
  `Ranks`).
- **Attention** (`AttentionSums`, `AttentionCollector`, `AttentionExport`).
- **Text formats** (`Text`, `Numerals`, `Slots`, `SlotText`, `CacheKeys`).
- **Hash chains, selection, allocation, hand-off, plans** (`ChunkHashes`, `BalancedSelection`,
  `AddressSpace`, `BatchedAllocation`, `AddressManager`, `CompletionRecorder`, `KvPlan`; `Counting`
  and `Arithmetic` are shared).

## What the code does not do

Some properties one would expect do not hold of the code as written. Each is stated with the
exact condition under which it holds.

- A translation containing U+0085, U+2028 or U+2029 is written unescaped and breaks the file when
  it is read again (`PoFile.RereadIff`).
- An entry with a `fuzzy` marker on a flag line after the first, or with a `msgstr` line before its
  `msgid`, is not edited as intended (`PoEditor.EditReadsIff`).
- The hit and token totals of a snapshot are the sums over the requests that finished in its
  interval exactly when no finish in the interval overwrote a value other than zero and none was
  counted at clock reading zero, which the code takes for a request in progress
  (`StatsTotals.TotalsIff`; `StatsTotals.TotalsExact` gives the difference for every run, and
  `StatsWarnings.FinishedTwice` and `StatsWarnings.EndAtZeroUnseen` are its two causes). Lookups
  have a flag of their own and are not affected by the clock.
- The tokens of a store are counted when it starts, and neither their correction at its finish nor
  the interval of the finish is (`StatsTotals.TotalsExact`, `StatsWarnings.StoredCorrected`).
- A transfer that is finished a second time, at clock reading zero, is in progress again
  (`StatsRequests.RaisesIff` says what this means for later finishes).
- Profiling times of retrievals and stores in progress are reported again in every snapshot until
  they finish (`StatsWarnings.ProfileTimesOfFinishedIff`, `StatsWarnings.ProcessTimeRepeated`).
- No slow retrieval is logged while the clock reads ten or less (`StatsWarnings.WarningsSpaced`).
- The rank allocator gives each bucket its floored share exactly when the shares fit
  (`Buckets.ExactSharesIff`), and they fit every number of tokens exactly when the ratios of all
  buckets but the last sum to at most one (`Buckets.AlwaysFitIff`), which the tolerance on the sum
  does not guarantee (`Buckets.ToleranceOverflows`).
- Compressed slots are read back from text exactly when there are no three slots in a row of which
  the first is negative (`SlotText.ParseCompressedIff`).
- A cache key with `@` in its model or in a tag, with `%` in the name of a tag, or with a negative
  layer, is not read back
  (`CacheKeys.RoundTripIff`); the hash extractor takes the layer number of a per-layer key with
  one tag for its hash, reading it in base 16 (`CacheKeys.KeyHashOf`).
- Over a vocabulary of two tokens an odd variant of a partial prompt is the base prompt
  (`ChunkHashes.UndoneIsBase`).
- The flag of a matrix export compares totals, so that rows written again stand in for missing
  ones. It is right exactly when no two blocks share a query row, or when rows are missing and not
  as many are written again (`AttentionExport.FlagRightIff`); an export that is flagged, or that
  covers every row, is what it seems exactly when no row is shared
  (`AttentionExport.CompleteTrustedIff`, `AttentionExport.OverlapLooksComplete`).
- An exporter goes on counting after it has published a file, so that the flag of a second file is
  right exactly when neither its own bytes nor all bytes together are as many as a file has
  (`AttentionExport.LaterFlagIff`, `AttentionExport.SecondNeverFlagged`).
- The mask that rounds sizes up gives multiples of the alignment exactly when the alignment is a
  power of two (`AddressSpace.AlignUpIff`).
- Extending the address space by nothing leaves an empty free block behind, unless its last address
  is free (`AddressManager.GrowNothing`). The block does no harm: every operation keeps the
  invariant with it, and the next growth, or the release of the tail, takes it in.
- The score of the last query cannot be collected from a last chunk without rows, while every other
  aggregation takes empty chunks (`AttentionCollector.SplitDoesNotMatter`).

## Model

| member | source | states |
|---|---|---|
| Requests.TableIsActive | lmcache/observability.py:332-516 | over every run the dictionary holds exactly the requests that their own lives say are active, in order of issue |
| Requests.Conserved | lmcache/observability.py:594-827 | what all snapshots handed over plus what is in the table is every request ever issued, each exactly once, with its latest statistics |
| Requests.HarvestIff | lmcache/observability.py:594-827 | a request is in the finished set of a snapshot exactly when its life ends there, so in one snapshot at most |
| Requests.ReportedIff | lmcache/observability.py:638-660 | an issued request has left its table exactly when it ended and a snapshot followed; an unfinished one survives any number of clears |
| Requests.EmittedInOrder | lmcache/observability.py:540-550 | lists that are handed over and emptied lose, repeat and reorder nothing |
| StatsRuns.TimesConserved | lmcache/observability.py:510-550 | the reported time lists of all snapshots followed by the pending ones are everything recorded, in order |
| StatsRuns.CountersConserved | lmcache/observability.py:594-827 | for all 25 interval counters, the snapshots' values plus the pending ones add up to everything ever counted |
| StatsRuns.GaugesAt | lmcache/observability.py:518-584 | in every run a snapshot has the latest value of each gauge, the ping latency and code of its own interval, and the pinned objects as the sum of all changes |
| StatsRequests.RequestsCounted | lmcache/observability.py:332-500 | over every run the request counters of all snapshots and the pending ones add up to the ids issued, for each of the four kinds |
| StatsRequests.RaisesIff | lmcache/observability.py:352-508 | in every run a membership assertion fails exactly for a request that was never issued or that had ended at an earlier snapshot, where the latest finish of a transfer decides and one at clock reading zero reopens it |
| StatsRequests.FirstFinishAccepted | lmcache/observability.py:352-508 | the first finish of an issued request never raises, whatever else happens |
| StatsTotals.TotalsExact | lmcache/observability.py:352-508 | for every run the hit, zero-hit and transferred-token totals of a snapshot are the sums over the requests that finished in its interval plus what repeated finishes overwrote and what ended at clock reading zero, and the stored tokens are ahead by what was started and corrected |
| StatsTotals.TotalsIff | lmcache/observability.py:352-508 | with hits and tokens in range, each total is that sum if and only if no finish in the interval does either |
| StatsTotals.TotalsOfFinished | lmcache/observability.py:352-508 | so when no request finishes twice and no end is at clock reading zero, every total is that sum |
| StatsTotals.HitRates | lmcache/observability.py:673-701 | non-zero hit rates and zero-hit lookups together are the finished lookups and the zero-hit ones that a repeated finish overwrote, and every hit rate lies in [0, 1] |
| StatsWarnings.SlowAccounted | lmcache/observability.py:414-457 | every slow retrieval is logged, counted as skipped in the next warning, or still pending |
| StatsWarnings.WarningsSpaced | lmcache/observability.py:427-456 | consecutive warnings, and the first one and the clock's origin, are more than ten seconds apart |
| StatsWarnings.WarningsSpread | lmcache/observability.py:427-456 | two warnings with others between them are more than ten seconds apart for each step |
| StatsWarnings.LimiterAt | lmcache/observability.py:414-457 | the monitor's limiter follows that limiter over every run |
| StatsWarnings.TimesOfFinished | lmcache/observability.py:703-760 | in every run the times and speeds in a snapshot, of all four kinds, are the non-zero ones of the requests it takes out of the tables, so each is in one snapshot |
| StatsWarnings.ProfileTimesOfFinishedIff | lmcache/observability.py:725-757 | for each of the eight lists of profiled times, a snapshot lists those of the finished requests alone exactly when no request in progress has any |
| StatsWarnings.ProcessTimeRepeated | lmcache/observability.py:726-752 | a run in which one profiled time of a retrieval in progress is in both of two snapshots |
| StatsWarnings.EndAtZeroUnseen | lmcache/observability.py:398-412 | a run in which a retrieval that ends at clock reading zero is counted and yet stays in progress |
| StatsWarnings.FinishedTwice | lmcache/observability.py:352-374 | a run in which a second finish in the same interval adds the hits again |
| StatsWarnings.StoredCorrected | lmcache/observability.py:459-488 | a run in which a store is counted with the tokens asked for and handed over with the corrected ones |
| StatsMonitor.Monitor.OnLookupRequest | lmcache/observability.py:332-350 | is the model's step, and shares with the caller a new object that has the next id and joins those handed out before |
| StatsMonitor.Monitor.OnLookupFinished | lmcache/observability.py:352-374 | is the model's step on the whole monitor and raises exactly when the model does |
| StatsMonitor.Monitor.OnRetrieveRequest | lmcache/observability.py:376-396 | is the model's step, and shares with the caller a new object that has the next id and joins those handed out before |
| StatsMonitor.Monitor.OnRetrieveFinished | lmcache/observability.py:398-457 | is the model's step, raises exactly when the model does, and logs the warnings that the limiter lets through |
| StatsMonitor.Monitor.ProfileRetrieve | lmcache/observability.py:163-187 | is the model's step on the object that the caller holds, with the two remote times of its detailed metrics |
| StatsSteps.RaisingStep | lmcache/observability.py:352-508 | a finish that raises leaves the whole monitor as it was |
| StatsMonitor.Monitor.OnStoreRequest | lmcache/observability.py:459-475 | is the model's step, and shares with the caller a new object that has the next id and joins those handed out before |
| StatsMonitor.Monitor.OnStoreFinished | lmcache/observability.py:477-488 | is the model's step, with the tokens corrected when a count is given, and raises exactly when the model does |
| StatsMonitor.Monitor.ProfileStore | lmcache/observability.py:208-232 | is the model's step on the object that the caller holds |
| StatsMonitor.Monitor.OnTransferRequest | lmcache/observability.py:490-500 | is the model's step and returns the id issued |
| StatsMonitor.Monitor.OnTransferFinished | lmcache/observability.py:502-508 | is the model's step and raises exactly when the model does |
| StatsMonitor.Monitor.OnChunkReuse | lmcache/observability.py:510-516 | is the model's step: the lifespan in minutes is recorded |
| StatsMonitor.Monitor.UpdatePingErrorCode | lmcache/observability.py:556-563 | is the model's step: a success or an error is counted and the code kept |
| StatsMonitor.Monitor.UpdatePinnedObjects | lmcache/observability.py:582-584 | is the model's step: the change is added |
| StatsMonitor.Monitor.UpdateEvictions | lmcache/observability.py:565-568 | is the model's step: an eviction and its keys are counted |
| StatsMonitor.Monitor.Clear | lmcache/observability.py:594-663 | resets every counter and list and keeps exactly the unfinished requests, in order, with the objects handed out for them: the model's snapshot step |
| StatsMonitor.KeptLookupsView | lmcache/observability.py:656-660 | the rows that the rebuilding loop keeps show exactly the unfinished lookups, in order |
| StatsMonitor.KeptRetrievesView | lmcache/observability.py:638-642 | the rows that the rebuilding loop keeps show exactly the unfinished retrievals, in order |
| StatsMonitor.KeptStoresView | lmcache/observability.py:644-648 | the rows that the rebuilding loop keeps show exactly the unfinished stores, in order |
| StatsMonitor.KeptTransfersView | lmcache/observability.py:650-654 | the rows that the rebuilding loop keeps show exactly the unfinished transfers, in order |
| StatsMonitor.Monitor.GetStatsAndClear | lmcache/observability.py:665-827 | returns the report of the state before and leaves the state after the model's snapshot step; every object handed out stays known |
| StatsClient.Perform | lmcache/observability.py:332-827 | any event, at any time and on any object handed out, is the model's step with its exception and its report |
| StatsClient.Play | lmcache/observability.py:332-827 | every sequence of events played on the class ends in the model's state, raises where the model does and makes the model's reports |
| StatsClient.TwoAtOnce | lmcache/observability.py:332-374 | two lookups open at once, with a snapshot before both finishes: nothing raises |
| PoFormat.EncodePoString | tools/translate_docs_zh.py:107-116 | the encoded lines, read as a field, decode to the value |
| PoFormat.EncodeDecodes | tools/translate_docs_zh.py:102-133 | collecting a field whose lines were encoded from a value gives the value back |
| PoText.LoadsDumps | tools/translate_docs_zh.py:102-116 | reading a printed string literal gives the string back, for every string |
| PoParser.CollectField | tools/translate_docs_zh.py:119-133 | reads a keyword line and its continuation lines, or raises when one does not decode |
| PoParser.ParseEntries | tools/translate_docs_zh.py:136-168 | the index-driven parser computes the list-structured parse of the file |
| PoUpdate.PoLines.ReplaceMsgstr | tools/translate_docs_zh.py:171-182 | replaces the first msgstr field of the entry's lines and nothing else |
| PoUpdate.PoLines.CleanFuzzyFlag | tools/translate_docs_zh.py:185-196 | takes the fuzzy marker out of the first flag line, or removes the line |
| PoFormat.CleanFlagLineFlags | tools/translate_docs_zh.py:185-196 | the rewritten flag line has the same flags except fuzzy |
| PoEditor.EditReads | tools/translate_docs_zh.py:171-196 | a well-formed entry reads, after its edit, as the same entry with the new translation and no fuzzy flag |
| PoEditor.EditReadsIff | tools/translate_docs_zh.py:171-196 | the edits do this for every translation if and only if the entry is well-formed |
| PoUpdate.PoLines.EditBackwards | tools/translate_docs_zh.py:366-383 | going backwards keeps the earlier spans valid and edits min(budget, entries needing work), taken from the end |
| PoUpdate.UpdatedParses | tools/translate_docs_zh.py:349-388 | the edited lines parse to the intended entries |
| PoUpdate.NothingLeft | tools/translate_docs_zh.py:199-203 | with enough budget and translations that are not blank, no entry needs work afterwards |
| PoFile.UpdateFile | tools/translate_docs_zh.py:349-388 | reads a file, edits it and writes it, or leaves it alone when nothing was translated |
| PoFile.RereadIff | tools/translate_docs_zh.py:349-388 | reading the written file gives the intended entries if and only if no written translation contains U+0085, U+2028 or U+2029 |
| PoFile.RereadBad | tools/translate_docs_zh.py:349-388 | otherwise the written file does not parse |
| Ndcg.DescendingOrderCorrect | benchmarks/scoutrank_attention_overlap.py:776-780 | the order is a permutation by descending score, ties by position |
| Ndcg.TopSumIsLargest | benchmarks/scoutrank_attention_overlap.py:937-954 | no choice of j positions has a larger sum than the first j of the descending order |
| Ndcg.IdealIsLargest | benchmarks/scoutrank_attention_overlap.py:937-954 | the descending order maximises discounted gain for every positive non-increasing discount and every cutoff |
| Ndcg.NdcgBounded | benchmarks/scoutrank_attention_overlap.py:937-954 | nDCG lies in [0, 1] for every candidate order, relevance and cutoff |
| Ndcg.NdcgPerfectIff | benchmarks/scoutrank_attention_overlap.py:937-954 | nDCG is 1 exactly when the candidate has the ideal relevance at every counted rank |
| Ndcg.SymmetricNdcgBounded | benchmarks/scoutrank_attention_overlap.py:957-981 | the symmetric form lies in [0, 1] too |
| RankBiasedOverlap.RankBiasedOverlap | benchmarks/scoutrank_attention_overlap.py:984-1009 | the incremental computation gives the overlap of the prefix sets at every depth |
| RankBiasedOverlap.Symmetric | benchmarks/scoutrank_attention_overlap.py:984-1009 | swapping the rankings changes nothing |
| RankBiasedOverlap.Bounded | benchmarks/scoutrank_attention_overlap.py:984-1009 | the value lies between p^n and 1 |
| RankBiasedOverlap.OverlapAtLeast | benchmarks/scoutrank_attention_overlap.py:984-1009 | two rankings of n share at least 2k - n positions at depth k |
| RankBiasedOverlap.ReversedOverlap | benchmarks/scoutrank_attention_overlap.py:984-1009 | a ranking and its reverse share exactly max(0, 2k - n) positions at depth k |
| RankBiasedOverlap.ReversedIsLowest | benchmarks/scoutrank_attention_overlap.py:984-1009 | no ranking has a smaller overlap with a given one than its reverse |
| RankBiasedOverlap.PerfectIff | benchmarks/scoutrank_attention_overlap.py:984-1009 | for p above 0 it is 1 exactly for identical rankings |
| RankBiasedOverlap.PerfectAtZeroIff | benchmarks/scoutrank_attention_overlap.py:984-1009 | for p equal to 0 it is 1 exactly when the first ranks agree |
| Agreement.BucketAgreement | benchmarks/scoutrank_attention_overlap.py:1057-1101 | the matrix filled in place is the confusion matrix, and the metrics are those of the two lists |
| Agreement.KappaBounded | benchmarks/scoutrank_attention_overlap.py:1057-1101 | kappa lies in [-1, 1] and is 1 exactly when the lists agree |
| Agreement.Swap | benchmarks/scoutrank_attention_overlap.py:1057-1101 | swapping the lists transposes the matrix and leaves every metric alone |
| Agreement.WeightedAtLeastSame | benchmarks/scoutrank_attention_overlap.py:1057-1101 | weighted agreement is at least the same-bucket fraction and at most 1 |
| Buckets.BucketIds | benchmarks/scoutrank_attention_overlap.py:1012-1026 | the cursor loop writes each bucket into its slice of the order, for all ratios, and gives each token the bucket of its rank for ratios that are not negative |
| Buckets.BucketSize | benchmarks/scoutrank_attention_overlap.py:1012-1026 | how many tokens each bucket gets |
| Buckets.ExactSharesIff | benchmarks/scoutrank_attention_overlap.py:768-773 | every bucket but the last gets its floored share exactly when the shares fit the tokens |
| Buckets.AlwaysFitIff | benchmarks/scoutrank_attention_overlap.py:768-773 | the shares fit every number of tokens exactly when the ratios of all buckets but the last sum to at most one |
| Buckets.ExactShares | benchmarks/scoutrank_attention_overlap.py:1012-1026 | then every bucket but the last gets its floored share, however many tokens there are |
| Buckets.ToleranceOverflows | benchmarks/scoutrank_attention_overlap.py:768-773 | ratios within the tolerance whose shares exceed the tokens by eight |
| Buckets.BucketsFollowScores | benchmarks/scoutrank_attention_overlap.py:1012-1026 | a higher score, or an equal one further in front, never gets a later bucket |
| Buckets.BucketIdsWithSafety | benchmarks/scoutrank_attention_overlap.py:1029-1054 | non-finite scores go to bucket 0 and change no finite token's bucket |
| Buckets.FixedSortAllocation | benchmarks/scoutrank_fast_d22_profile.py:125-160 | the rounding allocator gives each eligible token the bucket of its rank among the eligible ones and every forced token the first bucket |
| Buckets.EligibleOrderCorrect | benchmarks/scoutrank_fast_d22_profile.py:134-146 | the eligible tokens are all that are not forced, once each, valid before invalid ones, then by score and position |
| Buckets.Unmasked | benchmarks/scoutrank_fast_d22_profile.py:134-160 | with every token valid and none forced, all tokens are ranked by score |
| Buckets.AllocatorsDifferOnFive | benchmarks/scoutrank_fast_d22_profile.py:125-160 | for 10/20/50/20 the rounding allocator never gives a lower tier and differs on at most five tokens |
| Ranks.AverageRanks | benchmarks/makv_precision_upgrade.py:356-370 | the sort-and-scan rank is the number of smaller values plus half of one more than the number of equal ones |
| Ranks.RanksAddUp | benchmarks/makv_precision_upgrade.py:356-370 | ties or not, the ranks add up to n(n+1)/2 |
| Ranks.RankInvariant | benchmarks/makv_precision_upgrade.py:356-370 | strictly increasing maps leave every rank alone |
| Ranks.Spearman | benchmarks/makv_precision_upgrade.py:373-385 | the quotient of the covariance of the tie-averaged ranks and the root, in [-1, 1], and undefined exactly for unequal or short lists and for a constant one |
| Ranks.SpearmanInvariant | benchmarks/makv_precision_upgrade.py:373-385 | strictly increasing changes of scale of either list leave the correlation alone |
| Ranks.CorrelationBounded | benchmarks/makv_precision_upgrade.py:373-385 | the numerator squared never exceeds the product of the two denominators |
| Ranks.QuotientBounded | benchmarks/makv_precision_upgrade.py:373-385 | the quotient by the root of that product lies in [-1, 1] |
| AttentionCollector.SplitDoesNotMatter | benchmarks/scoutrank_attention_overlap.py:234-305 | for every split of the query rows into consecutive chunks, empty ones included, scores, visible counts and the last-query state are those of the whole layer as one chunk, and the split is refused exactly when the last query is asked of an empty last chunk |
| AttentionCollector.Collector.AddQueryChunk | benchmarks/scoutrank_attention_overlap.py:245-305 | what a chunk makes of the open layer, for every aggregation, or that it is refused without a trace |
| AttentionCollector.Collector.FinishLayer | benchmarks/scoutrank_attention_overlap.py:307-341 | closes a layer and adds it to the totals, or refuses an unfinished one without a trace; visible counts are never missing |
| AttentionCollector.Collector.CollectLayer | benchmarks/scoutrank_attention_overlap.py:492-536 | the chunk loop, for every chunk size, adds what the whole layer would add |
| AttentionCollector.CollectFuture | benchmarks/scoutrank_attention_overlap.py:234-341 | all layers in any chunk size give the totals over layers, heads and later queries |
| AttentionCollector.VisibleCountClosed | benchmarks/scoutrank_attention_overlap.py:271-291 | without a mask the visible count is, over the layers, heads times the smaller of the later tokens and the window less one |
| AttentionCollector.NormalizedUnit | benchmarks/scoutrank_attention_overlap.py:360-379 | the normalised mass lies in [0, 1] for weights in [0, 1] and is 0 where nothing is visible |
| AttentionExport.WriterOffset | benchmarks/scoutrank_attention_overlap.py:144-147 | the byte offset the writer computes is the start of the block's first row of that head |
| AttentionExport.OffsetRowMajor | benchmarks/scoutrank_attention_overlap.py:144-147 | offsets are row-major by head, query, key and byte |
| AttentionExport.BlocksKept | benchmarks/scoutrank_attention_overlap.py:99-151 | blocks that share no query row, in any order, never overwrite each other |
| AttentionExport.CompleteIff | benchmarks/scoutrank_attention_overlap.py:153-179 | for all blocks the export counts as complete exactly when as many rows are written again as are missing |
| AttentionExport.CompleteTrustedIff | benchmarks/scoutrank_attention_overlap.py:153-179 | a flagged export covers every row if and only if no two blocks share one, and one that covers every row is flagged if and only if none is shared |
| AttentionExport.FlagRightIff | benchmarks/scoutrank_attention_overlap.py:153-179 | the flag is right exactly when no row is shared, or when rows are missing and not as many are written again |
| AttentionExport.CoveredIsMatrix | benchmarks/scoutrank_attention_overlap.py:99-151 | blocks of one matrix, shared rows or not, leave every row they have as the matrix has it |
| AttentionExport.CompleteIsMatrix | benchmarks/scoutrank_attention_overlap.py:153-179 | a complete file whose blocks share no row is the matrix, byte for byte |
| AttentionExport.Exporter.Write | benchmarks/scoutrank_attention_overlap.py:99-151 | writes an accepted block at its final place and refuses any other without a trace |
| AttentionExport.Exporter.Finalize | benchmarks/scoutrank_attention_overlap.py:153-179 | publishes the file that the accepted blocks make and reports its bytes, with counts and a flag that include earlier files of the exporter |
| AttentionExport.Exporter.Abort | benchmarks/scoutrank_attention_overlap.py:181-186 | gives the file up and goes on counting |
| AttentionExport.LaterFlagIff | benchmarks/scoutrank_attention_overlap.py:153-179 | the flag of a file is the one its own blocks deserve exactly when nothing was counted before, or when neither its own bytes nor all bytes are as many as a file has |
| AttentionExport.SecondNeverFlagged | benchmarks/scoutrank_attention_overlap.py:153-179 | after a complete file, a complete second one is never flagged |
| AttentionExport.OverlapLooksComplete | benchmarks/scoutrank_attention_overlap.py:153-179 | writing one row twice passes for both rows of two |
| Slots.Compress | lmcache/utils.py:128-163 | the loop computes the compressed list |
| Slots.AppendRun | lmcache/utils.py:166-180 | a run becomes a range from three slots on, and single slots below |
| Slots.Decompress | lmcache/utils.py:183-204 | the loop computes the slots that the items stand for |
| Slots.RoundTrip | lmcache/utils.py:128-204 | decompressing a compressed list gives the list, for all integers in any order |
| Slots.Fewest | lmcache/utils.py:128-180 | no list whose ranges have three slots or more stands for the same slots with fewer items |
| SlotText.ParseMixed | lmcache/utils.py:207-295 | the tokenising and reading loops compute the parse of the notation, or report an error |
| SlotText.ParsePrinted | lmcache/utils.py:207-295 | printed items are read back exactly unless a range has a negative or reversed bound, and then an error is reported |
| SlotText.ParseCompressed | lmcache/utils.py:128-295 | for slots that are not negative, parsing the printed compressed list gives the slots |
| SlotText.ParseCompressedIff | lmcache/utils.py:128-295 | for all slots, it does so if and only if no three slots in a row start below zero |
| CacheKeys.FillTags | lmcache/utils.py:514-520 | the loop fills the dictionary of tags, or raises on a field without a value |
| CacheKeys.RoundTrip | lmcache/utils.py:396-528 | a clean key of either kind is read back as the same key of the same kind |
| CacheKeys.RoundTripIff | lmcache/utils.py:396-656 | a key is read back if and only if neither its model nor a tag contains @, no tag name contains %, and its layer is not negative |
| CacheKeys.PrintInjective | lmcache/utils.py:468-616 | different clean keys of either kind have different strings |
| CacheKeys.PlainKeyHash | benchmarks/makv_precision_upgrade_longbench.py:292-300 | the hash of every plain key without tags is recovered, whatever its model is called |
| CacheKeys.KeyHashOf | benchmarks/makv_precision_upgrade_longbench.py:292-300 | what is extracted from the string of any clean key |
| ChunkHashes.ExpectedChunkHashes | benchmarks/makv_precision_upgrade_longbench.py:274-289 | the loop computes the map of chained chunk hashes |
| ChunkHashes.SameHashIff | benchmarks/makv_precision_upgrade_longbench.py:274-289 | two prompts share a chunk hash exactly when they agree on everything up to the end of that chunk |
| ChunkHashes.MapHolds | benchmarks/makv_precision_upgrade_longbench.py:274-289 | every chunk is found under its own hash with its own range |
| ChunkHashes.MapSize | benchmarks/makv_precision_upgrade_longbench.py:274-289 | the map has one entry for each whole chunk, so none is lost |
| ChunkHashes.RangesTile | benchmarks/makv_precision_upgrade_longbench.py:274-289 | every token of the chunk-aligned prefix is in exactly one range |
| ChunkHashes.ReplacementDiffers | benchmarks/makv_partial_prompt_match.py:85-109 | the replacement token is the original exactly for odd variants over a vocabulary of two |
| ChunkHashes.PartialPromptShares | benchmarks/makv_partial_prompt_match.py:95-109 | a partial prompt shares with its base exactly the whole chunks before the split, or all of them in that one case |
| ChunkHashes.UndoneIsBase | benchmarks/makv_partial_prompt_match.py:85-109 | over a vocabulary of two an odd variant is the base prompt |
| BalancedSelection.SelectBalanced | benchmarks/prepare_longbench_precision_e2e.py:160-190 | fails only for want of candidates, never reaches its no-progress error, and returns what the rounds give |
| BalancedSelection.SortedCorrect | benchmarks/prepare_longbench_precision_e2e.py:171-171 | the candidates are sorted by key and none is lost |
| BalancedSelection.NoRepeats | benchmarks/prepare_longbench_precision_e2e.py:160-190 | no candidate is selected more often than it was offered |
| BalancedSelection.SmallestKeys | benchmarks/prepare_longbench_precision_e2e.py:160-190 | each bin gives the candidates with its smallest keys, in order |
| BalancedSelection.TrailingExhausted | benchmarks/prepare_longbench_precision_e2e.py:160-190 | a bin that trails another by two or more is exhausted |
| BalancedSelection.OrderForgotten | benchmarks/prepare_longbench_precision_e2e.py:160-190 | with distinct keys the selection does not depend on the input order |
| CompletionRecorder.Recorder.Push | csrc/cuda/completion_recorder.cpp:12-15 | appends to the buffer |
| CompletionRecorder.Recorder.Drain | csrc/cuda/completion_recorder.cpp:17-22 | hands over the buffer and leaves it empty |
| CompletionRecorder.Recorder.DrainRecorded | csrc/cuda/completion_recorder.cpp:51-59 | hands over the kinds and payloads in order |
| CompletionRecorder.OnePlace | csrc/cuda/completion_recorder.cpp:12-59 | in every run each recorded completion is in exactly one of in flight, buffered, drained or freed |
| CompletionRecorder.StreamOrder | csrc/cuda/completion_recorder.cpp:24-59 | when streams fire in order, drained, buffered and in-flight completions of a stream are its launches in order |
| KvPlan.Promote | benchmarks/makv_precision_upgrade.py:595-611 | sets to zero exactly the cells of the selected tokens of the chunk and changes no other |
| KvPlan.PromoteBoth | benchmarks/makv_precision_upgrade.py:595-611 | promoting some tokens and then others is promoting all of them |
| KvPlan.LayoutsInverse | benchmarks/makv_precision_upgrade.py:151-180 | the two layout conversions undo each other for all dimensions |
| KvPlan.WireElement | benchmarks/makv_precision_upgrade.py:151-164 | element by element, the wire layout exchanges layer and key or value |
| AddressSpace.AlignUpCorrect | lmcache/v1/memory_management.py:1328-1338 | for powers of two the masked size is the least multiple of the alignment that holds the request |
| AddressSpace.AlignUpIff | lmcache/v1/memory_management.py:1328-1338 | the mask gives multiples of the alignment for every request if and only if the alignment is a power of two |
| AddressSpace.AlignUpHolds | lmcache/v1/memory_management.py:1328-1338 | for every alignment the masked size holds the request and is less than one alignment above it |
| AddressSpace.CanonicalUnique | lmcache/v1/memory_management.py:1287-1326 | a sorted, coalesced free list is determined by the free addresses |
| AddressSpace.TakeFree | lmcache/v1/memory_management.py:1387-1434 | allocation removes exactly the allocated addresses from the free ones |
| AddressSpace.PutFree | lmcache/v1/memory_management.py:1529-1551 | release makes exactly the released addresses free |
| AddressSpace.PutCanonical | lmcache/v1/memory_management.py:1352-1385 | after coalescing nothing is left to coalesce |
| AddressSpace.PutUndoesTake | lmcache/v1/memory_management.py:1387-1551 | releasing what was just allocated restores the free list |
| AddressSpace.PutCommutes | lmcache/v1/memory_management.py:1529-1551 | the order of releases does not matter |
| AddressSpace.PutAdjacent | lmcache/v1/memory_management.py:1352-1385 | releasing adjacent blocks one by one or as one gives the same list |
| AddressSpace.RunInv | lmcache/v1/memory_management.py:1287-1569 | in every run of allocations, releases and growth each address is free or in exactly one live block, and the sizes add up |
| AddressSpace.NoHistory | lmcache/v1/memory_management.py:1287-1569 | the free list depends on the live addresses alone |
| AddressSpace.AllReturned | lmcache/v1/memory_management.py:1287-1569 | when everything is returned the space is one free block |
| AddressManager.GrowAligned | lmcache/v1/memory_management.py:1553-1569 | growth keeps every start aligned even when the initial size is not |
| AddressManager.AddressManager.Allocate | lmcache/v1/memory_management.py:1387-1434 | first fit for every alignment; fails exactly when no free block can hold the masked size, is aligned for powers of two, and a request for nothing takes nothing |
| AddressManager.AddressManager.BatchedAllocate | lmcache/v1/memory_management.py:1436-1527 | fails exactly for a negative number, for blocks of no size, or when the free blocks together hold fewer, and otherwise returns the blocks and leaves the free list of as many single allocations |
| BatchedAllocation.ManyIff | lmcache/v1/memory_management.py:1436-1527 | single first-fit allocations succeed that often exactly when the free blocks hold that many, and find the blocks and leave the list of the single pass |
| BatchedAllocation.UpdatedList | lmcache/v1/memory_management.py:1517-1521 | removing the used blocks and then adding what is left of them keeps the list sorted and gives the list of the pass |
| AddressManager.AddressManager.Coalesce | lmcache/v1/memory_management.py:1352-1385 | the four branches insert the block merged with the neighbours it touches |
| AddressManager.AddressManager.Free | lmcache/v1/memory_management.py:1529-1551 | takes a live block back and keeps the invariant |
| AddressManager.AddressManager.Sbrk | lmcache/v1/memory_management.py:1553-1569 | extends the space by the aligned size, zero included, and keeps the invariant that admits one empty block behind a tail in use |
| AddressManager.GrowNothing | lmcache/v1/memory_management.py:1553-1569 | growth by zero changes nothing behind a free tail and otherwise leaves an empty free block |
| AddressManager.AddressManager.CheckConsistency | lmcache/v1/memory_management.py:1589-1609 | the self-check never fails, with or without that block |

## Left out

- Floating point: scores, times and rates are exact reals; rounding, NaN and infinities are left out, except that non-finite scores are a case of their own in the bucket allocators.
- Unicode digits: `int()` and `isdigit()` are modelled on ASCII digits, and string escapes without lone surrogates.
- The translation endpoint, files and HTTP: a translation is an arbitrary string per entry; exceptions of the call and universal newlines are left out.
- Clocks, locks and logging: clock readings are parameters, the monitor's lock makes each method one step, and warnings are returned instead of logged.
- The other entries of the dictionary of detailed metrics and the reference to the current retrieval: nothing the monitor reports depends on them.
- StatsMonitor.Monitor.OnLookupFinished: an object that carries the id of a request without being the one handed out for it is left out, as for the other finish methods.
- Buckets.FixedSortAllocation: the scores of valid tokens are finite.
- Ranks.Spearman: the square root is a parameter with the defining property of a root.
- AttentionCollector.Collector.AddQueryChunk: where a mean over the heads is asked for there is one at least, because the mean over none is not a number; the exporter hook is modelled separately.
- AttentionExport.Exporter.Write: conversion of values to the stored type is part of the block's bytes.
- SlotText.ParsePrinted: prints the documented notation; the code has a parser for it and no printer.
- CacheKeys.RoundTripIff: hashes are integers; byte hashes and the dictionary form of keys are left out.
- ChunkHashes.SameHashIff: the hash is assumed free of collisions and never equal to its seed, which no real hash guarantees.
- BalancedSelection.SelectBalanced: selection keys are the values of fixed-length digests; parsing of length bins is left out.
- KvPlan.Promote: the plan has one cell for each layer, key or value, and token; its checksum is left out.
- AddressManager.AddressManager.Allocate: models alignments above zero.
- The remote manager, quantizer, residual codec and CUDA kernels: their code is foreign to the files modelled here.
- Report writing, command lines, Prometheus registration and benchmark drivers: they format and forward values whose computation is modelled above, and decide nothing themselves.
