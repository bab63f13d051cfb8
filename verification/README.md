# Xplagiax, verified: the index, the chunker, the jobs and the stores

A Dafny model of the plagiarism-search service.  It covers the parts whose correctness depends on
order, crashes or arithmetic, and proves for every run and every input what the code promises
there, or exactly when it keeps the promise.

`dafny verify dfyconfig.toml` checks everything.

| files | part of the system |
|---|---|
| `VectorIndex`, `LogFile`, `WriterProtocol`, `WriterRuns`, `VersionedWriter` | the single writer: write-ahead log, snapshots, manifest, checkpoints, recovery |
| `HotReload` | read replicas that poll the manifest while the writer goes on |
| `WalText`, `RecordFormat` | the log as text: JSON lines, torn writes, and what any number of them does to later appends |
| `Tokens`, `Normalizer`, `Splitting`, `Windows`, `Chunker`, `SegmentLimits` | tokenizer, plain-text normalizer, the chunker built on them, and when `max_tokens` is a limit |
| `Jobs`, `JobService` | asynchronous jobs: records, stream with redelivery, the worker loop |
| `Stores`, `Indexing` | indexing and deleting a document across vectors, chunk rows and document rows |
| `Search`, `Aggregation` | filter-first search and the fusion of chunk hits into document matches |
| `SearchCache`, `Embeddings` | the two caches, each against what it is supposed to speed up |
| `Prelude` | options, sequences, decimal notation |

How it is built.  Where the code talks to a disk, to Redis or to a database there is a state
machine in which each external effect is one step and a crash may fall between any two
(`WriterProtocol`, `HotReload`, `Jobs`, `Stores`).  A run is a sequence of steps, and the main
results quantify over all runs.  The live code is a set of classes and methods beside it; each
carries a ghost `steps`, every effect appends exactly one step to it, and `Valid()` says that the
real fields are the state that run leads to.  So a method that swapped two effects, or skipped one,
would not verify, and the results over runs apply to every prefix of what a method does.
Code that computes in a loop over lists and counters (chunker, caches, encoder, aggregator) is a
method with a loop, proved against a function whose properties are proved separately.

Where the code and its comments disagree, the model follows the code:

- The comments at `cambios/files/app/workers/indexer_worker.py:10-12` say reprocessing a
  redelivered message is safe.  A message redelivered after RUNNING was saved makes `start()`
  raise outside the `try`; it kills the worker and can never be acknowledged while its record
  lives.  `Jobs.RedeliveryIff` gives the exact condition and `Jobs.CrashAfterStartStrands` the run.
- The comment at `cambios/files/app/infrastructure/persistence/wal.py:46-48` says it is safe to stop
  at a torn line.  That holds for the next recovery.  The fragment is not trimmed, though, so every
  append up to the next checkpoint goes behind it, and is lost if the process dies before that
  checkpoint commits.  `WriterProtocol.AckedSurviveIff` gives the exact condition over all runs and
  `WriterRuns.TornThenAckedIsLost` the run.
- After a torn line even a committed snapshot can be undone: a crash between the manifest and the
  truncate replays the readable beginning of the log over a snapshot that is newer than the whole log.
  `WriterProtocol.CrashCosts` says exactly when that is harmless; in `WriterRuns.StaleReplayUndoes` it
  brings back a vector whose removal was acknowledged and is in the snapshot.
- `max_tokens` is not an upper bound on segments.  In `SegmentLimits.TwoLongParagraphsOverflow` a text
  has a 1000-token segment under the default parameters; `Chunker.SegmentSizes` has the true bound, and
  `SegmentLimits.MaxIsLimitIff` the parameters for which `max_tokens` is one.
- A reader that names a snapshot and opens it after the writer has unlinked it gets an empty index
  from the index factory, without an error (`HotReload.OpenIff`, `HotReload.LateOpenServesEmptyIndex`).
- A delete that stops after its first vector leaves a document row that keeps reporting "duplicate"
  for a new upload of content that can no longer be found in full; of a one-chunk document nothing
  can be found (`Stores.HalfDeletedBlocksUpload`).

## Model

| member | source | states |
|---|---|---|
| `VectorIndex.ReplayLookup` | cambios/files/app/infrastructure/persistence/versioned_index_writer.py:122-129 | replaying a log leaves at each id what the last operation touching that id left there -- nothing after a remove, the last vector given for it after a batch -- and the ids that no operation touches as they were in the snapshot |
| `VectorIndex.ReplayIdempotent` | cambios/files/app/infrastructure/persistence/versioned_index_writer.py:110-131 | replaying a log over an index that already contains its effects changes nothing, for any mix of batch adds and removes, also when more operations were logged behind it |
| `VectorIndex.ReplayOverSnapshot` | cambios/files/app/infrastructure/persistence/versioned_index_writer.py:66-68 | a snapshot of the first n operations under a log that starts anywhere before n recovers the fold of all of them |
| `VectorIndex.StaleReplayIff` | cambios/files/app/infrastructure/persistence/versioned_index_writer.py:110-131 | replaying the first part of a log over an index that contains all of it is harmless if and only if the second part undid nothing of the first |
| `WriterProtocol.StepKeeps` | cambios/files/app/infrastructure/persistence/versioned_index_writer.py:83-140 | every single effect of add, remove, checkpoint, prune and restart, a crash at any point, and a crash in the middle of an append keep the invariant tying log, manifest, files and memory to the calls made |
| `WriterProtocol.WholeAppendsRecover` | cambios/files/app/infrastructure/persistence/versioned_index_writer.py:68-131 | over every run of calls, checkpoints, restarts and crashes between any two effects in which no crash cuts an append short: recovery rebuilds exactly the fold of the logged operations in order, every acknowledged call among them, and at most one unacknowledged call per crash plus the one in flight |
| `WriterProtocol.WholeAppendsKeepLog` | cambios/files/app/infrastructure/persistence/versioned_index_writer.py:83-120 | in every such run the log ends terminated, no append ever met another one, and every crash was harmless |
| `WriterProtocol.CrashRecovery` | cambios/files/app/infrastructure/persistence/versioned_index_writer.py:68-131 | the same over every run, torn appends included, as long as every crash so far was harmless and one now would be: no record stood behind a broken line, or the snapshot just committed held them and they undid nothing of the readable ones |
| `WriterProtocol.AckedSurviveIff` | cambios/files/app/infrastructure/persistence/versioned_index_writer.py:68-131 | over every run, torn appends included: recovery rebuilds the fold of the last snapshot's history and the readable log, and an acknowledged call is among those operations if and only if its append met a terminated log or a committed snapshot covers it (its effect may still be undone by older records replayed over it) |
| `WriterProtocol.LostForGood` | cambios/files/app/infrastructure/persistence/versioned_index_writer.py:122-131 | a call that is not there when the process is dead is in no later log, memory or snapshot |
| `WriterProtocol.CrashCosts` | cambios/files/app/infrastructure/persistence/versioned_index_writer.py:83-115 | what a crash in any state of a live writer costs: before the manifest is flipped exactly the records behind a broken line; between flip and truncate nothing if and only if those undid nothing of the readable ones; between an append and its application recovery has, with those records, what memory is about to hold |
| `WriterRuns.TornThenAckedIsLost` | cambios/files/app/infrastructure/persistence/wal.py:43-49 | a concrete run that loses an acknowledged call: a torn line, a restart, the call, a crash |
| `WriterRuns.StaleReplayUndoes` | cambios/files/app/infrastructure/persistence/versioned_index_writer.py:110-113 | a concrete run after which a recovery brings back a vector whose removal was acknowledged and covered by the last snapshot |
| `WriterProtocol.WalBound` | cambios/files/app/infrastructure/persistence/versioned_index_writer.py:105-131 | recovery never replays more than `checkpoint_every_ops` records plus one per crash so far |
| `WriterProtocol.LogExtentBound` | cambios/files/app/infrastructure/persistence/versioned_index_writer.py:105-131 | all records and pieces of records in the log, readable or not, are at most `checkpoint_every_ops` plus that number and three per crash so far |
| `WriterProtocol.PendingCounterAfterCall` | cambios/files/app/infrastructure/persistence/versioned_index_writer.py:117-131 | whenever an add, remove or checkpoint returns, the pending counter is below the threshold and equals what the process replayed and appended since the last checkpoint, which is the log length unless a line of it is broken |
| `WriterProtocol.ManifestNamesCompleteSnapshot` | cambios/files/app/infrastructure/persistence/versioned_index_writer.py:105-115 | in every reachable state the manifest names a snapshot that exists and is complete |
| `WriterProtocol.SnapshotsAreImmutable` | cambios/files/app/infrastructure/persistence/versioned_index_writer.py:105-140 | a committed version that is still on disk holds the content it was committed with, across all later crashes and checkpoints, and the manifest version never decreases |
| `WriterProtocol.RetentionAfterCheckpoint` | cambios/files/app/infrastructure/persistence/versioned_index_writer.py:133-140 | after a completed checkpoint at version v the snapshots on disk are exactly those of v-1 and v that are at least 1, whatever crashes left behind |
| `WriterProtocol.OnDiskIff` | cambios/files/app/infrastructure/persistence/versioned_index_writer.py:133-140 | in every reachable state a committed version is on disk if and only if it was never unlinked |
| `VersionedWriter.VersionedIndexWriter.constructor` | cambios/files/app/infrastructure/persistence/versioned_index_writer.py:53-71 | constructing a writer over any reachable directory rebuilds the fold of snapshot history and readable log -- of all logged operations in order, as long as every crash was harmless -- and a counter equal to the records replayed |
| `VersionedWriter.VersionedIndexWriter.ReplayWal` | cambios/files/app/infrastructure/persistence/versioned_index_writer.py:122-131 | the replay loop computes the fold of the log and sets the counter to its length |
| `VersionedWriter.VersionedIndexWriter.Add` | cambios/files/app/infrastructure/persistence/versioned_index_writer.py:83-88 | an add overwrites exactly the given ids in memory, is logged and acknowledged, and leaves the counter below the threshold |
| `VersionedWriter.VersionedIndexWriter.Remove` | cambios/files/app/infrastructure/persistence/versioned_index_writer.py:90-93 | a remove deletes exactly that id, if present, is logged and acknowledged, and leaves the counter below the threshold |
| `VersionedWriter.VersionedIndexWriter.Checkpoint` | cambios/files/app/infrastructure/persistence/versioned_index_writer.py:105-115 | nothing happens without pending operations; otherwise the next version is published with the memory content, the log is empty, and no file older than the previous version remains |
| `VersionedWriter.VersionedIndexWriter.AfterOp` | cambios/files/app/infrastructure/persistence/versioned_index_writer.py:117-120 | below the threshold only the counter changes; at the threshold the call ends in a checkpoint |
| `VersionedWriter.VersionedIndexWriter.PruneOldVersions` | cambios/files/app/infrastructure/persistence/versioned_index_writer.py:133-140 | pruning in any directory order removes exactly the files older than the previous version and touches nothing else |
| `VersionedWriter.WriteAheadLog.Append` | cambios/files/app/infrastructure/persistence/wal.py:27-32 | one line is added to the text of the log, which shows the log of the protocol after its append |
| `VersionedWriter.WriteAheadLog.ReadAll` | cambios/files/app/infrastructure/persistence/wal.py:34-50 | reading the text line by line gives exactly the records the protocol's log has readable, whatever torn writes came before |
| `VersionedWriter.DataDir.DieInAppend` | cambios/files/app/infrastructure/persistence/wal.py:27-32 | a death that leaves any proper part of the line in the file is the protocol's torn append |
| `VersionedWriter.DataDir.FileBounded` | cambios/files/app/infrastructure/persistence/wal.py:27-32 | the log file never has more lines than that bound |
| `VersionedWriter.IndexManifest.Commit` | cambios/files/app/infrastructure/persistence/index_manifest.py:39-46 | the manifest switches to the new version in one effect, with nothing else on disk changed |
| `HotReload.HotReloadingVectorIndex.MaybeReload` | cambios/files/app/infrastructure/persistence/hot_reloading_index.py:64-69 | the undisturbed reload is the composition of the protocol's three read steps, and ends on the manifest's version and snapshot; an unchanged version leaves the index alone |
| `HotReload.SearchesRunOnPublishedSnapshots` | cambios/files/app/infrastructure/persistence/hot_reloading_index.py:49-69 | in every interleaving with a crashing writer in which each open is prompt, a search runs on one complete published snapshot, at least as new as the manifest when it began and as `_loaded_version`; it is the fold of a prefix of the logged operations as long as every crash was harmless |
| `HotReload.PromptOpenIsEnabled` | cambios/files/app/infrastructure/persistence/hot_reloading_index.py:68-68 | a prompt open always succeeds, never on a half-written file |
| `HotReload.ServedVersionNeverDecreases` | cambios/files/app/infrastructure/persistence/hot_reloading_index.py:64-69 | the content version a replica holds never decreases along a run |
| `HotReload.ServedPrefixNeverShrinks` | cambios/files/app/infrastructure/persistence/hot_reloading_index.py:49-69 | the history a replica shows is a prefix of every history it shows later |
| `HotReload.OpenIff` | cambios/files/app/infrastructure/persistence/hot_reloading_index.py:67-69 | in every run, however late the open: it succeeds, and gives the published content if and only if the writer has not unlinked the named file or the content was empty; otherwise an empty index |
| `HotReload.LateOpenServesEmptyIndex` | cambios/files/app/infrastructure/persistence/hot_reloading_index.py:67-69 | a concrete run in which a late open answers a search from an empty index although every version from 1 on holds a vector |
| `WalText.JsonCodecSound` | cambios/files/app/infrastructure/persistence/wal.py:27-30 | compact JSON records satisfy what the log relies on: whole records parse back, and a line holding anything but one whole record does not parse |
| `WalText.JammedRejected` | cambios/files/app/infrastructure/persistence/wal.py:43-49 | a cut record, or any pieces of any number of writes with no newline between them, do not parse |
| `WalText.TornRecordRejected` | cambios/files/app/infrastructure/persistence/wal.py:43-49 | no proper non-empty prefix of a rendered record parses |
| `WalText.JoinedRecordsRejected` | cambios/files/app/infrastructure/persistence/wal.py:43-49 | a record appended directly behind a fragment, or behind a record that lacks its newline, makes a line that does not parse |
| `WalText.WriteShown` | cambios/files/app/infrastructure/persistence/wal.py:27-32 | whatever part of a line a write leaves behind whatever the file ended in, the file shows the log after that write |
| `WalText.ReadShown` | cambios/files/app/infrastructure/persistence/wal.py:34-50 | reading a file gives the readable records of the log it shows |
| `WalText.RoundTrip` | cambios/files/app/infrastructure/persistence/wal.py:27-50 | reading the log gives the operations appended since the last truncate, in order |
| `WalText.TornWrite` | cambios/files/app/infrastructure/persistence/wal.py:34-50 | with any prefix of one more line behind complete lines, reading gives exactly the earlier operations, plus the torn one if at most its newline is missing |
| `WalText.AppendsAfterTornTail` | cambios/files/app/infrastructure/persistence/wal.py:27-50 | what is read back when appends follow a torn line and no truncate comes between, for every cut point and every list of later appends |
| `WalText.AckedSurvivesIff` | cambios/files/app/infrastructure/persistence/wal.py:43-49 | of operations appended after a torn write, with no checkpoint in between, the log keeps all if and only if the crash left none or all of the torn line |
| `WalText.ReadLines` | cambios/files/app/infrastructure/persistence/wal.py:34-50 | the reading loop with its stop at the first bad line computes `ReadText`, the function the round trip and torn-write results are about |
| `WalText.ReadPaddedLine` | cambios/files/app/infrastructure/persistence/wal.py:39-49 | what reading does with any line, whatever white space surrounds it: a blank one is passed over, one that parses is an entry, one that does not ends the reading |
| `RecordFormat.RenderInjective` | cambios/files/app/infrastructure/persistence/wal.py:28-28 | two different operations never render to the same line, if numbers print injectively and without separators |
| `RecordFormat.ParserExists` | cambios/files/app/infrastructure/persistence/wal.py:28-44 | for every such printer of numbers there is a parser that meets the assumptions made on the JSON library |
| `RecordFormat.ValidJsonExists` | cambios/files/app/infrastructure/persistence/wal.py:28-44 | such a printer and parser exist: the assumptions on the JSON library can be met |
| `Tokens.TokenizeConcat` | app/infrastructure/chunking/word_token_counter.py:15-22 | tokenizing is additive wherever the cut falls inside no word |
| `Tokens.TokenizeAcrossSpace` | app/infrastructure/chunking/word_token_counter.py:15-22 | texts separated by any amount of white space tokenize independently |
| `Tokens.StripKeepsTokens` | app/infrastructure/chunking/hybrid_chunker.py:55-58 | stripping changes no token, and what is not empty after stripping has tokens |
| `Tokens.DetokenizeRoundTrip` | app/infrastructure/chunking/hybrid_chunker.py:88-96 | tokenizing the detokenized text of any token list gives that list back |
| `Tokens.DetokenizeNext` | app/infrastructure/chunking/hybrid_chunker.py:88-96 | detokenizing one more token glues it to the text so far if it is punctuation and puts a blank in front of it if it is a word |
| `Tokens.Detokenize` | app/infrastructure/chunking/hybrid_chunker.py:88-96 | the loop that glues punctuation to the part before it computes the joined parts the round trip is about |
| `Tokens.JoinTokens` | app/infrastructure/chunking/hybrid_chunker.py:133-137 | joining units with blanks concatenates their tokens |
| `Normalizer.NormalizeKeepsTokens` | cambios/files/app/infrastructure/parsers/plain_text_normalizer.py:21-25 | normalizing leaves the token sequence of every text unchanged |
| `Normalizer.NormalizeKeepsParagraphs` | cambios/files/app/infrastructure/parsers/plain_text_normalizer.py:8-10 | normalizing leaves the paragraphs: splitting the normalized text at paragraph breaks gives, piece by piece, the tokens that splitting the stripped text gives, once CR LF and CR are newlines |
| `Normalizer.NormalizeIs` | cambios/files/app/infrastructure/parsers/plain_text_normalizer.py:21-25 | the substitutions told by position: each line end becomes one newline, then exactly the blanks in front of a line end and the newlines in front of two more are deleted, and the text is stripped |
| `Normalizer.NormalizeIdempotent` | cambios/files/app/infrastructure/parsers/plain_text_normalizer.py:21-25 | normalizing twice is normalizing once: no pass recreates what an earlier one removed |
| `Normalizer.FixedPointsAreNormal` | cambios/files/app/infrastructure/parsers/plain_text_normalizer.py:17-25 | a text is left alone if and only if it has no carriage return, no blank before a newline, no three newlines in a row and nothing to strip |
| `Normalizer.NormalizedIsNormal` | cambios/files/app/infrastructure/parsers/plain_text_normalizer.py:21-25 | every normalized text is in that normal form |
| `Splitting.FindIsLeftmostLongest` | app/infrastructure/chunking/hybrid_chunker.py:20-20 | the paragraph search finds the leftmost match of the pattern and the longest one there, or nothing only when there is no match |
| `Splitting.ParagraphsHaveNoBreak` | app/infrastructure/chunking/hybrid_chunker.py:55-55 | no piece of the paragraph split contains a paragraph break |
| `Splitting.SplitCutsAtMatches` | app/infrastructure/chunking/hybrid_chunker.py:20-21 | a text is cut at matches only: it is the pieces of its split with paragraph breaks, or white space behind sentence ends, between them |
| `Splitting.ParagraphsAre` | app/infrastructure/chunking/hybrid_chunker.py:20-20 | the paragraph split has the tokens of the paragraphs as read off the text, where white space with two newlines in it starts a new one |
| `Splitting.FindIsLeftmostGap` | app/infrastructure/chunking/hybrid_chunker.py:21-21 | the sentence search finds the leftmost white space behind a sentence end and takes all of it |
| `Splitting.SentencesHaveNoGap` | app/infrastructure/chunking/hybrid_chunker.py:67-67 | no piece of the sentence split has white space behind a sentence end inside it |
| `Splitting.SplitKeepsTokens` | app/infrastructure/chunking/hybrid_chunker.py:20-21 | splitting at blank lines or after sentence ends loses, repeats and reorders no token |
| `Splitting.UnitsCarryTokens` | app/infrastructure/chunking/hybrid_chunker.py:53-86 | the units carry exactly the tokens of the text in order, each unit between 1 and `max_tokens` of them |
| `Splitting.UnitsAre` | app/infrastructure/chunking/hybrid_chunker.py:53-86 | exactly these texts are units: paragraphs of at most `max_tokens`; of longer paragraphs the sentences of at most `max_tokens`; of longer sentences the runs of `max_tokens` tokens, the last one shorter |
| `Splitting.UnitsRespectParagraphs` | app/infrastructure/chunking/hybrid_chunker.py:53-86 | no unit contains a paragraph break |
| `Splitting.HardPiecesAreFull` | app/infrastructure/chunking/hybrid_chunker.py:77-86 | all pieces of a hard split but the last have exactly `max_tokens` tokens |
| `Windows.Coverage` | app/infrastructure/chunking/hybrid_chunker.py:100-158 | windows cover all units; ends strictly increase, starts never decrease; each overlap reaches its rounded target with no unit more than that takes; ratio 0 tiles without gap; every window but the last reaches `min_tokens` |
| `Windows.WindowsAreGreedy` | app/infrastructure/chunking/hybrid_chunker.py:109-130 | counting all it holds, repeated tokens included, every window takes a new unit and ends at the first point behind it where it is full, or large enough with the next unit overflowing it |
| `Windows.SegmentSizeBound` | app/infrastructure/chunking/hybrid_chunker.py:100-158 | every window has fewer than 2*max/(1-r) tokens, and at most max+min-1 when r is 0 |
| `Windows.GrowEndIsFirstStop` | app/infrastructure/chunking/hybrid_chunker.py:114-130 | a segment ends at the first unit behind its forced one where it is full, or large enough with the next unit overflowing, or the text is over, and nowhere else |
| `Windows.RoundIs` | app/infrastructure/chunking/hybrid_chunker.py:147-147 | rounding gives the nearest integer, and of two nearest the even one |
| `Windows.TargetIs` | app/infrastructure/chunking/hybrid_chunker.py:147-147 | the overlap target is the product of segment size and ratio, rounded that way |
| `Chunker.HybridChunker.Chunk` | app/infrastructure/chunking/hybrid_chunker.py:45-49 | the segments are those of all windows over the units of the text, in order, spans by prefix sums |
| `Chunker.HybridChunker.BuildUnits` | app/infrastructure/chunking/hybrid_chunker.py:53-60 | the paragraph loop computes the units that `UnitsCarryTokens` is about |
| `Chunker.HybridChunker.SplitParagraph` | app/infrastructure/chunking/hybrid_chunker.py:62-75 | a paragraph within the limit is kept whole; of a longer one exactly the short sentences and the token runs of the long ones become units |
| `Chunker.HybridChunker.HardSplit` | app/infrastructure/chunking/hybrid_chunker.py:77-86 | the hard split cuts the tokens into consecutive runs of `max_tokens`, the last one shorter |
| `Chunker.HybridChunker.AssembleSegments` | app/infrastructure/chunking/hybrid_chunker.py:100-144 | the two nested loops with their running counters produce exactly the windows whose coverage and size are proved |
| `Chunker.HybridChunker.TakeUnits` | app/infrastructure/chunking/hybrid_chunker.py:110-130 | the inner loop takes at least one unit and stops exactly where the greedy rule says, with the token counter right |
| `Chunker.HybridChunker.TrailingOverlap` | app/infrastructure/chunking/hybrid_chunker.py:146-158 | the overlap is the suffix of the window that first reaches the rounded target, with its token count |
| `Chunker.SpanTruth` | app/infrastructure/chunking/hybrid_chunker.py:132-140 | for every text and segment, the tokens of the segment are the tokens of the text between the ends of its span; orders count from 0 |
| `Chunker.SegmentJoinsUnits` | app/infrastructure/chunking/hybrid_chunker.py:132-140 | the text of a segment is a run of consecutive units with blanks between them, starting at the token where the span does |
| `Chunker.SpansCover` | app/infrastructure/chunking/hybrid_chunker.py:100-158 | spans run from 0 to the token count, ends strictly increase, starts never decrease, each next start is at most the previous end minus the rounded share, gap-free when the ratio is 0, and all but the last have `min_tokens`; no segments exactly when there are no tokens |
| `Chunker.SegmentSizes` | app/infrastructure/chunking/hybrid_chunker.py:114-130 | every segment of every text has fewer than 2*max/(1-r) tokens, and at most max+min-1 when r is 0 |
| `Chunker.SegmentsWithinMax` | app/infrastructure/chunking/hybrid_chunker.py:114-130 | if no unit of the text exceeds a size the parameters allow, no segment exceeds `max_tokens` |
| `SegmentLimits.UnitCountsOfText` | app/infrastructure/chunking/hybrid_chunker.py:53-75 | for all token counts up to `max_tokens` there is a text whose units have exactly those counts |
| `SegmentLimits.MaxIsLimitIff` | app/infrastructure/chunking/hybrid_chunker.py:109-158 | all segments of all texts with units of up to `unit` tokens stay within `max_tokens` if and only if the parameters satisfy a condition that mentions no text |
| `SegmentLimits.DefaultLimitIs200` | app/infrastructure/chunking/hybrid_chunker.py:28-34 | under the default parameters that condition is: no unit above 200 tokens |
| `SegmentLimits.TwoLongParagraphsOverflow` | app/infrastructure/chunking/hybrid_chunker.py:28-34 | two paragraphs of 500 words give a second segment of 1000 tokens under the default parameters |
| `Jobs.FinishKeepsIdentity` | cambios/files/app/domain/entities/job.py:30-65 | a job can only be finished when RUNNING; it becomes DONE with the result or FAILED with the error, and nothing else of it changes |
| `Jobs.StepKeeps` | cambios/files/app/application/jobs/job_service.py:68-100 | every effect of API, Redis and worker, and a crash at any point, keeps the invariant over records, stream, pending messages and worker |
| `Jobs.AtMostOnce` | cambios/files/app/application/jobs/job_service.py:84-100 | over all crashes, redeliveries and expiries each job's use case is entered at most once |
| `Jobs.RecordsMoveForward` | cambios/files/app/domain/entities/job.py:30-65 | along every run a record moves PENDING, RUNNING, one terminal state, and then never changes again |
| `Jobs.StoreShowsLastRecord` | cambios/files/app/infrastructure/jobs/redis_jobs.py:31-40 | what the store shows for a job is the record last saved, or nothing |
| `Jobs.AckedMeansSettled` | cambios/files/app/workers/indexer_worker.py:38-47 | a message is acknowledged only if its job's record is terminal or absent, and that stays so |
| `Jobs.RedeliveredStuck` | cambios/files/app/application/jobs/job_service.py:89-90 | a redelivered message whose record is RUNNING or terminal is never acknowledged, executed or changed, whatever happens short of expiry |
| `Jobs.PendingIsExecuted` | cambios/files/app/application/jobs/job_service.py:84-100 | a redelivered message whose record is still PENDING can be executed once, with any outcome, and acknowledged |
| `Jobs.AbsentIsDropped` | cambios/files/app/workers/indexer_worker.py:40-47 | a redelivered message whose record is absent is dropped by an acknowledgement |
| `Jobs.RedeliveryIff` | cambios/files/app/workers/indexer_worker.py:10-12 | a redelivered message can ever be acknowledged without its record expiring if and only if the record is absent or PENDING |
| `Jobs.CrashAfterStartStrands` | cambios/files/app/application/jobs/job_service.py:89-97 | a concrete run that ends with a RUNNING record, a pending message and a use case that was never entered |
| `JobService.JobService.Submit` | cambios/files/app/application/jobs/job_service.py:68-72 | the PENDING record with the given tenant, kind and payload and neither result nor error is saved before its message is enqueued, two separate effects |
| `JobService.JobService.Execute` | cambios/files/app/application/jobs/job_service.py:84-100 | exactly a missing record is unknown, exactly a non-PENDING one is an invalid transition; otherwise the use case is entered once and the record becomes DONE with its result or FAILED with its error |
| `JobService.RedisJobs.ReadOne` | cambios/files/app/infrastructure/jobs/redis_jobs.py:84-105 | an idle pending message is claimed first, else the next new message becomes pending, else nothing changes |
| `JobService.RunWorkerLoop` | cambios/files/app/workers/indexer_worker.py:26-47 | each round takes and acknowledges one message or finds the stream fully delivered; the loop dies only on an invalid transition and leaves that message pending |
| `Stores.StepKeeps` | cambios/files/app/application/indexing/indexing_pipeline.py:86-162 | every store write of indexing and deleting, and a crash after any of them, keeps the three stores consistent |
| `Stores.DocumentsAreComplete` | cambios/files/app/application/indexing/indexing_pipeline.py:86-162 | in every reachable state a document has chunk rows 0..n-1 and no others, each with a vector, if and only if no delete took a vector from it; no tenant has two documents of one content |
| `Stores.RetryIsNotDuplicate` | cambios/files/app/application/indexing/indexing_pipeline.py:91-100 | a crash before the document row is written never makes a retry report a duplicate |
| `Stores.DeletedLeavesNoTrace` | cambios/files/app/application/indexing/document_deleter.py:33-46 | after a completed delete no run brings back a row, chunk or vector of that document |
| `Stores.DeleteCanBeRerun` | cambios/files/app/application/indexing/document_deleter.py:33-46 | from every reachable state with the row still there, crashed deletes included, a delete can be run to completion and then leaves no trace |
| `Stores.HalfDeletedBlocksUpload` | cambios/files/app/application/indexing/document_deleter.py:38-42 | a concrete run after which a new upload is a duplicate of a document without vectors |
| `Indexing.IndexingPipeline.Index` | cambios/files/app/application/indexing/indexing_pipeline.py:86-162 | empty exactly when the text has no tokens, duplicate exactly when the tenant has this normalized content, in a document that is complete if and only if no delete touched it; otherwise the rows are those of all segments, each a true slice of the text with its own embedding, and no other document is touched |
| `Indexing.IndexingPipeline.Write` | cambios/files/app/application/indexing/indexing_pipeline.py:131-154 | vectors, then chunk rows, then the document row, each one effect |
| `Indexing.NormalizedHasTokens` | cambios/files/app/application/indexing/indexing_pipeline.py:87-89 | a text normalizes to nothing exactly when it has no tokens, so the later "no segments" error cannot occur |
| `Indexing.SegmentsAreSlices` | cambios/files/app/application/indexing/indexing_pipeline.py:119-129 | a chunk made of a segment of the normalized text is a slice of the original text's tokens |
| `Indexing.DocumentDeleter.Delete` | cambios/files/app/application/indexing/document_deleter.py:33-46 | deletes exactly a document of that tenant, leaves no row, chunk or vector of it and everything of other documents as it was |
| `Aggregation.DedupeFacts` | app/application/search/result_aggregator.py:38-45 | each hit chunk is kept once, in the order of first hits, with a hit of the list that no other of its chunk beats |
| `Aggregation.GroupAllFacts` | app/application/search/result_aggregator.py:27-32 | groups are exactly the documents with a known hit, once each, with all their hits in order |
| `Aggregation.GroupAllInOrder` | app/application/search/result_aggregator.py:27-32 | groups stand in the order in which their documents are first met |
| `Aggregation.SortByFacts` | app/application/search/result_aggregator.py:35-53 | sorting is a stable descending permutation |
| `Aggregation.AggregateSpec` | app/application/search/result_aggregator.py:20-61 | one match per document with a known chunk, sorted by best score; each has every such chunk once at its maximum, sorted; best and maximum are over all hits of the document; the average is that of the kept hits and lies between the lowest and the highest; of equal scores, at both levels, what was hit first comes first; unknown chunks vanish |
| `Aggregation.TotalIsSum` | app/application/search/result_aggregator.py:54-58 | the total behind the average is the score of a single hit, and additive over all lists of hits |
| `Aggregation.AggregateIdempotent` | app/application/search/result_aggregator.py:20-45 | hits repeated by overlapping segments change nothing: aggregating h + h is aggregating h |
| `Aggregation.ResultAggregator.Aggregate` | app/application/search/result_aggregator.py:20-36 | the loops over dictionaries compute the aggregation that `AggregateSpec` specifies |
| `Search.AllowlistExact` | app/application/search/candidate_filter.py:32-49 | the allowlist is unrestricted only without any signal, and otherwise holds exactly the chunks whose document row is the tenant's, in the detected language if there is one, and on the topic if its confidence reaches the threshold |
| `Search.SearchPipeline.Search` | app/application/search/search_pipeline.py:42-62 | whatever the index returns for any segment of the query within the chunks of qualifying documents is in the match of its document, at no lower score, and a match holds nothing else; every match is a qualifying document with its own chunks; nothing qualifies, nothing matches |
| `Search.SearchableChunks` | app/application/search/candidate_filter.py:42-49 | in every reachable store state allowed chunks belong to a document of the tenant and language, and all chunks of an undeleted qualifying document are allowed and have a vector |
| `SearchCache.FullKeyInjective` | cambios/files/app/infrastructure/cache/in_memory_search_cache.py:63-65 | for colon-free keys the full key determines tenant, generation and key |
| `SearchCache.ColonKeysCollide` | cambios/files/app/infrastructure/cache/in_memory_search_cache.py:63-65 | with a colon in the key two tenants can share an entry |
| `SearchCache.LatestIs` | cambios/files/app/infrastructure/cache/in_memory_search_cache.py:53-61 | the ideal cache holds a value exactly when some put of it is the last put or invalidation that concerns the key |
| `SearchCache.LastUseIs` | cambios/files/app/infrastructure/cache/in_memory_search_cache.py:50-56 | the last use of an entry is the position of the last put or read of it in the history |
| `SearchCache.FrontIsLeastRecent` | cambios/files/app/infrastructure/cache/in_memory_search_cache.py:57-58 | the entry at the eviction end was last used before every other |
| `SearchCache.InMemorySearchCache.Get` | cambios/files/app/infrastructure/cache/in_memory_search_cache.py:41-51 | a hit is the value last put since the tenant's last invalidation, less than the time to live ago; it hits exactly when that entry is held and fresh, and an expired one is dropped |
| `SearchCache.InMemorySearchCache.Put` | cambios/files/app/infrastructure/cache/in_memory_search_cache.py:53-58 | the new value is the latest and most recently used; at most one entry goes, only from a full cache, and it was used before every entry that stays |
| `SearchCache.InMemorySearchCache.InvalidateTenant` | cambios/files/app/infrastructure/cache/in_memory_search_cache.py:60-61 | no entry of the tenant can be hit any more, and what other tenants can hit stays |
| `Embeddings.EmbeddingCache.Get` | app/infrastructure/embeddings/embedding_cache.py:25-30 | a hit returns the stored vector of exactly that namespace and text and moves it to the recently used end, all other entries in their order; a miss changes nothing |
| `Embeddings.EmbeddingCache.Put` | app/infrastructure/embeddings/embedding_cache.py:32-37 | the entry goes to the recently used end, in place of one of its key; only a new key in a full cache makes another leave, exactly the least recently used one; all others keep their order |
| `Embeddings.BatchEncoder.EncodePassages` | app/infrastructure/embeddings/batch_encoder.py:34-56 | one vector per text in order, each what embedding that text alone gives, whatever was cached or evicted; the model sees exactly the misses, once each, in order, in full batches; afterwards the cache holds as many of the last misses as fit in it |
| `Embeddings.BatchEncoder.EncodeQuery` | app/infrastructure/embeddings/batch_encoder.py:58-67 | the query embedding, cached or not, never a passage embedding of the same text; afterwards it is the most recently used entry |

## Left out

- HTTP routes, schemas, application factory, settings, deployment: wiring and I/O.
- Vector search itself, embedding models, language and topic detection, PDF and document parsers: foreign code, here functions or maps; `Search` assumes of the vector index only that hits are stored, allowed and at most k.
- Plagiarism scorer, verdicts, reranker, shingles, SimHash, institution and scanned-PDF heuristics: float formulas and single branches, not modelled.
- Argument checks of constructors (`checkpoint_every_ops`, chunker parameters, batch and cache sizes): the `ValueError` conditions are the constructors' preconditions.
- An `add` the inner index would reject after it was logged: `add` arguments are taken to be well formed.
- A writer restarted with another `checkpoint_every_ops`, several writers on one directory, several job workers: the design has one of each.
- A restart of a read replica: each run follows one replica from its first load.
- Log lines that are valid JSON but no record of the writer, and lines mangled other than by a torn write.
- fsync, rename and file bytes: an append is durable when it returns and the manifest switch is atomic; log lines are split at newlines only.
- Rounding of floating-point numbers: overlap ratio, scores and clock readings are real numbers; vector components are opaque.
- The snapshot at the end of indexing and deleting: vectors are durable when `add` returns, as behind the log; with the plain index they are durable only at the snapshot.
- Hash functions: content hashes, chunk ids and cache keys are taken to be injective and uuids to be fresh.
- SQLAlchemy repositories and foreign keys: tables are maps; `cambios/files/app/infrastructure/metadata/orm.py:59` declares a key that the chunks-before-document order would break on an enforcing database.
- The Redis search cache, and concurrent use of the in-process one: get, search and put of a request are not atomic with an invalidation.
- Liveness of jobs: nothing says that a message is ever read; timestamps of records are not modelled.
- Side effects of a use case run by a job, and the cache invalidation after it: a use case is a function from the job to a result or an error, its effects on the stores are the subject of `Indexing`.
- `JobService.get`, `submit_*` payloads and the HTTP view of jobs: one tenant comparison and record building.
- JobService.RunWorkerLoop: runs for a given number of rounds, because `should_stop` decides from outside; which idle messages may be reclaimed in a round is an argument.
- SearchCache.InMemorySearchCache.Get: keys contain no colon, as the hex digests of the search route do; `ColonKeysCollide` shows what happens otherwise.
- SearchCache.InMemorySearchCache.Put: keys contain no colon, for the same reason.
- HotReload.HotReloadingVectorIndex.MaybeReload: the manifest's snapshot can be loaded, which `ManifestNamesCompleteSnapshot` proves of every reachable directory; a load that raises for other reasons is not modelled.
- HotReload.SearchesRunOnPublishedSnapshots: assumes at most one version is published between naming and opening a file; `OpenIff` and `LateOpenServesEmptyIndex` show what happens otherwise.
