# DevSignal: verified models of the pipeline, the merge protocol and their neighbours

DevSignal is a Postgres-backed work queue served by uncoordinated workers, with a
merge protocol that folds duplicate postings together, an ingest loop that closes
postings it stops seeing, a keyset feed, refresh-token families and a
tamper-evident audit log. This project models those parts and proves what they
are relied on for. `dafny verify dfyconfig.toml` checks everything.

## How the models are built

*One SQL statement is one atomic step*, and a transaction is a sequence of them. Under READ COMMITTED a statement sees what
has been committed and its own transaction's writes. Where interleaving is the
point there is a state machine: any event may follow any other, and what a worker
holds may be arbitrarily old. In the merge machine, the queue and the extraction
cache an event is one statement; in the liveness and refresh machines it is one
transaction (`Ingest.Store.UpsertPosting` runs that of a posting statement by
statement). A theorem about "every run" is about every finite sequence of events.

*Code that works by changing things is a class or a loop.* `MergeStore.Database`,
`PipelineQueue.Queue`, `PipelineWorker.Worker`, `SweepFairness.Sweeper`, `Ingest.Store`,
`RefreshFamilies.Service`, `AuditChain.Auditor` and `ExtractionCache.Cache` keep
the tables as fields. What runs as a whole (a merge, a claim, a stage handler, an item,
a batch, a turn of the worker's loop, a requeue, an upsert, a poll, a refresh, an
extraction) is proved to be a step or a run of its machine; the queue's single
statements (`AdvanceState`, `Advance`, `Fail`, `Release`) are given by what they do to
a row. The signature, the tokenizer, the insertion sort, the page builder and
the chain check are methods with loops proved against a function, and the results
are then proved about that function.

| file | what it models |
|---|---|
| `MergeForest`, `MergeProtocol`, `MergeRuns` | ledgers and forests; the merge statements; theorems over all runs |
| `MergeStore`, `DedupeHandle`, `BlockSweep` | the merge transaction, the deduper's handler and the block sweep as code |
| `Stages`, `Pipeline`, `PipelineRuns`, `PipelineProgress` | the states, the queue statements, invariants and bounds over all runs |
| `PipelineQueue`, `PipelineWorker` | queue, stage handlers and worker as code |
| `SweepFairness` | the sweeper of stranded rows, over runs of the same machine |
| `Tokenizer`, `SimHash`, `Decide` | text to tokens, tokens to signature, the decision cascade |
| `LocationText`, `Scope` | location text to fragments; country scopes: collection, sorting, storage, comparison, search |
| `Liveness`, `Ingest` | absence-based closing as a machine, and the poll that drives it |
| `Feed` | keyset pagination over a changing table |
| `RefreshFamilies`, `AuditChain`, `ExtractionCache` | token rotation and replay, the hash chain, the write-once cache |
| `Options`, `Lists`, `Text` | shared vocabulary |

Parameters stand for what is computed elsewhere: the advisory-lock hash, the
shingle hash, the digest, lower-casing of one code point, the derivation that
normalization performs, the country table, the extraction codec, and the rows a
query with LIMIT or SKIP LOCKED happens to pick. Every result holds for all values
of them. Where one must satisfy something it is a named precondition
(`LowerCases`, `FixedLength`, `RoundTrips`, `FreshIds`).

## What the proofs brought to light

- **A merge cycle is possible when block keys move.** The lock and the recheck
  prevent A -> B -> A as long as a row that a merge has rechecked is in the block the
  merge has locked, and stays there until it commits (`MergeProtocol.KeyStable`). A
  content update followed by normalization can move a row between the candidate read
  and the recheck; the recheck does not look at the block, and two workers can lock
  different keys and commit a cycle (`MergeRuns.MovingRowsCanFormACycle`). Without the
  assumption the exact condition is `MergeRuns.ForestIffCommitsAreGuarded`.
- **The comment that the handler merges into the older row is not what it does.**
  It merges the row it was given into the first candidate that matches
  (`DedupeHandle.OlderMergesIntoNewer`); only the sweep orders by age.
- **A block that lists one row twice stops the sweep.** `ListBlockMembers` joins
  source rows, so a row that has absorbed another is listed once per source, and a
  row with a content hash matches itself (`Decide.RowsMatchThemselves`). The
  self-merge is refused by `opp_merge_not_self` and the sweep of that block is
  abandoned, exactly when the list has a row that survives, is unmerged and matches
  itself (`BlockSweep.SweepOne`); two sources are enough
  (`BlockSweep.TwoSourcesStopTheSweep`).
- **`FindCanonicalByATS` can never link.** When it finds a row, the unique index
  `idx_opp_source_ats` (migrations/000005_opportunity.up.sql:156) refuses the second
  source row, so the posting is skipped on every poll (`Liveness.LinkingAlwaysFails`,
  `Liveness.RefusedForEver`).
- **The sweeper can take a row from a worker.** `SweepStranded` and
  `RequeueStranded` are two statements outside a transaction, and the second is
  guarded by id alone: a row claimed in between loses its running lease and can be
  claimed a second time (`PipelineRuns.RequeueAllowsASecondClaim`,
  `PipelineRuns.TwoWorkersCanHoldOneRow`). Only one of the two can advance it
  (`PipelineRuns.EachVersionAdvancesOnce`), so the work is doubled, not its effect.
- **"Remoteville" does become "ville".** The length test that is meant to keep
  `stripModeWords` from cutting into longer words always holds
  (`LocationText.TheGuardAlwaysHolds`, `LocationText.RemotevilleBecomesVille`).
- **`titlesAgree` depends on the order of its arguments** for equally long titles
  of which one repeats a token (`Decide.OrderMattersIff`, `Decide.OrderCanMatter`).
- **`ParseLocation` loses the scope** of a text that names several countries and
  gives neither a work mode nor a city (`Scope.ForgettingLosesCountriesIff`).
- **`MaxAttempts` must be positive.** With zero, one stale failure parks a row
  that is already `ready` (`PipelineRuns.StaleFailureParksReadyIff`,
  `PipelineRuns.ReadyRowsCanBeParked`).
- **A shutdown has nothing to release.** `process` waits for its whole batch, so
  `inFlight` is empty whenever `releaseOutstanding` runs (`PipelineWorker.Worker.Turn`).
- **A row the deduper yields on keeps its lease**, like one it merges away: on a
  conflict the worker writes nothing, so the row waits until the lease has run out
  (`PipelineWorker.SettledIff`).
- **An unreadable cache row is never repaired**: the insert that would replace it
  does nothing, so every later request pays again (`ExtractionCache.UnreadableRowsStay`).
- **The audit chain does not notice truncation**, nor a change of the actor, the
  tenant or the stored `prev_hash`, although the migration says the chain detects
  deletion (`AuditChain.TruncationGoesUnnoticed`, `AuditChain.UnhashedColumnsGoUnnoticed`).

## Model

| member | source | states |
|---|---|---|
| `MergeRuns.MergesFormAForest` | internal/stages/dedupe.go:113-177 | for any number of workers, any interleaving of lock, recheck, move, mark, record and commit, and any staleness of the lists: `merged_into` is acyclic and every chain ends in an unmerged row |
| `MergeRuns.SourcesFollowTheForest` | internal/store/query/stages.sql:48-64 | every source row belongs to the unmerged row at the end of the chain that starts at the row it first came in with, so merged rows own none |
| `MergeRuns.SourcesAreNeverLost` | internal/store/query/stages.sql:48-54 | no run, whatever the block keys do, drops a source row |
| `MergeRuns.LedgerMatchesTheForest` | internal/store/query/stages.sql:56-64 | replaying `opportunity_merge` gives `merged_into` back; exactly one record per merged row, counting the source rows that then hung below it |
| `MergeRuns.ForestIffCommitsAreGuarded` | internal/stages/dedupe.go:122-172 | with no assumption on block keys: a run ends without a cycle if and only if none of its commits linked a row to one that already led back to it |
| `MergeRuns.StepKeepsRowLocks` | internal/store/query/stages.sql:56-58 | in every run, re-keyed or not, a row has at most one open merge that has marked it, and is unmerged until that merge commits |
| `MergeRuns.MovingRowsCanFormACycle` | internal/stages/dedupe.go:122-141 | the assumption is needed: for any two keys the lock hash separates there is a run that commits a cycle |
| `MergeProtocol.StepKeepsInv` | internal/stages/dedupe.go:113-177 | every statement of every worker keeps the invariant that ties lock, recheck, pending writes, ledger and owners together, provided a side of an open merge is in the locked block from its recheck on |
| `MergeProtocol.WorkersHoldWhatTheyRead` | internal/store/query/stages.sql:76-92 | a worker can merge what it has read so far, until it is done; reading changes no table |
| `MergeForest.ChainsEndInRoots` | internal/store/query/stages.sql:56-64 | in a sound ledger every chain of links ends, within one hop per record, in an unmerged row |
| `MergeForest.SoundLedgersAreAcyclic` | internal/store/query/stages.sql:94-101 | links between rows that were both unmerged when linked never close a cycle |
| `MergeForest.OneRecordPerMergedRow` | internal/store/query/stages.sql:60-64 | a row is linked if and only if the ledger has a record for it, and then exactly one, naming the same target |
| `MergeForest.LinkKeepsAcyclicIff` | internal/stages/dedupe.go:122-125 | a new link keeps a forest acyclic if and only if its target does not lead back to its source |
| `MergeStore.Database.Merge` | internal/stages/dedupe.go:113-177 | while no other worker holds the block's lock, wherever merges of other blocks are: the transaction merges, yields when a side is already merged, or is refused for a self-merge; anything but a merge leaves the tables as they were |
| `MergeStore.OtherBlocksOtherRows` | internal/stages/dedupe.go:122-130 | merges of other blocks that are under way have touched neither the row nor its source rows |
| `MergeStore.Database.MoveSourceRows` | internal/store/query/stages.sql:48-54 | moves exactly the source rows of the merged row and returns how many |
| `MergeStore.Database.MarkMerged` | internal/store/query/stages.sql:56-58 | touches the row only while it is unmerged |
| `MergeStore.Database.RecordMerge` | migrations/000010_dedupe.up.sql:28 | the ledger refuses a row that merges into itself |
| `MergeStore.MergeKeepsInv` | internal/stages/dedupe.go:113-177 | a committed merge keeps the protocol's invariant, links one row, moves its sources and appends one record |
| `MergeStore.EarlierIsAnOrder` | internal/store/query/stages.sql:117-127 | a block is listed by first sighting and then by id, a strict order |
| `DedupeHandle.Handle` | internal/stages/dedupe.go:41-111 | at most one merge, of the handled row into its first automatic match; the row proceeds if and only if nothing matches; a conflict changes nothing; exactly the doubtful pairs met before the match are queued; the ledger's new record goes into an older row if and only if the first automatic match is older |
| `DedupeHandle.WhatIsDoneAboutAPair` | internal/dedupe/decide.go:61-98 | a pair judged the same is merged from a confidence of 75 hundredths on and queued below it |
| `DedupeHandle.OlderMergesIntoNewer` | internal/stages/dedupe.go:100-105 | a call of the handler on a database of two rows with one content hash merges the older into the newer |
| `BlockSweep.SweepOne` | internal/stages/dedupe.go:240-285 | on any list: the sweep gives up if and only if a row that no surviving earlier row matches is unmerged and matches another entry of itself; if it does not, exactly the rows a survivor matches are dropped; a dropped row is merged or in conflict; every merge goes from a later to a strictly earlier row. On a clean list: no automatic match is left among survivors, every removed row went straight into a survivor, doubtful survivors are queued |
| `BlockSweep.SweepPair` | internal/stages/dedupe.go:264-283 | one comparison skips, queues, merges, drops in conflict, or gives up, with its exact effect on tables, dropped rows and queue |
| `BlockSweep.FinishedSweep` | internal/stages/dedupe.go:255-284 | a sweep that goes through to the end met no row it had to stop at, and on a clean list has reached the fixpoint |
| `BlockSweep.TwoEntriesStopIff` | internal/store/query/stages.sql:117-127 | a list of two entries of one row stops the sweep if and only if the row is unmerged and the entries match |
| `BlockSweep.TwoSourcesStopTheSweep` | internal/store/query/stages.sql:117-127 | one unmerged row with a content hash and two source rows stops the sweep of its block |
| `Stages.PathIsALine` | internal/pipeline/state.go:27-49 | a state has a successor if and only if it is not terminal, and the successor is one step nearer to `ready` |
| `Stages.PathIsFollowed` | internal/pipeline/state.go:9-70 | the eight states in their order, which of them are terminal, and that only extraction and embedding are optional |
| `PipelineRuns.DerivedFieldsAreFresh` | internal/stages/normalize.go:32-80 | in every reachable state a row past normalization carries the derivation of its current content, although the handler reads the row in a separate statement |
| `PipelineRuns.ReadyRowsShowTheLastPosting` | internal/store/query/ingest.sql:19-49 | from the events alone: in every run a row holds the content of the last posting ingestion stored for it, and past normalization exactly what that posting derives to |
| `PipelineRuns.UpdatedRowsStartOver` | internal/store/query/ingest.sql:34-49 | a content update stores title, work mode and content as they came, leaves what only normalization writes, and starts the row over at `parsed` with all its attempts, claimable unless a lease still runs |
| `PipelineRuns.NewRowsWait` | internal/store/query/ingest.sql:19-32 | a new row holds its posting, has all its attempts, and is claimable at once |
| `PipelineRuns.ClaimsTakeABatch` | internal/store/query/pipeline.sql:6-27 | a claim takes at most a batch, of rows in its state, unmerged, due, and under no running lease |
| `PipelineRuns.MarkedOnce` | internal/store/query/stages.sql:56-58 | merging a row away marks it under a new version, once |
| `PipelineRuns.AdvancesAreLogged` | internal/pipeline/queue.go:98-117 | the history the next row speaks of is complete: a step appends the advance of a row if and only if it takes that row to the next state |
| `PipelineRuns.VersionsGuardContent` | internal/store/query/ingest.sql:34-49 | content and derived fields change only under a new version |
| `PipelineRuns.StepKeepsInv` | internal/store/query/pipeline.sql:6-80 | claims, advances, failures, releases, sweeps, content updates and merges all keep freshness, `ready` without attempts, and the history of advances |
| `PipelineRuns.EachVersionAdvancesOnce` | internal/pipeline/queue.go:98-117 | across all workers and all three advancing statements no version of a row is advanced twice, and every advance is an edge of the happy path |
| `PipelineRuns.RanksNeverFall` | internal/store/query/pipeline.sql:29-60 | between content updates a row's stage and version never go back, and `ready` and `failed_permanent` are final despite the unguarded statements |
| `PipelineRuns.StaleFailureParksReadyIff` | internal/store/query/pipeline.sql:44-53 | a stale failure moves a ready row if and only if the attempt limit is zero |
| `PipelineRuns.ReadyRowsCanBeParked` | internal/store/query/pipeline.sql:44-53 | with a zero limit such a state is reached: an item outlives its lease, others take its row to `ready`, and its failure parks it |
| `PipelineRuns.StaleItemsCannotAdvance` | internal/store/query/pipeline.sql:29-60 | exactly what an item of an older version can do to its row: a failure backs off or parks, a release sheds the lease and an attempt, everything else leaves it untouched |
| `PipelineRuns.MergedRowsNeverAdvance` | internal/stages/dedupe.go:106-108 | once a row is merged away no item of it ever advances it in any later run, and it stays merged |
| `PipelineRuns.LiveLeaseIsLostIff` | internal/store/query/pipeline.sql:29-80 | a running lease ends early if and only if the row is advanced, an item of it fails or is released, or the sweeper requeues it |
| `PipelineRuns.RequeueAllowsASecondClaim` | internal/store/query/pipeline.sql:77-80 | while a lease runs a second worker can claim the row right after a requeue if and only if the row was on the sweeper's list; both then hold one version |
| `PipelineRuns.TwoWorkersCanHoldOneRow` | internal/pipeline/queue.go:159-182 | a run that does it: the row waits longer than the threshold, the sweep's select returns it, a worker claims it, the sweep requeues it, a second worker claims it |
| `PipelineRuns.FailedRowsWait` | internal/store/query/pipeline.sql:44-53 | a failed row can be claimed again if and only if it has attempts left, is not merged, and its backoff is over |
| `PipelineRuns.BackoffGrowsToItsCeiling` | internal/pipeline/queue.go:135-146 | the base after the first failure, twice the last wait after each further one, up to the ceiling; it never shrinks, and without a base it is the ceiling |
| `PipelineProgress.RoundMakesProgress` | internal/pipeline/worker.go:110-149 | every claim and outcome lowers (steps left, attempts left), or ends the row's journey |
| `PipelineProgress.RunSpendsClaims` | internal/store/query/pipeline.sql:12-53 | over runs of the whole machine in which each claim of a row is resolved before the next and its content is stable: claims made plus claims left never exceed the claims the row had left at the start |
| `PipelineProgress.ClaimsAreBounded` | internal/store/query/pipeline.sql:12-53 | from any state in step, at most MaxAttempts claims per remaining stage, less the attempts already spent |
| `PipelineProgress.SevenTimesMaxAttempts` | internal/store/query/pipeline.sql:12-53 | in every such run from the start, with ticks, sweeps, merges and other workers in between, at most 7 * MaxAttempts claims of a row, and fewer while it still waits to be claimed |
| `PipelineProgress.DegradableFailuresNeverPark` | internal/pipeline/state.go:52-70 | in every such run, a row whose failures all happen in degradable states is never parked |
| `PipelineProgress.ClaimAndOutcomeAreARound` | internal/pipeline/worker.go:110-149 | a round is what the statement-level machine does for a claim and its outcome, with anything else in between |
| `PipelineQueue.Queue.Claim` | internal/pipeline/queue.go:75-96 | the machine's claim of the rows the engine picked: items carry the version and the attempts of the claimed rows, and only those rows are leased |
| `PipelineQueue.Queue.Advance` | internal/pipeline/queue.go:98-117 | advances if and only if version and state still match; otherwise the table is untouched |
| `PipelineQueue.Queue.Release` | internal/pipeline/queue.go:150-157 | gives back the lease and the attempt of exactly the listed rows |
| `PipelineQueue.Queue.Normalize` | internal/stages/normalize.go:32-80 | given the row as it was read at any earlier time, one guarded write of its derivation that also advances, or nothing; the step the machine takes |
| `PipelineQueue.Queue.HandleParsed` | internal/stages/normalize.go:32-80 | the normalizer is the machine's read followed by its guarded write, or an error that leaves the table alone |
| `PipelineQueue.Queue.HandleNormalized` | internal/stages/dedupe.go:41-111 | what the deduper does to the queue's columns: nothing, or the machine's merge step when the row is still unmerged |
| `PipelineQueue.Queue.HandleDeduped` | internal/stages/enrich.go:37-108 | the enricher is the machine's guarded advance when extraction succeeded or there was nothing to extract, and otherwise an error that leaves the table alone |
| `PipelineWorker.Worker.HandleOne` | internal/pipeline/worker.go:110-149 | whatever the handler of the item's stage does and returns, handler and worker together are a run of enabled events of the machine; the worker acts on the item only while the handler has not resolved it |
| `PipelineWorker.Worker.Process` | internal/pipeline/worker.go:92-108 | a batch, each item meeting the rows the ones before it left, is such a run; none of its items is left in hand or in flight |
| `PipelineWorker.Worker.Turn` | internal/pipeline/worker.go:55-90 | claim and batch together: every claimed row is settled as its item's fate says, no other row is touched, and nothing is in flight when the loop can end |
| `PipelineWorker.SettledIff` | internal/pipeline/worker.go:110-149 | of the rows of such a turn: which advance, which are parked, and which keep a lease nobody works under, each if and only if |
| `PipelineWorker.Worker.ReleaseOutstanding` | internal/pipeline/worker.go:175-190 | releases exactly what is in flight |
| `SweepFairness.Sweeper.Run` | internal/pipeline/queue.go:159-182 | the select, any run of everybody else, and the requeue, however long it takes: every row found is requeued as the machine does, and all of them are still stranded if and only if none was disturbed |
| `SweepFairness.StillStrandedIff` | internal/store/query/pipeline.sql:62-80 | between the two statements a stranded row stops being stranded if and only if somebody merges it, holds a claim on it that runs, or moves it to a state that is final or in which it has not been stranded yet; within one threshold every move counts |
| `SweepFairness.SweepOrder` | internal/store/query/pipeline.sql:72-74 | never-swept rows first, then those swept longest ago, then those that have waited longest: a total order |
| `SweepFairness.NoRevisitInAnyRun` | internal/store/query/pipeline.sql:62-80 | in every run of the whole machine with one sweeper: if two sweeps requeue one row and the later leaves a stranded row out, a sweep from the first on, before the later, has requeued that one |
| `SweepFairness.BacklogIsWorkedThrough` | internal/store/query/pipeline.sql:66-80 | k sweeps of a standing backlog of N rows requeue exactly min(N, k * batch) of them |
| `SweepFairness.WholeBacklogIsRequeued` | internal/pipeline/queue.go:159-182 | ceil(N / batch) sweeps requeue the whole backlog |
| `Tokenizer.StripTags` | internal/dedupe/simhash.go:105-124 | the depth-counting loop computes the recursive definition of text outside brackets |
| `Tokenizer.Tokenize` | internal/dedupe/simhash.go:81-103 | the loop returns the maximal runs of word characters outside markup |
| `Tokenizer.TokensRoundTrip` | internal/dedupe/simhash.go:81-103 | tokenizing the space-joined tokens of any text gives the same tokens |
| `Tokenizer.TagReadsAsSpace` | internal/dedupe/simhash.go:78-124 | a balanced top-level tag, whatever it contains, reads as one space |
| `Tokenizer.SeparatorsSeparate` | internal/dedupe/simhash.go:81-124 | outside markup every character that is not part of a word separates: the tokens of the text are those before it and those after it |
| `Tokenizer.AWordIsOneToken` | internal/dedupe/simhash.go:81-103 | what lower-cases to a run of word characters is one token, in lower case |
| `Tokenizer.WordCharIff` | internal/dedupe/simhash.go:86-91 | word characters are the lower-case letters, the digits, plus and hash |
| `Tokenizer.TextOutsideBracketsIsKept` | internal/dedupe/simhash.go:105-124 | stripping leaves text without brackets as it is |
| `Tokenizer.StrayBracketIsDropped` | internal/dedupe/simhash.go:112-116 | a closing bracket that closes nothing is dropped and does not even separate |
| `Tokenizer.OpenTagSwallowsTheRest` | internal/dedupe/simhash.go:105-124 | a tag that never closes swallows all that follows |
| `SimHash.Shingles` | internal/dedupe/simhash.go:57-70 | the windows of three tokens in order, or the whole text when it is shorter |
| `SimHash.ShinglesAreWindows` | internal/dedupe/simhash.go:57-70 | the k-th shingle is the words k, k + 1 and k + 2 with single spaces |
| `SimHash.SimHash` | internal/dedupe/simhash.go:25-55 | the 64 counters and the bit loop compute the majority of every bit |
| `SimHash.SignatureIsTheMajority` | internal/dedupe/simhash.go:31-50 | a bit is set if and only if more than half of the shingles have it |
| `SimHash.HammingCountsDifferences` | internal/dedupe/simhash.go:72-76 | the distance is the number of bits in which two signatures differ |
| `SimHash.HammingIsAMetric` | internal/dedupe/simhash.go:72-76 | zero only for equal signatures, symmetric, triangle inequality |
| `SimHash.WeightsAreClose` | internal/dedupe/simhash.go:33-47 | lists that differ by k added and removed shingles differ by at most k in every counter |
| `SimHash.EditStability` | internal/dedupe/simhash.go:25-76 | such an edit flips only bits held by at most k votes, which bounds the distance |
| `SimHash.OneWordThreeShingles` | internal/dedupe/simhash.go:57-70 | replacing one word changes at most the three shingles around it |
| `SimHash.OneWordStability` | internal/dedupe/simhash.go:25-76 | so the distance is at most the number of bits with a weight of at most six |
| `Tokenizer.RenderingsAgree` | internal/dedupe/simhash.go:78-124 | two renderings of the same pieces of text, with any balanced tags or spaces between them, have the same tokens |
| `SimHash.SignatureIgnoresMarkup` | internal/dedupe/simhash.go:78-81 | and the same signature |
| `SimHash.SignatureOfPlainForm` | internal/dedupe/simhash.go:57-124 | a text and its plain token form have the same shingles and signature |
| `Decide.DropStopWords` | internal/dedupe/simhash.go:143-160 | keeps the distinctive words in order, or all when there is none |
| `Decide.KeepsWordByWord` | internal/dedupe/simhash.go:148-154 | each word is kept or dropped for itself, in order, with repetitions |
| `Decide.DistinctiveIff` | internal/dedupe/simhash.go:143-151 | kept are the words of more than one character but the eleven stop words |
| `Decide.NothingDistinctiveKeepsAll` | internal/dedupe/simhash.go:155-158 | a title with nothing distinctive keeps all its words |
| `Decide.TitlesAgree` | internal/dedupe/decide.go:181-202 | true if and only if every token of the shorter title occurs in the longer |
| `Decide.ReasonsIff` | internal/dedupe/decide.go:105-155 | each reason, in the candidates' own fields, if and only if: one employer, and one ATS job; or else no two known scopes that differ, and one content, one endpoint, or near texts under agreeing and specific titles; with the confidence of each |
| `Decide.EndpointIsThePath` | internal/dedupe/decide.go:208-226 | links that differ in scheme, one trailing slash, query, fragment and outer white space have one endpoint, the path they share; a link without a slash in it has none |
| `Decide.NothingIsNoEndpoint` | internal/dedupe/decide.go:208-226 | a link of nothing but a scheme, a slash or a query has no endpoint |
| `Text.TrimSpaceTrims` | internal/dedupe/decide.go:211 | exactly the white space at both ends goes |
| `Text.SpacesAre` | internal/dedupe/decide.go:211 | the code points that count as white space |
| `Decide.SameMeansOneEmployer` | internal/dedupe/decide.go:105-140 | a Same verdict implies one non-empty company and, except for an exact ATS match, no scope conflict |
| `Decide.AutoApplyMeansStrong` | internal/dedupe/decide.go:67-98 | a verdict is applied without a human if and only if it is Same and, for a text match, the distance is at most three |
| `Decide.OrderMattersIff` | internal/dedupe/decide.go:105-202 | the exact condition under which swapping the arguments changes the verdict |
| `Decide.DecideIsSymmetric` | internal/dedupe/decide.go:105-202 | no repeated token in either title: the same verdict in both orders |
| `Decide.OrderCanMatter` | internal/dedupe/decide.go:181-202 | a pair that is merged in one order and different in the other |
| `Decide.RowsMatchThemselves` | internal/store/query/stages.sql:117-127 | the entries a block lists for one row with a content hash are automatic matches of each other |
| `Scope.SortedStrings` | internal/normalize/location.go:168-180 | the in-place insertion sort computes the sorting function |
| `Scope.SortedIsCanonical` | internal/normalize/location.go:168-180 | sorting codes without repetitions gives a strictly ascending list of the same codes |
| `Scope.Collect` | internal/normalize/location.go:80-98 | each recognised code once, and the unrecognised fragments in order |
| `Scope.FragmentByFragment` | internal/normalize/location.go:82-98 | each fragment counts for itself: the empty one for nothing, one in the table for its country, any other as a place |
| `Scope.NamesACityIff` | internal/normalize/location.go:111-114 | the first place is the city unless it is noise |
| `Scope.ParseLocation` | internal/normalize/location.go:63-124 | from the raw text: the scope is strictly sorted and is the set of all named countries unless the early return forgets it; a country is given if and only if exactly one is named; city and work mode as the text gives them |
| `LocationText.SpaceIsNormalized` | internal/normalize/title.go:145-160 | the text is brought to its fields with one space between them, and stays so |
| `LocationText.PlainerIs` | internal/normalize/title.go:145-160 | tabs, line ends and no-break spaces count as spaces, the two long dashes as a hyphen |
| `LocationText.HintIff` | internal/normalize/location.go:70-75 | hybrid if the text says so, otherwise remote if it says one of five phrases |
| `LocationText.SeparatorEndsTheFragment` | internal/normalize/location.go:83-85 | a comma, semicolon, bar or slash ends a fragment: the fragments of the text are those before it and those after it |
| `LocationText.SeparatorsAre` | internal/normalize/location.go:83-85 | the four separators |
| `LocationText.FragmentIsWhole` | internal/normalize/location.go:83-85 | a text without separators is one fragment |
| `LocationText.PlaceBehindTheMode` | internal/normalize/location.go:134-143 | behind the work-mode word white space and punctuation go and the place stays |
| `LocationText.TrimTrims` | internal/normalize/location.go:136-145 | exactly the characters of the cutset at both ends go |
| `LocationText.CutsetsAre` | internal/normalize/location.go:136-145 | the punctuation that goes around a place and behind a work-mode word |
| `LocationText.NoiseIff` | internal/normalize/location.go:148-155 | a place is noise when it is one of nine words for nowhere in particular, or at most one ASCII character |
| `LocationText.StripModeWords` | internal/normalize/location.go:128-146 | the loop strips the first work-mode word the fragment starts with, whatever follows it |
| `LocationText.ModeWordsAre` | internal/normalize/location.go:130 | the six words that say a work mode, of which a fragment starts with one at most |
| `LocationText.TheGuardAlwaysHolds` | internal/normalize/location.go:137-142 | the length test that is meant to keep longer words holds for every fragment |
| `LocationText.TextIsKeptIff` | internal/normalize/location.go:126-146 | every fragment keeps its text, up to outer punctuation, if and only if it starts with no work-mode word; otherwise it is shorter by at least that word |
| `LocationText.RemotevilleBecomesVille` | internal/normalize/location.go:137-138 | the very input the comment says is left alone |
| `Scope.ForgettingLosesCountriesIff` | internal/normalize/location.go:116-119 | countries are lost if and only if several are named with no work mode and no city |
| `Scope.TwoCountriesAreForgotten` | internal/normalize/location.go:116-119 | a call of the parser on two country names and nothing else answers as for an empty text |
| `Scope.UkAndUsAreForgotten` | internal/normalize/location.go:116-119 | such as "uk/us" |
| `Scope.JoinScope` | internal/stages/normalize.go:90-99 | the loop joins with commas; nothing is stored for an empty scope |
| `Scope.ScopeRoundTrip` | internal/opportunity/service.go:251-256 | splitting a stored scope gives the list back |
| `Scope.NothingSplitsIntoNothing` | internal/opportunity/service.go:251-256 | no scope and an empty one have no country in them |
| `Scope.EqualTextMeansEqualCountries` | internal/stages/normalize.go:90-99 | two stored scopes are equal if and only if the country sets are |
| `Scope.ConflictMeansDifferentCountries` | internal/dedupe/decide.go:159-167 | a scope conflict is two non-empty and different country sets |
| `Scope.LikeFindsExactlyTheMembers` | internal/store/query/feed.sql:26-28 | for two-letter codes the substring filter finds a posting if and only if the country is in its scope |
| `Liveness.MissesCountAbsences` | internal/store/query/ingest.sql:58-100 | over every run the counter of an open row is the number of completed polls, since its last sighting, of sources that list it and saw none of its jobs there |
| `Liveness.ClosedMeansMissed` | internal/store/query/ingest.sql:82-100 | a closed row was absent at least twice; right after the closing statement, if and only if |
| `Liveness.OnlyPollsCount` | internal/store/query/ingest.sql:51-100 | a counter rises if and only if a completed poll of a source that lists the open row saw none of its jobs, a row is closed if and only if the closing statement finds two misses, and a sighting undoes both |
| `Liveness.UpsertStores` | internal/store/query/ingest.sql:72-80 | a posting leaves its content in the source row of its job, or a new source row owned by the row it created, and no other source row is touched |
| `Liveness.InsertsAreGuarded` | migrations/000005_opportunity.up.sql:156-157 | a source row is inserted if and only if its source has none for the job and no source row has its ATS pair |
| `Liveness.SecondPollIsUnchanged` | internal/ingest/ingest.go:166-200 | the same posting in the next poll is unchanged |
| `Liveness.MovedRowsChangeHands` | internal/store/query/stages.sql:48-54 | a merge hands the source rows of one row to the other, whichever source they are of, and changes nothing else |
| `Liveness.LinkingAlwaysFails` | internal/ingest/ingest.go:205-254 | in every state: when the lookup by ATS pair finds a row to link to, the insert of the source row fails and the transaction leaves the tables as they were |
| `Liveness.RefusedIffTheAtsIsTaken` | migrations/000005_opportunity.up.sql:156-157 | no posting is ever linked; one that is new to its source is refused if and only if its pair is taken, and created otherwise |
| `Liveness.RefusedForEver` | internal/ingest/ingest.go:205-254 | once one source holds a pair, the same posting through another source is refused in every later poll of any run |
| `Ingest.Store.UpsertPosting` | internal/ingest/ingest.go:166-258 | lookup, link or create, insert and rollback, statement by statement: unchanged, updated, created or refused, as a step of the liveness machine, and never linked |
| `Ingest.Store.RunSource` | internal/ingest/ingest.go:78-156 | a poll is exactly the events listed for its documents and faults; every posting is counted once as created, updated, unchanged or skipped; after a completed poll no open row is overdue |
| `Ingest.FailedPollsCloseNothing` | internal/ingest/ingest.go:78-103 | a poll that does not complete never closes anything; unless only the closing statement failed it raises no miss count |
| `Ingest.PollDoes` | internal/ingest/ingest.go:78-156 | what a poll does to a row, from the documents alone: open without misses if one of its jobs there was usable and stored, one miss more if the source lists the open row and saw none, and otherwise its counter as it was; when the poll completes exactly the rows with two misses are closed too |
| `Ingest.StatusIff` | internal/ingest/ingest.go:78-156 | how a poll ends, by the first thing that goes wrong |
| `Ingest.PollClosesExactlyTheMissed` | internal/ingest/ingest.go:139-155 | after any history, a row is closed by a completed poll if and only if enough completed polls since its last sighting missed it |
| `Ingest.SeenMeansUpserted` | internal/ingest/ingest.go:121-136 | a job counts as seen if and only if a usable posting of it was committed in this poll, so a failed upsert counts as absent |
| `Feed.List` | internal/opportunity/service.go:59-97 | the page is the query's rows in order, with a cursor if and only if the page is full |
| `Feed.PageShows` | internal/store/query/feed.sql:6-32 | in the table's columns: a row is on the page if and only if it is ready, open and unmerged, is what was asked for, comes after the cursor, and does not come after the last row of a full page |
| `Feed.PagesShowRows` | internal/store/query/feed.sql:6-32 | and every key on it is that of a row |
| `Feed.PageSizes` | internal/opportunity/service.go:59-70 | 25 rows unless a size is given, and never more than 100 |
| `Feed.PageIsTheTop` | internal/store/query/feed.sql:19-32 | a page is the highest matching rows below the cursor, in order, and nothing above its last row is left out |
| `Feed.NoRowTwice` | internal/opportunity/service.go:59-97 | a finished walk returns no row twice, whatever is inserted, closed or merged between requests |
| `Feed.NoRowMissed` | internal/store/query/feed.sql:19-32 | and returns every row that matched throughout |
| `Feed.FixedTableWalk` | internal/store/query/feed.sql:19-32 | on a table that does not change the pages put together are the filtered table in feed order |
| `Feed.SortedIsUnique` | internal/store/query/feed.sql:31 | a strictly descending list is determined by its keys |
| `RefreshFamilies.RunKeepsInv` | internal/auth/service.go:212-326 | over every run of logins, refreshes and logouts each family is one chain of `replaced_by`, with every token used but the last, and used tokens' sessions are revoked |
| `RefreshFamilies.OneUnusedTokenPerFamily` | internal/auth/service.go:257-326 | exactly one token of a family is unused, and no other token's session can be live |
| `RefreshFamilies.ReplayEndsTheFamily` | internal/auth/service.go:263-268 | once a used token is presented again every token and session of its family is revoked, and no later run adds a token, rotates one or revives a session |
| `RefreshFamilies.SecondUseIsCaught` | internal/auth/service.go:251-268 | a token that rotated once and is presented again at any later time is detected and its family ended |
| `RefreshFamilies.RotationExtendsTheChain` | internal/auth/service.go:300-317 | rotation appends the new token to the chain |
| `RefreshFamilies.AnswersIff` | internal/auth/service.go:257-326 | each answer in the columns of the presented token: it rotates if and only if it is known, neither used nor revoked, not expired, its user is active, and the transaction commits |
| `RefreshFamilies.LoginsExpire` | internal/auth/service.go:212-326 | in every run a token is good for exactly RefreshTTL from the event that granted it, unless used or revoked before, and its session for exactly SessionTTL |
| `RefreshFamilies.FamiliesHaveOneUser` | internal/auth/service.go:300-306 | in every run all tokens of a family speak for one user |
| `RefreshFamilies.OthersAreUntouched` | internal/auth/service.go:328-351 | a refresh, even a replay, leaves every other family's tokens and sessions as they are, and a logout every other session and all tokens |
| `RefreshFamilies.LogoutEndsTheSession` | internal/auth/service.go:368-385 | apart from refreshes a session is revoked if and only if it is live and a logout of it commits |
| `RefreshFamilies.RefusalsChangeNothing` | internal/auth/service.go:257-326 | a request that is refused, or whose transaction fails, changes nothing |
| `RefreshFamilies.TimeAndStatus` | internal/auth/service.go:272-279 | time and the users' status change by their own events only |
| `RefreshFamilies.Service.Authenticate` | internal/auth/service.go:353-366 | a session is accepted if and only if it is not revoked, not expired, and its user is active |
| `RefreshFamilies.Service.RefreshToken` | internal/auth/service.go:257-326 | replayed, invalid, suspended, failed or rotated, each with its exact effect on tokens and sessions |
| `RefreshFamilies.Service.IssueTokens` | internal/auth/service.go:212-249 | a login adds one session and the first token of a new family |
| `RefreshFamilies.Service.EndSession` | internal/auth/service.go:368-385 | a logout revokes that session only, and is silent for one that is not live |
| `RefreshFamilies.LiveSessionsBelongToTails` | internal/auth/service.go:353-366 | in every reachable state what authenticates is the session of an unused token of the same user |
| `RefreshFamilies.SignedOutForGood` | internal/auth/service.go:368-385 | a session revoked by a logout, a rotation or a replay is never accepted again |
| `AuditChain.ChainHash` | internal/auth/audit.go:84-94 | the digest of the predecessor and the length-prefixed fields, written piece by piece |
| `AuditChain.LengthsReadBack` | internal/auth/audit.go:84-94 | eight bytes, most significant first, spell the length they were written for |
| `AuditChain.MessageIsInjective` | internal/auth/audit.go:82-94 | for predecessors of one length the framing is injective in predecessor, action, subject and metadata |
| `AuditChain.Auditor.Append` | internal/auth/audit.go:37-80 | appending to a log that verifies gives a log that verifies, with the predecessor's digest stored |
| `AuditChain.VerifyChain` | internal/auth/audit.go:96-107 | zero if and only if every link is consistent; otherwise the id of the first entry that is not |
| `AuditChain.FirstBadIsUnique` | internal/auth/audit.go:96-107 | a log has one first bad entry at most, and an intact log has none |
| `AuditChain.LastDigestFixesTheLog` | internal/auth/audit.go:82-107 | verifying logs of one length with one last digest agree on everything hashed, or exhibit two messages with one digest |
| `AuditChain.EditsAreLocated` | internal/auth/audit.go:96-107 | editing an entry is reported at that entry unless the new message collides with the old |
| `AuditChain.DeletionsAreLocated` | internal/auth/audit.go:96-107 | cutting out any entry but the last is reported at the one that followed, unless the two messages it is checked against have one digest; they are one message if and only if the entry has its predecessor's digest |
| `AuditChain.TruncationGoesUnnoticed` | internal/auth/audit.go:96-107 | every prefix of a verifying log verifies |
| `AuditChain.UnhashedColumnsGoUnnoticed` | internal/auth/audit.go:57-75 | actor, tenant and prev_hash have no influence on verification |
| `ExtractionCache.KeysAreTheSameIff` | internal/enrich/service.go:61-64 | two requests share a row if and only if content, prompt version, model and schema version are equal |
| `ExtractionCache.AsksIff` | internal/enrich/service.go:56-80 | a request goes to the model if and only if it names a content and the cache has no readable row under its key |
| `ExtractionCache.AnswersEndTheCall` | internal/enrich/service.go:80-103 | an answer ends its call and no other, and a worker has one call at a time |
| `ExtractionCache.RowsAreWrittenOnce` | internal/store/query/extraction.sql:6-13 | over every run of any number of workers a cache row never changes |
| `ExtractionCache.ServedForEver` | internal/enrich/service.go:50-76 | once the cache serves a result for a content it serves that result for ever |
| `ExtractionCache.NobodyPaysTwice` | internal/enrich/service.go:50-76 | and no later request for it starts a model call |
| `ExtractionCache.AnswersAreServedIff` | internal/enrich/service.go:61-103 | a first answer is served later if and only if the provider names the model the service looks rows up under |
| `ExtractionCache.OnlyValidAnswersAreCached` | internal/enrich/service.go:77-97 | in every run each new cache row is the normal form of an answer that passed validation, so a rejected answer is never cached |
| `ExtractionCache.UnreadableRowsStay` | internal/enrich/service.go:65-103 | an unreadable row is never replaced, so each request for it pays again |
| `ExtractionCache.SecondAnswerIsNotStored` | internal/store/query/extraction.sql:6-13 | of two workers that both missed, the first to store decides what is served |
| `ExtractionCache.Cache.Extract` | internal/enrich/service.go:56-112 | the outcome and the table for a hit, a failing lookup, a provider failure, a rejected answer, a failing insert and a fresh extraction |

## Left out

- Concurrent refreshes of one token: one refresh is one step here, while the code reads the token outside the transaction and marks it used without a guard.
- `UndoMerge`: only stamps `undone_at`; it restores nothing.
- Erasure, source-health thresholds, schedules, company resolution and fill counts: straight-line bookkeeping.
- HTTP, configuration, logging, telemetry, object storage, the model provider and the board adapters.
- The cursor's text form, and tokens' secrets: a cursor is the key it names, a secret is its row's id.
- `BlockKey`, title rules, the country table and the capitalisation of a city: parameters or constant tables.
- Integer widths: counters and versions are unbounded; the source's int32 version would fail with an error after 2^31 changes of one row.
- Confidences are kept in hundredths; float32 arithmetic gives the same auto-merge decisions, including 0.75 at a distance of three.
- Each machine keeps the columns its statements touch. Only block keys and `merged_into` are shared between the merge machine and the pipeline, and there `MarkMerged` appears in both.
- A country filter that contains the wildcards of LIKE: the substring test stands for a filter without them.
- The cap of 50 candidates and the batch limits of SELECTs: the lists the workers hold are arbitrary subsets, which covers every cap.
- Rows may enter the pipeline at `discovered`, `fetched` or `parsed`; the statement that inserts at an arbitrary state is used by tests only.
- PipelineWorker.Worker.Process: the method handles its items one after the other, while the source runs them as goroutines; their statements may interleave in any order in the state machine, whose theorems cover that.
- PipelineQueue.Queue.HandleNormalized: the comparison and the merge transaction themselves are in `DedupeHandle` and `MergeStore`; here they are an outcome and the columns the queue shares with them.
- MergeStore.Database.Merge: as a method it runs without a statement of another worker in between; the interleavings are those of the state machine.
- SweepFairness.NoRevisitInAnyRun: one sweeper at a time; two of them can select the same rows.
- A storage failure in a statement of the worker itself, after its handler: the item is then dropped, which is the `Abandon` event of the machine but not an outcome of `HandleOne`.
- `extraction_content_hash`, skills and the ontology tables.
- The audit log's metadata is compared as the bytes that were hashed. The column is jsonb, whose text form can differ, and `VerifyChain` has no caller in the repository.
