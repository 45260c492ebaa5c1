# Verified models of the backend's core logic

These Dafny modules model the parts of the backend whose correctness is not visible from one function: paging by cursor,
batch writers, leases and queues, the account pull cycle, the catalogue's identity registry and field provenance, episode
orders, the backup container, activity cards and two pieces of integer arithmetic. SQL tables are maps or sequences, a
committed transaction is one step, provider replies are functions fixed during a run, and times and dates are integers.

Code that changes state step by step is modelled by methods and classes; each method is proved against a function or
predicate, and the lemmas state what holds of those over all inputs and all runs. `dafny verify dfyconfig.toml` checks
everything.

| files | what they model |
|---|---|
| `Timeline`, `StudioTimeline`, `StudioContents` | the studio timeline: a merge of three streams resumed by a cursor, and what a finished one contains |
| `WorkUnion`, `WorkContents` | the union of known works, and what is in each work |
| `RankedFeed`, `RankedFilter` | the two lazy scans of a ranked feed, and which titles they show |
| `CreditRows`, `CreditValues`, `CreditBatch` | sparse credit upserts, one at a time and in batches, and the values that reach the table |
| `MetadataLease`, `EvidenceQueue`, `EvidenceWorks` | leases with fencing tokens, retry delays, bounded admission, and the evidence gathered |
| `AccountCycle`, `AccountOutcome`, `AccountJobs` | pull cycles: the transition system, how cycles and jobs end, and the transactions as methods |
| `JsonValue`, `Provenance`, `Identities`, `Registry`, `Catalogue` | canonical identifiers, their registry, ranked field merging |
| `EpisodeMatching`, `MatchLaws`, `EpisodePositions` | episode mappings, which episode is matched to which, display orders |
| `EpisodeMerge`, `EpisodeLibrary` | the merge of twin episodes, and the sweep that looks for them |
| `BackupContainer`, `TableOrder` | the backup format and the table order of a restore |
| `SeasonProgress`, `ActivityCards`, `ActivityLaws`, `ActivityNet`, `ActivityLog` | activity cards over fixed 24-hour windows |
| `ReleaseWindows`, `Isbn` | date-window paging and ISBN check digits |
| `TextOrder` | options and the order of strings |

## Where the code does not do what one would expect

- A studio timeline with more than 1,000,000 selected saved works emits cursors that its own validation refuses
  (`StudioTimeline.EmittedCursor` is exact for one call; `StudioTimeline.TooManyKnownWorks` shows that beyond 1,000,024
  no run finishes, and `StudioTimeline.CollectorNeverFinishes` is such an input).
- An automatic pull request can be lost. The task that ends a cycle reads the job row when it closes the reconciliation
  window (backend/core/account_sync.py:210) and saves the reconciliation through the same session, which does not expire its
  objects, by writing that row's stats back (backend/core/sync_delivery.py:53-55). A follow-up recorded in between is
  overwritten, although no two transactions overlap (`AccountCycle.FollowupMayBeOverwritten`). It is never lost exactly
  when it is recorded at another time (`AccountCycle.RequestNeverLost`, `AccountCycle.FollowupNeverLost`).
- A cycle that ends before reconciling does not always drop its checkpoints: a provider that reported "unchanged" keeps
  its checkpoint over a server restart (`AccountCycle.RestartMayKeepACheckpoint`) and over a cancellation
  (`AccountCycle.CancelMayKeepACheckpoint`). Only a cycle that ends with an error or a failed child removes them
  (`AccountCycle.CheckpointsLeft` is exact over all runs).
- A release window of more than 10,008 rows (for pages of 24) runs into the next window's offsets: rows are skipped
  (`ReleaseWindows.EveryRowOnce` is exact for every page size, `ReleaseWindows.BusyDayIsCut` is an input). A selection is
  drawn from at most six provider pages (backend/core/chronological_discovery.py:60-95), so that a window of this size is
  practically out of reach.
- Writing a batch of credits can keep a character link that separate writes lose, when a later row restores the performer
  or job an earlier one changed (`CreditRows.BatchMayKeepALink`); it never loses one that they keep
  (`CreditRows.BatchRefinesOneAtATime`), and `CreditRows.BatchEqualsOneAtATime` says exactly when both agree.
- An order built from TMDB episode groups translates back and forth without loss only if no two episodes in the groups carry
  the same season and episode number (`EpisodePositions.GroupOrderInverse`).
- An ISBN-13 does not reveal a swap of neighbours that differ by five (`Isbn.Isbn13AdjacentSwap`, `Isbn.SwapUnnoticed`).
- Comments are documented to carry the show's TMDB id (backend/models/comments.py:23), but the merge of twin episodes looks
  them up by the divergent episode row's own id (backend/core/episode_order.py:1136-1147): a comment stored under the
  show's id stays behind (`EpisodeLibrary.ShowCommentStaysBehind`) exactly when the divergent row has another id
  (`EpisodeLibrary.ShowCommentsMove`).

## Assumptions

- Transactions are atomic. `request_automatic_pull` reads the active parent without a row lock
  (backend/core/account_sync.py:290-296) while the end of a cycle holds the user lock; the model makes each one step. Only
  the task of a cycle keeps a row over several transactions; every other step reads what it changes.
- Provider replies are fixed during one run of a cursor, and studio pages have at most 20 rows where a lemma says so.
- Ranked candidates have distinct ids, and a title's details keep its id; page numbers start at one, as the route demands.
- Strict UTF-8 decoding inverts encoding, and a JSON header that was dumped loads as what it was. Strings are sequences of
  Unicode scalar values.
- Sources have non-empty names in the lemmas on ranked merging. Reconciliation of persons and companies before an upsert
  does nothing.
- A mapping build gets a list with distinct TMDB positions; a stored display order comes from one of the three builders.
- The catalogue of a title does not change within one window of its activity card, and edits arrive in order of time.

## Model

| member | source | states |
|---|---|---|
| `StudioTimeline.Call` | backend/core/contributor_details.py:165-235 | one call is rejected or returns a prefix of the merge of what its cursor leaves, spends at most eight requests, and is shorter than 24 only when nothing is left or the budget is spent |
| `StudioTimeline.FetchPage` | backend/core/contributor_details.py:193-211 | a page already buffered costs nothing; an unbuffered one costs one request, or is left unresolved exactly when all eight are spent |
| `StudioTimeline.NextHead` | backend/core/contributor_details.py:192-219 | the head it reports is the first work left in the stream; no head and nothing unresolved means that the stream is exhausted; no work is stepped over |
| `StudioTimeline.SkipHoles` | backend/core/contributor_details.py:213-214 | only holes are stepped over, and all of them |
| `StudioTimeline.ResolveHead` | backend/core/contributor_details.py:189-219 | one turn of the loop over the two discovery streams keeps everything returned and everything left together equal to the merge |
| `StudioTimeline.Turn` | backend/core/contributor_details.py:186-224 | an iteration adds exactly the next work of the merge, or stops for lack of budget or of works |
| `StudioTimeline.Fill` | backend/core/contributor_details.py:186-224 | the merging loop fills the page unless the budget or the streams end |
| `StudioTimeline.Settle` | backend/core/contributor_details.py:225-233 | leaving a used-up page loses no work |
| `StudioTimeline.SettleBoth` | backend/core/contributor_details.py:225-233 | the second phase keeps the state of the call and never turns an ended run into one with more to come |
| `StudioTimeline.FirstMaxIsLeader` | backend/core/contributor_details.py:222 | the first maximum of the heads by date and key is the leader of the merge, ties included |
| `StudioTimeline.LeaderTaken` | backend/core/contributor_details.py:222-224 | stepping over the leader leaves exactly the rest of the merge |
| `StudioTimeline.BestIsNext` | backend/core/contributor_details.py:222-224 | taking the maximum of the heads keeps returned plus left equal to the merge |
| `StudioTimeline.Progress` | backend/core/contributor_details.py:186-235 | a call that returned something, or spent its budget, is strictly further on |
| `StudioTimeline.EmittedCursor` | backend/core/contributor_details.py:171-176 | with provider pages of at most 20 rows an emitted cursor is accepted if and only if its local offset is at most 1,000,000, and a rejected one comes from a longer list of saved works |
| `StudioTimeline.NextStart` | backend/core/contributor_details.py:167-176 | an accepted cursor resumes with exactly the works not returned yet |
| `StudioTimeline.ChainIsMerge` | backend/core/contributor_details.py:165-235 | calls chained by their cursors, from any resumable one, show a prefix of what was left, all of it once there is no more, within a number of calls bounded by the measure of the start |
| `StudioTimeline.PagesFollowedByCursor` | backend/core/contributor_details.py:165-235 | main result: with at most 1,000,000 selected saved works, pages followed from the start never fail, concatenate to a prefix of the whole merge and to all of it at the end, and are at most as many as the works plus 1001 |
| `StudioTimeline.TooManyKnownWorks` | backend/core/contributor_details.py:171-176 | with more than 1,000,024 selected saved works no chain of calls ever finishes: every answered call still has more to come |
| `StudioTimeline.CollectorNeverFinishes` | backend/core/contributor_details.py:171-176 | a concrete collection of 1,000,025 films whose timeline never ends |
| `StudioTimeline.WholeTimelineIsSortedUnion` | backend/core/contributor_details.py:177-182 | the merge holds every selected saved work and every discovered one exactly as often as its streams do, and is sorted when they are |
| `StudioTimeline.StreamIsNew` | backend/core/contributor_details.py:205-210 | discovery never shows a saved work again, and only works that a provider page of its type lists and the result filters, the anime preference and the list scope let through |
| `StudioContents.FinishedTimelineShowsAll` | backend/core/contributor_details.py:165-235 | main result: with a fixed announced total per kind, a chain of calls that has ended has shown every selected saved work and, of each wanted kind, exactly the usable rows of pages 1 up to that total (at least one page, at most 500), each as often as it occurs; usable is written out on the provider row |
| `StudioContents.StreamIsDiscoverable` | backend/core/contributor_details.py:193-213 | discovery offers, in the provider's order, exactly the usable rows of its pages |
| `StudioContents.SelectedCount` | backend/core/contributor_details.py:177-182 | a saved work belongs to the timeline as often as it is saved if its kind is wanted and the list scope lets it through, and otherwise not |
| `StudioContents.RefusedCursors` | backend/core/contributor_details.py:171-176 | a cursor is refused if and only if it is malformed, of another query, or holds numbers that no call emits |
| `StudioContents.NewestFirstByDate` | backend/core/contributor_details.py:182 | newest first means by release date, then by key; works without a date come last |
| `StudioContents.WorkKeyIsUnique` | backend/core/contributor_details.py:207 | different discovered works have different keys |
| `Timeline.LeaderLeads` | backend/core/contributor_details.py:222 | no head is newer than the one taken, and equal heads are taken in stream order |
| `Timeline.MergeKeepsEveryRow` | backend/core/contributor_details.py:186-224 | the greedy merge is a permutation of its three streams |
| `Timeline.MergeSorted` | backend/core/contributor_details.py:222 | merging sorted streams greedily is globally newest first |
| `Timeline.SortSorts` | backend/core/contributor_details.py:182 | the saved works are sorted newest first, keeping every one |
| `WorkUnion.MergeWorks` | backend/core/contributor_details.py:52-68 | the row-by-row union computes the fold that the lemmas below are about |
| `WorkUnion.WorksAreDistinct` | backend/core/contributor_details.py:56-61 | no two works of the result share a key, nor a type and TMDB number |
| `WorkUnion.NothingLost` | backend/core/contributor_details.py:56-67 | every role, character, fact and metadata field of every row is in one work, the one its TMDB number leads to |
| `WorkUnion.NothingInvented` | backend/core/contributor_details.py:62-63 | every role of a work comes from some row |
| `WorkUnion.OneWorkPerNumber` | backend/core/contributor_details.py:57-61 | rows with the same type and TMDB number end in the same work |
| `WorkUnion.MergingTwice` | backend/core/contributor_details.py:52-68 | merging the result again changes nothing |
| `WorkContents.WorksFromRows` | backend/core/contributor_details.py:52-68 | main result: every row goes to the work of the first row with its type and TMDB number; a work has exactly the roles and characters of its rows, key, type, number and title of the first, and each fact and metadata field as the first of its rows that has it |
| `RankedFeed.ReleasePage` | backend/core/browse.py:576-597 | one bounded scan returns exactly the accepted candidates between its offset and the next one, at most 24, and reports more exactly when candidates are left |
| `RankedFeed.ConsumeBatch` | backend/core/browse.py:588-595 | taking from one batch stops at a full page or at the end of the batch |
| `RankedFeed.AcceptedOf` | backend/core/browse.py:582-587 | the dictionary of a batch gives each of its candidates its own verdict |
| `RankedFeed.ReleaseCursorsScanTheFeed` | backend/core/browse.py:576-597 | main result: following the cursors gives every accepted candidate once, in rank order, within as many calls as there are candidates left plus one |
| `RankedFeed.DetailPage` | backend/core/browse.py:598-614 | page p is slice p of the filtered whole feed, and there is more exactly when more titles qualify |
| `RankedFeed.FilteredKeepsIdsApart` | backend/core/browse.py:532-560 | filtering keeps the ids of the feed distinct, so the dictionary of a batch loses nothing |
| `RankedFilter.ScansFilterTheFeed` | backend/core/browse.py:532-614 | main result: both scans show exactly the titles of the feed that pass the cached filter and their details, with a release where one is required, each once and in rank order |
| `CreditBatch.MergeDuplicates` | backend/core/catalogue_batch.py:131-145 | cleaning and merging gives one row per key, in order of first appearance |
| `CreditBatch.GroupRows` | backend/core/catalogue_batch.py:146-149 | the groups partition the rows by column set |
| `CreditBatch.CreditTable.WriteChunk` | backend/core/catalogue_batch.py:150-174 | a statement of at most 200 rows writes exactly their keys, reports a change exactly when there is one, and fails exactly when a row lacks a required column |
| `CreditBatch.CreditTable.WriteCredits` | backend/core/catalogue_batch.py:129-175 | accepted if and only if every key is given a contributor and a role; then each column and attribute of a key holds the last non-empty value the raw rows give it, or else what was stored; the table is that of the merged rows written once, whatever the grouping and the chunks; changed exactly when the table differs; a failure leaves it alone |
| `CreditValues.BatchWritesLastValues` | backend/core/catalogue_batch.py:131-174 | main result, on the raw rows alone: after an accepted batch each column of a key holds the last non-empty value given for it, or else what was stored (in a new row nothing, and the title scope); the same for each attribute; other keys stay |
| `CreditValues.AcceptedWhenComplete` | backend/core/catalogue_batch.py:131-145 | a batch is accepted if and only if every key it names is given a contributor and a role |
| `CreditValues.UniqueHolds` | backend/core/catalogue_batch.py:131-145 | the merged row of a key holds the last non-empty value of every column and attribute |
| `CreditRows.BatchRefinesOneAtATime` | backend/core/catalogue_batch.py:129-175 | main result: when writing the rows one at a time succeeds, so does the batch, with the same source columns and attributes and every link that separate writes keep |
| `CreditRows.SeparateLinkLost` | backend/core/catalogue_batch.py:160-172 | separate writes drop the link of a stored credit if and only if some row of its key differs from the stored performer, job or character |
| `CreditRows.BatchEqualsOneAtATime` | backend/core/catalogue_batch.py:129-175 | main result: the batch leaves exactly the table that separate writes leave, links included, if and only if no linked credit has a row that differs while the merged row does not |
| `CreditRows.BatchMayKeepALink` | backend/core/catalogue_batch.py:160-172 | a concrete batch that keeps a link which the same rows written one at a time lose |
| `CreditRows.RejectedBatchWasRejectedAlone` | backend/core/catalogue_batch.py:131-145 | a batch that is refused would have been refused row by row |
| `CreditRows.PutOverlay` | backend/core/catalogue_batch.py:139-145 | writing the overlay of two rows once loses nothing that two writes keep |
| `CreditRows.LinkSurvives` | backend/core/catalogue_batch.py:163-173 | a character link survives if and only if performer, job and character label end as they began |
| `CreditRows.PutTwice` | backend/core/catalogue_batch.py:160-174 | the upsert of one row is idempotent |
| `CreditRows.ApplyTwice` | backend/core/catalogue_batch.py:129-175 | a second identical batch changes nothing |
| `CreditRows.ApplyInParts` | backend/core/catalogue_batch.py:146-150 | parts with different keys, written in turn, give what one write gives |
| `CreditRows.ChangeInParts` | backend/core/catalogue_batch.py:147-175 | the whole batch changes the table exactly when some part does |
| `MetadataLease.SnapshotRow.Claim` | backend/core/catalogue.py:599-625 | a claim is granted exactly when no lease, fresh payload or retry delay stands, and then leases the row for three minutes |
| `MetadataLease.SnapshotRow.Publish` | backend/core/catalogue.py:638-666 | only the holder of the token publishes, and thereby resets the failure state and drops the lease |
| `MetadataLease.SnapshotRow.RecordFailure` | backend/core/catalogue.py:547-575 | only the holder of the token records a failure, with the capped exponential delay, and payload, fetch time and expiry stay |
| `MetadataLease.DelayDoubles` | backend/core/catalogue.py:547-572 | the delay doubles with each failure, up to a day and to the tenth failure |
| `MetadataLease.DelayHonoursProvider` | backend/core/catalogue.py:547-572 | the delay is never less than what the provider asks for, and a shorter request makes no difference |
| `MetadataLease.StepKeepsSound` | backend/core/catalogue.py:578-685 | every step of any worker keeps the row in agreement with the history of grants and completions |
| `MetadataLease.EveryRunIsSound` | backend/core/catalogue.py:578-685 | every interleaving of claims, crashes, late completions and clock ticks does |
| `MetadataLease.ClaimsAreOrdered` | backend/core/catalogue.py:599-685 | in such a history completions follow their own grant, none completes twice, and claim numbers never go back |
| `MetadataLease.PublicationsInClaimOrder` | backend/core/catalogue.py:638-666 | main result: published payloads appear in strictly increasing claim order |
| `MetadataLease.OnlyOwnersPublish` | backend/core/catalogue.py:638-680 | a step that changes payload, fetch time or expiry is a publication by the newest claim |
| `MetadataLease.GrantSpacing` | backend/core/catalogue.py:537-544 | a grant waits three minutes after another without completion, for the lifetime of what was just published, and for the delay of a failure |
| `MetadataLease.FailureBackoff` | backend/core/catalogue.py:547-572 | over any run the n-th failure in a row delays by at least the base doubled n times, up to ten times and up to a day |
| `EvidenceQueue.EvidenceTable.Capacity` | backend/core/contributor_evidence.py:145-146 | due keys are cut to the free capacity below 256 and not further |
| `EvidenceQueue.EvidenceTable.Admit` | backend/core/contributor_evidence.py:147-155 | admission schedules the given keys and touches no leased, scheduled or fresh row |
| `EvidenceQueue.EvidenceTable.Claim` | backend/core/contributor_evidence.py:262-269 | a due and unleased row is leased for 45 seconds |
| `EvidenceQueue.EvidenceTable.Complete` | backend/core/contributor_evidence.py:279-294 | a completion is written only while the row still carries its token |
| `EvidenceQueue.SuccessSpendsATick` | backend/core/contributor_evidence.py:228-256 | each success of a job that stays pending uses up one of its two pages per media kind (what it stores is EvidenceIsWhatWasRead) |
| `EvidenceQueue.FailureSpendsATry` | backend/core/contributor_evidence.py:284-290 | each failure of a job that stays pending uses up one of its five attempts |
| `EvidenceQueue.CompletionDescends` | backend/core/contributor_evidence.py:270-294 | each fenced completion that leaves a job pending lowers pages left and failures left lexicographically |
| `EvidenceQueue.StepKeepsSound` | backend/core/contributor_evidence.py:133-158 | every admission, claim, completion, lease loss and clock tick keeps the queue sound |
| `EvidenceQueue.EveryRunIsSound` | backend/core/contributor_evidence.py:259-296 | every run does |
| `EvidenceQueue.QueueStaysBounded` | backend/core/contributor_evidence.py:133-158 | main result: at most 256 rows are pending in any run, a leased row is always scheduled, and per admission a job has at most two successful ticks and fifteen completions |
| `EvidenceWorks.EvidenceIsWhatWasRead` | backend/core/contributor_evidence.py:228-256 | main result: over any run a key's stored works are the eligible rows of the replies of its successes since it last began at page one, in order, each page once; for a person both lists of the last reply |
| `EvidenceWorks.NextVisit` | backend/core/contributor_evidence.py:228-256 | a success that resumes extends the works of the one before, and one that starts again begins anew |
| `EvidenceWorks.PayloadAfter` | backend/core/contributor_evidence.py:270-294 | only a success touches the evidence of a key |
| `AccountJobs.JobTable.QueueAccountPull` | backend/core/account_sync.py:64-118 | queues a parent and its children exactly when the user is idle and has a target |
| `AccountJobs.JobTable.RequestAutomaticPull` | backend/core/account_sync.py:287-307 | records a follow-up on the live cycle, or queues an automatic one |
| `AccountJobs.JobTable.MarkRunning` | backend/core/sync_jobs.py:28-42 | only a pending cycle starts |
| `AccountJobs.JobTable.Inspect` | backend/core/account_sync.py:121-160 | what the check finds ends the job as failed, completed or unchanged with its checkpoint, or lets it import; a cancelled job stays as it is |
| `AccountJobs.JobTable.ImportRaised` | backend/core/account_sync.py:168-173 | an import that raised fails the job unless it was cancelled |
| `AccountJobs.JobTable.HoldCheckpoint` | backend/core/account_sync.py:176-182 | a completed import leaves its checkpoint held by the cycle |
| `AccountJobs.JobTable.CloseWindow` | backend/core/account_sync.py:208-215 | under the row lock the cycle either sees the cancel request or starts to reconcile |
| `AccountJobs.JobTable.MarkReconciled` | backend/core/account_sync.py:208-218 | saving the reconciliation writes back the stats of the job row as read when the window closed, marked as reconciled |
| `AccountJobs.JobTable.RequestCycleCancel` | backend/core/account_sync.py:268-278 | accepted exactly while the cycle is active and not reconciling; then all its active children are cancelled |
| `AccountJobs.JobTable.SettleChildren` | backend/core/account_sync.py:229-262 | the updates at the end, one after the other, settle each child as the cycle decided |
| `AccountJobs.JobTable.FinishCycle` | backend/core/account_sync.py:225-262 | one commit ends the cycle and its children; how is CyclesEndRightly and JobCheckpoints |
| `AccountJobs.JobTable.AbortActive` | backend/main.py:38-46 | a restart fails every active job and keeps all other state |
| `AccountJobs.JobTable.RetryAutomaticPulls` | backend/core/account_sync.py:318-347 | one commit stamps every owed request and queues the cycle that serves them |
| `AccountJobs.JobTable.Stamp` | backend/core/account_sync.py:338-341 | exactly the given requests are stamped |
| `AccountCycle.StepKeepsSound` | backend/core/account_sync.py:64-278 | every transaction keeps the invariant of the job table |
| `AccountCycle.EveryRunIsSound` | backend/core/account_sync.py:64-278 | every run of queue, provider, cancel, finish, restart and retry steps does |
| `AccountCycle.CyclesStayExclusive` | backend/core/account_sync.py:64-278 | main result: one live cycle per user, every active child belongs to it, no child is active after its cycle, cancel and reconcile exclude each other, and a cycle that fails by itself before reconciling keeps no checkpoint |
| `AccountCycle.FollowupStep` | backend/core/account_sync.py:208-247 | a step drops a recorded follow-up if and only if it queues the cycle serving it, ends its cycle cancelled, or saves a reconciliation whose row was read before the follow-up |
| `AccountCycle.DurableStep` | backend/core/account_sync.py:208-247 | a follow-up that the reconciling task has read stays read, and no step overwrites it |
| `AccountCycle.FollowupNeverLost` | backend/core/account_sync.py:208-265 | main result: a recorded follow-up is kept, served or cancelled over every continuation if and only if it was not recorded only since its cycle closed the window |
| `AccountCycle.RequestNeverLost` | backend/core/account_sync.py:287-297 | main result: a first request for a live cycle is never lost if and only if it does not arrive between closing the window and saving the reconciliation |
| `AccountCycle.LateRequestIsLost` | backend/core/account_sync.py:208-218 | a request in between, once the reconciliation is saved and the cycle has ended, leaves nothing to be served |
| `AccountCycle.FollowupMayBeOverwritten` | backend/core/account_sync.py:208-218 | a concrete run of whole transactions that loses a request |
| `AccountCycle.ServedOnce` | backend/core/account_sync.py:318-347 | a stamp never changes and is never owed again |
| `AccountCycle.OwedStep` | backend/core/account_sync.py:318-347 | an owed request stays owed until one commit serves it |
| `AccountCycle.OwedNeverLost` | backend/core/account_sync.py:318-347 | over any continuation an owed request is still owed or was served |
| `AccountCycle.RequestIsTaken` | backend/core/account_sync.py:287-307 | a request is recorded on the live cycle, or starts its own whenever one can be queued |
| `AccountCycle.IdleWithoutLiveCycle` | backend/core/account_sync.py:64-72 | admission is blocked by a live cycle and by nothing that an ended one left |
| `AccountCycle.RetryServesAll` | backend/core/account_sync.py:318-347 | a retry for an idle user serves all that is owed to this user with one cycle, and touches no other |
| `AccountCycle.FirstDecisionIsFinal` | backend/core/account_sync.py:208-215 | whichever of cancel and reconcile commits first decides for good |
| `AccountCycle.CheckpointsLeft` | backend/core/account_sync.py:121-262 | main result: over any run, a cycle that has not reconciled has a checkpoint if and only if a provider reported no change on one of its pending jobs and the cycle did not end with an error or a failed child |
| `AccountCycle.ChildCheckpoint` | backend/core/account_sync.py:121-262 | each step sets a checkpoint exactly for such a report and removes it exactly when the cycle fails by itself |
| `AccountCycle.CycleAfter` | backend/core/account_sync.py:64-278 | each transaction changes a given cycle and its task as the local transition says, and no other way |
| `AccountCycle.RestartMayKeepACheckpoint` | backend/main.py:38-46 | a concrete run that a restart fails before reconciling and that keeps a checkpoint |
| `AccountCycle.CancelMayKeepACheckpoint` | backend/core/account_sync.py:253-260 | a concrete cancelled run that keeps one |
| `AccountOutcome.CyclesEndRightly` | backend/core/account_sync.py:225-262 | main result: over any run a cycle that ended without a restart is cancelled if and only if cancellation was requested or a child ended cancelled, otherwise failed if and only if its task ended with an error or a child failed, and otherwise completed with every child completed |
| `AccountOutcome.JobCheckpoints` | backend/core/account_sync.py:121-262 | main result: over any run a job of an active cycle has a checkpoint if and only if its provider reported no change, and holds one if and only if its import was complete; at the end a held one is promoted if and only if the cycle reconciled, and a cycle that failed before leaves none |
| `AccountOutcome.JobStatusStep` | backend/core/account_sync.py:121-262 | what each transaction makes of the status of a job, written out |
| `AccountOutcome.EndsByFinish` | backend/core/account_sync.py:225-262 | apart from a restart only its own task ends a cycle |
| `AccountOutcome.EndedStays` | backend/core/account_sync.py:225-262 | nothing happens any more to an ended cycle and its jobs |
| `AccountOutcome.QueuedCycle` | backend/core/account_sync.py:73-118 | a queued cycle is pending, with the asked number of pending jobs of its user |
| `Identities.CanonicalIdempotent` | backend/core/catalogue.py:36-75 | the stored form of an identifier validates as itself |
| `Identities.SameNumberSameIdentifier` | backend/core/catalogue.py:45-53 | two spellings of a provider number are one identifier if and only if they are one number |
| `Identities.NumbersAccepted` | backend/core/catalogue.py:45-53 | in a numeric namespace exactly the positive decimal numbers are accepted, and stored without leading zeros |
| `Identities.TitlesAccepted` | backend/core/catalogue.py:54-58 | which IMDb identifiers are accepted, and as what |
| `Identities.OpenLibraryAccepted` | backend/core/catalogue.py:65-75 | which Open Library identifiers are accepted, and as what |
| `Identities.StripMeans` | backend/core/catalogue.py:42-44 | white space is removed at both ends and nowhere else |
| `Identities.NamespaceKinds` | backend/core/catalogue_normalize.py:23-57 | a namespace identifies one kind of entity, except that IMDb titles are films or series |
| `Catalogue.Catalogue.Resolve` | backend/core/catalogue.py:84-93 | finds the owner of the canonical form |
| `Catalogue.Catalogue.BindIdentity` | backend/core/catalogue.py:96-117 | binds, finds bound already, or refuses, as the specification says |
| `Catalogue.Catalogue.FindOwners` | backend/core/catalogue.py:213-218 | validates every identifier and collects their owners |
| `Catalogue.Catalogue.BindAll` | backend/core/catalogue.py:240-248 | binds the record's identifiers to its entity and no others |
| `Catalogue.Catalogue.UpsertEntity` | backend/core/catalogue.py:202-248 | finds or creates the entity, merges and binds, or changes nothing at all |
| `Registry.DoKeepsSound` | backend/core/catalogue.py:96-117 | every operation keeps identifiers canonical and owned by an entity of an allowed kind, and a conflict changes nothing |
| `Registry.IdentifiersNeverMove` | backend/core/catalogue.py:96-248 | main result: over any run an identifier, once bound, keeps its entity, entities keep their kind, and protected values stay |
| `Registry.BoundAfter` | backend/core/catalogue.py:240-248 | after an accepted operation its identifiers belong to the entity it answered |
| `Registry.SharedIdentifierOneEntity` | backend/core/catalogue.py:211-231 | two accepted upserts that share an identifier answer the same entity, whatever happened between |
| `Registry.ConflictReasons` | backend/core/catalogue.py:219-231 | a record of valid identifiers is refused if and only if two of them are on record with different entities, or one with another kind |
| `Registry.NewRecordIsStored` | backend/core/catalogue.py:232-248 | a record that no entity carries becomes a new entity of its kind with its name, every value it gives and nothing else, each with its source |
| `Registry.KnownRecordIsMerged` | backend/core/catalogue.py:219-248 | a record of a known entity is merged into it and into no other |
| `Catalogue.EntityRow.MergeFields` | backend/core/catalogue.py:149-199 | the loops over fields and attributes take exactly the slots that are free or outranked |
| `Provenance.MergedSlot` | backend/core/catalogue.py:149-199 | each slot is decided on its own: a taken one holds the offer and its source, any other keeps both |
| `Provenance.ProtectedNeverChange` | backend/core/catalogue.py:149-199 | over any merges protected slots keep what they hold |
| `Provenance.LatestOfHighestRank` | backend/core/catalogue.py:120-199 | main result: an empty unprotected description, name or attribute ends as the latest value of the highest-ranked source that offered one |
| `Provenance.OneWinner` | backend/core/catalogue.py:120-131 | there is one such offer at most |
| `Provenance.RankOrder` | backend/core/catalogue.py:120-131 | which source outranks which, for every kind of entity |
| `Provenance.UnattributedStays` | backend/core/catalogue.py:165-197 | a value without a recorded source is never replaced |
| `Provenance.TmdbPortraitWins` | backend/core/catalogue.py:140-177 | in any order of offers a person shows the latest TMDB portrait, or else the latest TVDB one |
| `Catalogue.EntityRow.PrepareValues` | backend/core/catalogue_additive.py:87-98 | brings nothing for what is known and clears the empty attributes it can fill |
| `Provenance.RepairOnlyFills` | backend/core/catalogue_additive.py:69-99 | preparing and merging keeps every known value but a TVDB default portrait under a TMDB one, fills exactly the gaps it may, and loses no attribute key |
| `EpisodeMatching.MatchEpisode` | backend/core/episode_order.py:639-675 | computes the mapping of one episode given the TVDB ids already used |
| `EpisodeMatching.MatchEpisodes` | backend/core/episode_order.py:564-677 | fails early on an empty or hopeless list, and otherwise matches in list order |
| `MatchLaws.MatchMeans` | backend/core/episode_order.py:639-675 | main result, on the provider lists alone: an unused cross-reference decides first, then the one unused episode with the same title at most a day apart; without either, or with an ambiguous title, the episode stays unmatched |
| `MatchLaws.MatchedInTurn` | backend/core/episode_order.py:636-677 | episodes are matched one after the other, each against what the matches before it have not used |
| `MatchLaws.BuildGivesUp` | backend/core/episode_order.py:564-635 | a build fails early if and only if a list is empty, or more than ten episodes are given and none of ten samples has a reference or a title in the TVDB list |
| `MatchLaws.UnmappedInTurn` | backend/core/episode_order.py:875-900 | the episodes of an incremental build are those without a stored row, in order |
| `EpisodeMatching.MatchedFacts` | backend/core/episode_order.py:636-677 | each match uses a TVDB episode nobody used, is grounded in an external id or in a title and date, and together they are injective |
| `EpisodeMatching.MappingStore.EnsureMapping` | backend/core/episode_order.py:769-828 | keeps a cached mapping, or replaces it by the matches of a full build, or leaves it alone when nothing matches |
| `EpisodeMatching.MappingStore.EnsureMappingForSeason` | backend/core/episode_order.py:836-933 | adds exactly the matches of the episodes without a row, unless the attempt is throttled or the season is mapped already |
| `EpisodeMatching.AfterKeepsInjective` | backend/core/episode_order.py:769-933 | one build keeps the mapping injective on TMDB position and TVDB id |
| `EpisodeMatching.BuildsKeepInjective` | backend/core/episode_order.py:769-933 | main result: any sequence of full and incremental builds does |
| `EpisodeMatching.SeasonBuildOnlyAdds` | backend/core/episode_order.py:875-933 | an incremental build extends the stored rows |
| `EpisodePositions.PlacesFromGroups` | backend/core/episode_order.py:258-284 | rows come from the groups, each usable episode at the first place that lists it, with distinct display positions and TMDB ids; if ids determine positions the maps are inverse exactly when positions determine ids |
| `EpisodePositions.GroupOrderInverse` | backend/core/episode_order.py:258-284 | main result: for groups in which ids determine positions, the two maps are mutually inverse if and only if no two usable entries of different ids share a season and episode number |
| `EpisodePositions.PlacesFromType` | backend/core/episode_order.py:318-346 | one row for each usable entry in order, at its season and number, bridged by the last mapping with its TVDB id, unless an earlier row took its position or its episode; under an injective mapping the maps are inverse |
| `EpisodePositions.PlacesFromOfficial` | backend/core/episode_order.py:302-316 | one row per TVDB position, and under an injective mapping the maps are inverse |
| `EpisodePositions.OfficialMeans` | backend/core/episode_order.py:302-316 | the official order shows each TVDB position once, as the first mapping there has it |
| `EpisodePositions.OfficialOrderIsInverse` | backend/core/episode_order.py:769-933 | main result: after any sequence of full and incremental builds the official order has mutually inverse maps |
| `EpisodePositions.InverseIffCanonicalsDiffer` | backend/core/episode_order.py:152-154 | the two position maps are mutually inverse if and only if canonical positions are distinct |
| `EpisodePositions.BridgedOrdersAreInverse` | backend/core/episode_order.py:293-346 | main result: an order built through an injective mapping has mutually inverse maps |
| `EpisodePositions.ResolveDisplay` | backend/core/episode_order.py:180-199 | the aired order is the identity; elsewhere the answer is that of the display map |
| `EpisodeMerge.MergeKeyed` | backend/core/episode_order.py:1065-1106 | one pass moves or drops each divergent row and nothing else |
| `EpisodeMerge.KeyedOutcome` | backend/core/episode_order.py:1062-1106 | no divergent reference is left, a key is served exactly when one side had it, and canonical's rows stay as they were |
| `EpisodeMerge.KeyedKeepsUnique` | backend/core/episode_order.py:1062-1106 | per-key uniqueness is kept |
| `EpisodeMerge.KeyedIsDetermined` | backend/core/episode_order.py:1062-1106 | with unique keys the result does not depend on the order of the pass |
| `EpisodeMerge.MoveFiles` | backend/core/episode_order.py:1117-1129 | one pass moves the files whose source is new |
| `EpisodeMerge.FilesOutcome` | backend/core/episode_order.py:1117-1130 | kept files are the union of both sets of sources, without duplicates |
| `EpisodeLibrary.MergeCollections` | backend/core/episode_order.py:1108-1132 | collections follow the keyed rule and their files move, merge or go with them |
| `EpisodeLibrary.EpisodeStore.MergeEpisodeMedia` | backend/core/episode_order.py:1010-1150 | either the whole merge happens or, on a uniqueness conflict, nothing |
| `EpisodeLibrary.NoReferenceLeft` | backend/core/episode_order.py:1040-1150 | main result: after a merge nothing refers to the divergent row; no comment matches it if and only if none did before or the twins differ in TMDB id, season or episode |
| `EpisodeLibrary.ShowCommentsMove` | backend/core/episode_order.py:1134-1147 | a comment stored under a show id at the divergent position comes to the canonical episode if and only if the divergent row carries that id, and otherwise stays as it is |
| `EpisodeLibrary.ShowCommentStaysBehind` | backend/core/episode_order.py:1134-1147 | a concrete comment that the merge leaves behind |
| `EpisodeLibrary.MergeKeepsUnique` | backend/core/episode_order.py:1040-1150 | a merge keeps every uniqueness constraint |
| `EpisodeLibrary.EpisodeStore.ReconcileDivergent` | backend/core/episode_order.py:936-1020 | checks exactly the mappings whose two positions differ; for each with rows at both, it merges a proved twin unless a uniqueness rule or a blocking comment forbids it, in list order; it removes nothing else, keeps the multiset of watch events and every uniqueness constraint, and counts what it removed |
| `EpisodeLibrary.EpisodeStore.ReconcileMapping` | backend/core/episode_order.py:960-1000 | what the sweep does for one mapping: nothing when the positions agree or a row is missing or unproved, otherwise the merge if nothing forbids it |
| `EpisodeLibrary.TwinsLeftWereBlocked` | backend/core/episode_order.py:936-1020 | main result: with one row per position, the sweep leaves a proved twin beside its canonical row only where a uniqueness rule of the repointed rows or a comment forbids the merge |
| `EpisodeLibrary.PairMerged` | backend/core/episode_order.py:960-1000 | a proved pair that nothing forbids is one row after its turn |
| `EpisodeLibrary.MergeableMeans` | backend/core/episode_order.py:1022-1038 | a merge is forbidden if and only if two rows of another table would share a unique key, or a comment on the divergent row cannot be taken over by a canonical row without TMDB id |
| `BackupContainer.ValueOfDigits` | backend/core/backup.py:41-46 | a number that fits is read back |
| `BackupContainer.DigitsOfValue` | backend/core/backup.py:53-67 | read bytes are written back |
| `BackupContainer.BigEndian` | backend/core/backup.py:41-46 | numbers of two, four and eight bytes, most significant byte first |
| `BackupContainer.HeaderMeans` | backend/core/backup.py:79-86 | which headers are accepted: version 1 without avatars or version 2 with its list, and distinct table names |
| `BackupContainer.AvatarNameIsSafe` | backend/core/backup.py:14 | an accepted avatar name starts with a digit that is not zero and has no separator |
| `BackupContainer.NumberIsAvatarName` | backend/core/backup.py:14 | every number without leading zeros is an avatar name with each of the three extensions |
| `BackupContainer.WriteEntry` | backend/core/backup.py:41-46 | appends the printed entry, or raises exactly when name or data do not fit |
| `BackupContainer.ReadEntry` | backend/core/backup.py:53-69 | accepts exactly the printed entries, in bounds, and names the offset after them |
| `BackupContainer.ReadTables` | backend/core/backup.py:86-91 | finds the announced tables exactly when they are there |
| `BackupContainer.ReadAvatars` | backend/core/backup.py:92-99 | finds the announced avatars exactly when they are there, distinct, small enough and unaltered |
| `BackupContainer.ParseBackup` | backend/core/backup.py:72-106 | main result: accepts exactly the byte strings that are a header and, to the end, the entries it announces, and returns their contents |
| `BackupContainer.EntriesUnique` | backend/core/backup.py:53-69 | bytes read as a given number of entries in one way only |
| `BackupContainer.BackupsAreUnambiguous` | backend/core/backup.py:72-106 | a byte string is a backup in one way only |
| `BackupContainer.WriteEntries` | backend/routers/admin.py:250-256 | writes entries one after the other |
| `BackupContainer.WriteBackup` | backend/routers/admin.py:246-256 | writes the archive, or raises exactly when header or an entry does not fit |
| `BackupContainer.ArchiveIsBackup` | backend/routers/admin.py:246-256 | every archive that can be written is a backup with the contents that went in |
| `BackupContainer.RoundTrip` | backend/core/backup.py:41-106 | writing and then parsing gives back tables and avatars |
| `TableOrder.Sorter.Visit` | backend/core/backup.py:117-124 | finishes a table and all that it depends on, and what stays open depends on it |
| `TableOrder.BuildDependencies` | backend/core/backup.py:110-113 | keeps the edges between given tables |
| `TableOrder.TopologicalSort` | backend/core/backup.py:109-127 | each table once, and each dependency that does not lead back before its dependent |
| `TableOrder.ParentsComeFirst` | backend/core/backup.py:109-127 | a foreign key whose parent does not depend on the child is respected, cycles elsewhere or not |
| `TableOrder.AcyclicFullyOrdered` | backend/core/backup.py:109-127 | acyclic foreign keys are all respected |
| `SeasonProgress.FinishedSeasons` | backend/core/activity.py:206-213 | the loop over seasons computes the finished ones |
| `SeasonProgress.FinishedMeans` | backend/core/activity.py:206-213 | a season is finished if and only if it is released in full and all its episodes are watched |
| `SeasonProgress.FinishedGrows` | backend/core/activity.py:206-213 | watching more never un-finishes a season |
| `SeasonProgress.AmongInOrder` | backend/core/activity.py:368-399 | chosen episodes keep their order and multiplicity |
| `SeasonProgress.CountedOneByOne` | backend/core/activity.py:206-213 | each episode of the season counts for one |
| `ActivityLog.CardLog.FindActive` | backend/core/activity.py:238-246 | the latest card of the last 24 hours, if its window is open, is the one card whose window is open |
| `ActivityLog.CardLog.FindOriginal` | backend/core/activity.py:106-112 | finds the latest first rating of the last 72 hours |
| `ActivityLog.CardLog.ClearRecentRatings` | backend/core/activity.py:73-91 | strips the past week's ratings and removes the cards that show nothing else |
| `ActivityLog.CardLog.PrepareRating` | backend/core/activity.py:94-122 | withdraws, corrects or passes on a rating change |
| `ActivityLog.CardLog.RecordProgress` | backend/core/activity.py:340-420 | updates the open card, opens a new one or removes an empty one, and keeps windows apart |
| `ActivityCards.PreparedTidy` | backend/core/activity.py:73-122 | rating corrections and withdrawals leave windows and progress of all cards alone |
| `ActivityCards.RecordedTidy` | backend/core/activity.py:340-420 | an edit keeps windows disjoint and every last update inside its window |
| `ActivityCards.WindowsNeverOverlap` | backend/core/activity.py:238-255 | main result: in any run of edits at non-decreasing times no two windows of a title overlap |
| `ActivityLaws.OpenCardTells` | backend/core/activity.py:340-420 | main result: after an edit there is an open card if and only if it would tell of episodes, a finished season, a rating, or a status change that is not a mere watching; it is the open card before or a new one, with the edit's status, score and time, and other cards stay |
| `ActivityLaws.EveryCardTells` | backend/core/activity.py:340-420 | over any run every card tells of something |
| `ActivityLaws.ScoreWithdrawn` | backend/core/activity.py:73-91 | a withdrawn score takes score and rating from the cards of the past seven days, and with them exactly those that showed nothing else |
| `ActivityLaws.CorrectionLands` | backend/core/activity.py:94-122 | a new score within 24 hours of the first rating, or 72 when completed or dropped, lands on the card of that rating; otherwise it is a change of its own |
| `ActivityLaws.FirstRatingShown` | backend/core/activity.py:124-145 | a first score makes the open card one of a first rating |
| `ActivityNet.CardShowsNetChange` | backend/core/activity.py:340-420 | main result: a card after any edits in its window shows the baseline of the first, the counts, first, last and all positions and finished seasons between the first evidence and the last edit, the net status change, and whether the title was started |
| `ActivityNet.RatingShowsNetChange` | backend/core/activity.py:94-145 | over any run of edits in one window in which scores replace scores, a card shows the change from the score before the first to the last, and whether there is one |
| `ActivityNet.FirstRatingIsFound` | backend/core/activity.py:94-122 | after a first rating, corrections within 72 hours find a card that was rated no earlier |
| `ActivityNet.NetOfFirst` | backend/core/activity.py:352-399 | what the edit that opens a card records |
| `ActivityNet.NetOfNext` | backend/core/activity.py:352-399 | a further edit keeps the card net of its first |
| `ActivityNet.ClosedCardStays` | backend/core/activity.py:238-246 | a card whose window has closed keeps all but score and rating |
| `ActivityNet.Touched` | backend/core/activity.py:349-420 | an edit inside a card's window updates or removes that very card |
| `ActivityNet.GoneStaysGone` | backend/core/activity.py:402-414 | a removed card never comes back |
| `ReleaseWindows.WindowInside` | backend/core/chronological_discovery.py:142-148 | windows lie inside the searched dates, from the last back to the first or to 1880-01-01, without gap or overlap, 180 days each but the oldest |
| `ReleaseWindows.DayInOneWindow` | backend/core/chronological_discovery.py:142-148 | every searched day lies in exactly one window |
| `ReleaseWindows.MoreWindows` | backend/core/chronological_discovery.py:142-148 | another window is announced exactly when there is one |
| `ReleaseWindows.PageShows` | backend/core/chronological_discovery.py:176-181 | the rows of a page are the rows at the places it shows, a stretch of the selection between its dates |
| `ReleaseWindows.CursorAdvances` | backend/core/chronological_discovery.py:180 | every continuing page moves on |
| `ReleaseWindows.Turn` | backend/core/chronological_discovery.py:176-181 | a page shows what is left of its window, up to its size, and names the row after it or the next window |
| `ReleaseWindows.WalkFrom` | backend/core/chronological_discovery.py:136-181 | from a page boundary the pages show the rest of the window and all later ones |
| `ReleaseWindows.RowMissed` | backend/core/chronological_discovery.py:138-180 | the row at the limit of an overlong window is never shown |
| `ReleaseWindows.EveryRowOnce` | backend/core/chronological_discovery.py:136-181 | main result: following the offset shows every row once, in order, and stops, if and only if no window holds more than the limit |
| `ReleaseWindows.BusyDayIsCut` | backend/core/chronological_discovery.py:136-181 | a concrete day of 10,009 releases that no number of pages shows in full |
| `ReleaseWindows.ReachOfTwentyFour` | backend/core/chronological_discovery.py:16-180 | the limit for pages of 24 is 10,008 rows |
| `Isbn.IsbnIdempotent` | backend/core/catalogue_normalize.py:85-102 | normalising twice is normalising once |
| `Isbn.IsbnAccepts` | backend/core/catalogue_normalize.py:85-102 | what comes out has the right shape and check digit, and a valid number is its own normal form |
| `Isbn.Isbn10Checksum` | backend/core/catalogue_normalize.py:85-94 | a ten-character number is accepted if and only if its digits weighted from ten to one sum to a multiple of eleven |
| `Isbn.Isbn13Checksum` | backend/core/catalogue_normalize.py:95-101 | a thirteen-digit number is accepted if and only if its digits weighted one and three sum to a multiple of ten |
| `Isbn.SeparatorsIgnored` | backend/core/catalogue_normalize.py:85-88 | hyphens and white space do not matter wherever they stand, and x is X |
| `Isbn.Isbn10Change` | backend/core/catalogue_normalize.py:85-94 | a changed character is accepted if and only if it is the same character in either case |
| `Isbn.Isbn10Swap` | backend/core/catalogue_normalize.py:85-94 | two swapped characters, at any distance, are accepted if and only if they are equal |
| `Isbn.Isbn13Change` | backend/core/catalogue_normalize.py:95-101 | a changed character is rejected |
| `Isbn.SwapUnnoticed` | backend/core/catalogue_normalize.py:95-101 | two valid numbers that differ by swapped neighbours |
| `Isbn.Isbn13AdjacentSwap` | backend/core/catalogue_normalize.py:95-101 | swapped neighbours are accepted if and only if they are equal, or differ by five beyond the prefix |

## Left out

- StudioTimeline.TooManyKnownWorks: between 1,000,001 and 1,000,024 selected saved works a run may or may not finish, depending on how the streams interleave on the last page; the exact condition is stated for each emitted cursor (EmittedCursor), not for the whole run.
- StudioTimeline.PagesFollowedByCursor: the scope string of a cursor and its JSON text are modelled as an already decoded value.
- RankedFeed.DetailPage: the branch without details is the same slice without a filter and is not a member of its own; MDBList chunking and the stale notice are not modelled.
- CreditBatch.CreditTable.WriteCredits: column types, lengths and foreign keys of the database are not modelled; the one database error modelled is a missing required column.
- MetadataLease.SnapshotRow.Publish: ingesting the document is a payload that either commits or fails; entity id and coverage are not modelled.
- EvidenceQueue.EvidenceTable.Claim: claims come one at a time in any order; the batch of two, its order by due time and skipping of locked rows only restrict the runs considered.
- AccountCycle.EveryRunIsSound: the import code of providers is arbitrary as long as it changes only its own job; scheduling by interval, API keys and the error messages shown to users are reduced to whether a cycle has targets.
- Identities.CanonicalIdempotent: decimal digits outside ASCII, which Python would convert, are refused by the model.
- Registry.IdentifiersNeverMove: merging persons or companies, review decisions and deletions by an administrator are not operations of the model.
- Provenance.LatestOfHighestRank: portraits of people have their own lemma (TmdbPortraitWins); NULL and empty text are one value.
- Catalogue.Catalogue.UpsertEntity: the lock, the session and flushing are not modelled; a conflict raised between statements would be rolled back by the caller, and the model shows that nothing has been written by then.
- EpisodeMatching.MatchEpisodes: titles are compared after normalisation and dates as day numbers; a title match without a TVDB id, on which the code crashes, is not modelled.
- EpisodeMatching.MappingStore.EnsureMappingForSeason: the lock and clock of the attempt throttle are a flag.
- EpisodeLibrary.EpisodeStore.MergeEpisodeMedia: tables without a rule of their own are one map with one uniqueness condition; any other database error that rolls back the savepoint looks the same.
- BackupContainer.ParseBackup: the gzip layer, the depth limit of the JSON reader and two keys of one name in the header are not modelled.
- ActivityCards.WindowsNeverOverlap: cards rebuilt from streaming events, legacy cards without a window or baseline, and the daily recorder for titles without episodes are not modelled; edits are those of the progress recorder.
- ActivityNet.RatingShowsNetChange: first ratings and withdrawn scores are recorded by the model, but while a card carries a first rating, later changes go to that card (FirstRatingIsFound) and have no net statement over runs.
- ReleaseWindows.EveryRowOnce: upcoming and searched releases, which have one window only, and the cache of selections are not modelled; dates are day numbers, so the end of Python's calendar is not reached.
- Isbn.IsbnAccepts: upper-casing is that of ASCII; no other letter becomes a digit or an X.
- Document ingestion, the credit part of additive filling and the identity cache of a document: they call the operations modelled here, one after the other.
- HTTP clients, provider payloads, OAuth, mail, images, schedulers, routers and the frontend: input and output.
- Search ranking and title similarity: floating-point heuristics without a crisp specification.
