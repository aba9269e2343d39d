# AutoIndexer: a verified model of the indexer, the controller and the drift detector

KAITO AutoIndexer keeps a document index in a RAG engine up to date.  A Kubernetes controller owns an
`AutoIndexer` object, creates a Job or CronJob for it and moves it through its phases; the job clones a
repository (or fetches a list of URLs) and writes the index; a drift detector compares document counts
and marks objects whose index has drifted, which the controller then remediates by deleting the index.

This project models that logic in Dafny and proves what it keeps.

| file | content |
|---|---|
| `Options`, `Text` | option values, maps as entries, splitting and joining of strings |
| `RagStore` | the index behind the client object: ids to documents, calls that may fail half-way |
| `GitFiles`, `GitDiff`, `GitHandler` | path filter and directory walk; the diff loop with its three buffers and the full loop, as functions and as the class the source has |
| `StoredTexts`, `WholeRuns` | what is stored, said of the files themselves: whole texts, once; what each diff item builds; extensions; whole runs, whichever way they take |
| `FlushTiming` | flushing at ten against doing all lookups first, and against doing each item at once |
| `GitAgreement`, `SkippedWork` | when incremental indexing equals full indexing, and concrete inputs: a clone, a removed file, and four diffs where it does not |
| `Coverage`, `FailedRuns`, `IndexHistory`, `LostFiles` | every indexable file has a document with its text, over whole histories of runs, remediations and reconciles; exactly when a cleared error flag or an edit of the patterns loses files |
| `DeleteGap` | which failures a run records, and the delete call that the client object lacks |
| `Conditions` | the four condition upserts as one map update |
| `JobStatus`, `Controller`, `Reconciler` | job counting, the phase handlers and the sync, as functions and as classes |
| `Outcomes`, `OutcomeRuns` | what one reconcile leaves, field by field and exactly, said of the stored object, the jobs' counters and the calls; runs that follow from it |
| `Protocol`, `DriftProtocol`, `DriftCycle`, `RemediationRuns`, `Lifecycle`, `ErrorFlag` | the step system of controller, detector, jobs, users and clock, what holds over all its runs, and one whole drift cycle |
| `WholeSystem` | controller and job on one status and one index: each reconcile as a history, and the history invariant over the whole |
| `Detector` | one pass of the drift detector |
| `PathPatterns` | the seven path expressions and the index-name expressions of the webhook |
| `StaticIndexer` | the URL handler's batching and the bounded download |

Where the source changes state step by step the model is a class or a loop, proved against a function of
the old state; the theorems are about these functions and about runs composed of them.

## What the proofs found

The code is modelled as it is.  These are the places where it does less than its documentation says, each
with the lemma that shows it.

- Deleting documents never works: the git handler calls `delete_document`, which `KAITORAGClient` does not
  have (it has `delete_documents`).  The exception is caught and recorded, so a diff that removes an
  indexed file always ends with an error (`DeleteGap.DeletionIsRecorded`), with everything else answered it
  does so exactly then (`DeleteGap.DeletionsFailIff`), and every old document survives
  (`DeleteGap.NothingLeavesTheIndex`).  The next run is a full one only if the error flag is still up by
  then, that is if no reconcile comes between or the last one fails (`DeleteGap.DeletionForcesFullRunIff`);
  after an ordinary reconcile the next run at that commit reports success and the removed file's document
  stands (`DeleteGap.DeletionIsLost`).  The engine's parameter `canDelete` says whether the method is
  there; all other results hold for both values.
- A file whose new text is empty keeps its old document, a file renamed to a filtered-out path keeps the
  document of its old path, and a file below a directory whose path contains `.git` anywhere is added by
  the diff but skipped by the walk (`SkippedWork`).  Change types without a branch, such as type changes,
  are ignored.  The guard `GitAgreement.Agrees` names these cases; with the patterns unchanged agreement holds
  if and only if no item falls under them (`GitAgreement.IncrementalEqualsFullIff`).
- The error flag, which makes the next run a full one, is cleared by any ordinary reconcile, in every phase
  (`ErrorFlag.ReconcileClearsTheFlag`; exactly when: `ErrorFlag.ReconcileFlagIff`).  A full run with failed
  calls, a reconcile and a second run then show no error, and the index covers the commit if and only if it
  had the text of every document that was not stored (`LostFiles.ClearedFlagSoundIff`), for a first run if
  and only if every call stored all it was given (`LostFiles.ClearedFirstRunSoundIff`; plainest instance:
  `IndexHistory.ClearingTheFlagLosesFiles`).  After an incremental run the same holds of the lost documents
  of files in the commit (`LostFiles.ClearedDiffSoundIff`).
- Patterns may be edited between runs, and no run looks outside its diff for files they newly admit.
  Incremental indexing agrees with full indexing under the new patterns only if no file outside the diff
  enters or leaves (`GitAgreement.IncrementalAgreesIff`); at an unchanged commit the invariant holds if and
  only if the new patterns admit no file the old ones left out (`LostFiles.EditedPatternsSoundIff`,
  `LostFiles.EditedPatternsLoseFile`).
- A remediation whose status patch is refused has deleted the index but keeps the recorded commit, through
  any run up to the next detection or job report (`ErrorFlag.RefusedStatusPatchKeepsCommit`,
  `IndexHistory.LostRemediationBreaksIff`).  The same happens with every call answered if the patch of the
  annotations brings the stored status back into memory (`ErrorFlag.RemediationResetsCommitIff`): the
  handler resets the commit before it makes that patch.
- Within the second of a detection the index may be dropped again, because stamps are whole seconds
  (`DriftCycle.TwoDropsInOneSecond`), and later than that if the patch of the stamp was refused
  (`RemediationRuns.RefusedStampDropsTwice`); a drop counts exactly when its deletion is answered, its stamp
  stored and that second past (`DriftProtocol.DropRemediatesIff`).
- The detector clears the flag of an object that is in remediation, so the remediation may be skipped
  (`DriftProtocol.VisitSkipsRemediation`).  With calls answered, the drop happens if and only if the
  detector's first visit comes after two reconciles, or after one if the object was suspended already
  (`RemediationRuns.DropIffEnoughReconciles`).
- A user who sets the policy to Ignore while the controller's own suspension is on ends the remediation, and
  nobody but a user takes the suspension back (`RemediationRuns.IgnoredSuspensionStays`; when a reconcile
  does: `RemediationRuns.SuspensionUndoneIff`).
- A schedule may be added or removed in any phase.  Phases fit the schedule if and only if that happens in
  Unset, Pending and Running only (`Protocol.PhasesFitIff`); removed between suspension and drop, it leaves
  the CronJob running through the remediation (`DriftCycle.LateEditSparesCronJob`).
- `getJobStatus` uses the first started job only to seed its clock, so a one-time indexer whose single Job
  failed stays Running (`Lifecycle.FailedJobStaysRunning`); with a stale cache it is reported Failed while
  its Job goes on (`Lifecycle.StaleCacheRun`).
- Two of the four condition writers reset the transition time although the status is unchanged
  (`Conditions.ReplacingWritersResetTimes`).
- `patGlobstar` is redundant (`PathPatterns.GlobstarIsRedundant`); the webhook accepts one-character index
  names, the CRD pattern does not (`PathPatterns.IndexNames`).

## Assumptions

- The engine gives new documents fresh ids.  A failed call may have stored any prefix of what it was
  given.  A listing with limit 1 returns any one document with the path asked for; since it filters on
  `file_path` only, one indexer writes to an index.
- A commit is a map from path to readable text.  A diff is well formed when its items are about separate
  paths, each says truly how its paths changed, and other paths have the same text in both commits; the last
  excludes a symbolic link whose target changes, since a file is read through its link while the diff lists
  the target only.  `Other` stands for the change types that have no branch in the source.
- The include and exclude patterns are those of the run, which reads them from the object; each run has its own
  work directory, whose path has no `.git` where two runs are compared.
- Outside the directories it skips, the walk of a checkout meets files of the commit only, each once, and
  all that can be read.
- A reconcile, a detector visit to one object and a job run are single steps; any of their calls may fail,
  and a write may be done, refused, or done with its answer lost.
- Whether the answer to `r.Patch` on the main resource leaves the status assigned in memory before it, or
  overwrites it with the stored one, is a parameter of each reconcile (`patchKeepsStatus`).
- A reconcile reads the object as it is stored; only the read of the one-time Job may come from a stale cache.
- The job's own status writes are not lost, nobody edits the three drift annotations by hand, and a
  one-time Job is not deleted while its object exists.
- The clock counts whole seconds.

## Model

| member | source | states |
|---|---|---|
| `GitFiles.ShouldIndexMeaning` | jobs/autoindexer/data_source_handler/git_handler.py:366-396 | a path is indexed iff no part is hidden, its extension is not binary, no exclude matches and, if there are includes, one matches |
| `GitFiles.ExtensionOf` | jobs/autoindexer/data_source_handler/git_handler.py:377 | the extension is what follows the last dot of the file name, whatever the directory |
| `GitFiles.LeadingDotsOnly` | jobs/autoindexer/data_source_handler/git_handler.py:377 | a file name whose dots all lead has no extension |
| `StoredTexts.LowerMeaning` | jobs/autoindexer/data_source_handler/git_handler.py:378 | lower case turns A to Z into a to z and leaves every other character |
| `StoredTexts.BinariesAreSkipped` | jobs/autoindexer/data_source_handler/git_handler.py:375-379 | the nine binary extensions, in any case, are skipped whatever the directory, the name and the patterns |
| `StoredTexts.OtherExtensionsAreTaken` | jobs/autoindexer/data_source_handler/git_handler.py:375-382 | without patterns a file that is not hidden and has any other extension is taken |
| `GitFiles.GetRepositoryFiles` | jobs/autoindexer/data_source_handler/git_handler.py:351-364 | the two nested loops collect exactly the filtered files of the walk, in walk order |
| `GitFiles.FilesOfTree` | jobs/autoindexer/data_source_handler/git_handler.py:351-364 | a full walk yields wanted files of the commit only, none twice, and every one that has text; it may walk over the clone's own `.git` directory, which is in no commit, and miss submodules |
| `GitFiles.CleanWalk` | jobs/autoindexer/data_source_handler/git_handler.py:355-358 | in a work directory whose path has no `.git` the walk depends on the path inside the checkout only |
| `GitFiles.SameFilterSameMap` | jobs/autoindexer/data_source_handler/git_handler.py:111 | so runs with the same patterns, each in its own temporary directory, have the same full map of a commit |
| `SkippedWork.CloneIsWalked` | jobs/autoindexer/data_source_handler/git_handler.py:355-358 | a clone whose walk meets `.git/HEAD` and no file for a submodule is a walk of its commit, and yields the one file there is |
| `RagStore.RagClient.Index` | jobs/autoindexer/rag/rag_client.py:33-39 | documents go under fresh consecutive ids; on failure any prefix of them |
| `RagStore.RagClient.Update` | jobs/autoindexer/rag/rag_client.py:41-47 | documents are replaced by id; on failure any prefix of them |
| `RagStore.RagClient.Delete` | jobs/autoindexer/data_source_handler/git_handler.py:499 | the single-id delete the git handler calls: gone on success, and nothing is sent when the client lacks the method |
| `RagStore.RagClient.List` | jobs/autoindexer/rag/rag_client.py:57-65 | a listing with limit 1 returns some document with the path if there is one, and changes nothing |
| `RagStore.Found` | jobs/autoindexer/data_source_handler/git_handler.py:271 | what a lookup finds has the path asked for; it finds nothing iff no document has it |
| `RagStore.AnyPrefixMayBeStored` | jobs/autoindexer/rag/rag_client.py:33-47 | the model lets a failed call have stored any number of its entries |
| `GitHandler.Handler.IndexDocumentsBatch` | jobs/autoindexer/data_source_handler/git_handler.py:472-482 | one index call; an error is recorded iff it fails |
| `GitHandler.Handler.UpdateDocumentsBatch` | jobs/autoindexer/data_source_handler/git_handler.py:484-492 | one update call; an error is recorded iff it fails |
| `GitHandler.Handler.DeleteDocumentsBatch` | jobs/autoindexer/data_source_handler/git_handler.py:494-503 | ids are deleted one by one up to the first failure; one error is recorded iff not all were deleted |
| `GitHandler.Handler.LookUp` | jobs/autoindexer/data_source_handler/git_handler.py:270-276 | a failed listing records an error and counts as not found |
| `GitHandler.Handler.IndexFiles` | jobs/autoindexer/data_source_handler/git_handler.py:206-228 | the imperative full loop refines the fold over files, store, errors and submitted batches |
| `GitHandler.Handler.IndexAllFiles` | jobs/autoindexer/data_source_handler/git_handler.py:202-231 | a full index is that loop over the filtered walk |
| `GitHandler.Handler.BufferItem` | jobs/autoindexer/data_source_handler/git_handler.py:252-322 | each change type looks up, decides and buffers as specified; a skipped item leaves the buffers alone |
| `GitHandler.Handler.FlushBuffers` | jobs/autoindexer/data_source_handler/git_handler.py:324-346 | creates, then updates, then deletes are flushed, each when it holds at least the given number |
| `GitHandler.Handler.IndexItems` | jobs/autoindexer/data_source_handler/git_handler.py:247-346 | the imperative diff loop, with its continue statements, refines the fold over diff items |
| `GitHandler.Handler.IndexDiffFiles` | jobs/autoindexer/data_source_handler/git_handler.py:233-349 | a last commit unknown to git falls back to full indexing, another diff error is recorded |
| `GitHandler.Handler.UpdateIndex` | jobs/autoindexer/data_source_handler/git_handler.py:99-158 | pinned commit: full; recorded commit and no error flag: incremental; otherwise full; failed setup leaves the store alone |
| `WholeRuns.AnsweredRunErrors` | jobs/autoindexer/data_source_handler/git_handler.py:99-158 | with every call answered a run records exactly a failed setup, or a failed diff where it is not to read every file: unpinned, with a last commit and no error flag |
| `WholeRuns.FailedRunStoresNothing` | jobs/autoindexer/data_source_handler/git_handler.py:109-158 | a run that fails before it reads a file leaves the index alone and records an error, whatever the engine does |
| `GitDiff.DiffBatches` | jobs/autoindexer/data_source_handler/git_handler.py:252-346 | whatever fails, everything decided is submitted once and in order, in batches of 1 to 10, of exactly 10 inside the loop |
| `GitDiff.FullBatches` | jobs/autoindexer/data_source_handler/git_handler.py:206-228 | one document per readable file, in walk order, in batches of ten and a last one of 1 to 10 |
| `StoredTexts.AddedBuilds` | jobs/autoindexer/data_source_handler/git_handler.py:259-263 | an Added item creates a document with path and whole text of its file, tagged added, iff the file is wanted and has text, without a lookup |
| `StoredTexts.ModifiedBuilds` | jobs/autoindexer/data_source_handler/git_handler.py:265-285 | a Modified item looks up its path and replaces the document found by one with the whole text, tagged modified, or creates one |
| `StoredTexts.RenamedBuilds` | jobs/autoindexer/data_source_handler/git_handler.py:301-322 | a Renamed item looks up the old path and replaces the document found by one under the new path with the whole text, tagged renamed, or creates one; without an old path it does nothing |
| `StoredTexts.OthersBuild` | jobs/autoindexer/data_source_handler/git_handler.py:253-299 | a Deleted item removes the document found under its path; other change types do nothing; the path is the new one if there is one |
| `StoredTexts.FlushOrder` | jobs/autoindexer/data_source_handler/git_handler.py:324-346 | a flush submits creates, updates and deletes in that order, each buffer whole, iff it holds enough |
| `StoredTexts.FlushErrors` | jobs/autoindexer/data_source_handler/git_handler.py:472-503 | three failing calls of one flush record their three errors in that order |
| `WholeRuns.RoundDecides` | jobs/autoindexer/data_source_handler/git_handler.py:265-322 | if the listing is refused or no document has the path, a Modified or Renamed item creates its document and a Deleted one does nothing; otherwise one document with that path is replaced by the item's, or removed |
| `WholeRuns.LookupErrorNamesPath` | jobs/autoindexer/data_source_handler/git_handler.py:270-310 | a refused listing is the first thing a round records, with the path asked for: the old one for a renamed file |
| `FlushTiming.LookupUndisturbed` | jobs/autoindexer/data_source_handler/git_handler.py:324-335 | whatever part of the earlier work has been flushed, a lookup answers as at the start |
| `FlushTiming.ImmediateIsPlanned` | jobs/autoindexer/data_source_handler/git_handler.py:252-346 | doing each item at once equals all lookups first and three whole lists submitted once |
| `FlushTiming.FlushTimingIsIrrelevant` | jobs/autoindexer/data_source_handler/git_handler.py:252-346 | an error-free diff run leaves the index of both unbuffered readings |
| `GitAgreement.IncrementalMeaning` | jobs/autoindexer/data_source_handler/git_handler.py:233-349 | on an exact index an error-free diff run is one map update per diff item |
| `GitAgreement.FullMeaning` | jobs/autoindexer/data_source_handler/git_handler.py:202-231 | an error-free full run on an empty index represents exactly the indexable files of the commit |
| `StoredTexts.FullMapTexts` | jobs/autoindexer/data_source_handler/git_handler.py:398-410 | the full map holds exactly the wanted files, with their texts as they are in the commit |
| `StoredTexts.FullRunStoresTexts` | jobs/autoindexer/data_source_handler/git_handler.py:202-231 | an error-free full run on an empty index stores the whole text of each wanted file in exactly one document, and nothing else |
| `GitAgreement.UpdatesReachFullMap` | jobs/autoindexer/data_source_handler/git_handler.py:253-322 | the items' map updates turn the old commit's full map, under the configuration it was indexed with, into the new one's under that of the run iff the guard holds: per item, and no file outside the diff enters or leaves through edited patterns |
| `GitAgreement.IncrementalAgreesIff` | jobs/autoindexer/data_source_handler/git_handler.py:233-349 | from an exact index of the old commit under its run's configuration, an error-free diff run under its own leaves an exact index of the new one iff the guard holds |
| `StoredTexts.DiffRunStoresTexts` | jobs/autoindexer/data_source_handler/git_handler.py:233-349 | so does an error-free incremental run under the guard |
| `WholeRuns.FullWayStoresTexts` | jobs/autoindexer/data_source_handler/git_handler.py:117-138 | a pinned commit, no or an unknown last commit, or a raised error flag: an error-free run from an empty index stores the whole text of each wanted file once and nothing else |
| `WholeRuns.DiffWayStoresTexts` | jobs/autoindexer/data_source_handler/git_handler.py:131-138 | otherwise an error-free run does so from the exact index of the last commit, under the guard |
| `GitAgreement.IncrementalEqualsFullIff` | jobs/autoindexer/data_source_handler/git_handler.py:202-349 | the incremental result and that of a full run of another work directory with the same patterns hold the same path-to-text map iff the guard holds |
| `GitAgreement.SameFilterAgreesElsewhere` | jobs/autoindexer/main.py:231-232 | without an edit of the patterns the part of the guard about files outside the diff holds |
| `GitAgreement.ChainAgrees` | jobs/autoindexer/data_source_handler/git_handler.py:131-138 | over any chain of commits satisfying the guard, each run with its own work directory and the patterns of its time, incremental runs keep the index equal to a full index |
| `SkippedWork.EmptiedFileKeepsItsDocument` | jobs/autoindexer/data_source_handler/git_handler.py:267-268 | concrete input: a modified file with empty new text keeps its old document |
| `SkippedWork.RenameToFilteredKeepsDocument` | jobs/autoindexer/data_source_handler/git_handler.py:255-256 | concrete input: a rename to a hidden path keeps the document of the old path |
| `SkippedWork.UnwalkedDirectoryIsIndexed` | jobs/autoindexer/data_source_handler/git_handler.py:357 | concrete input: a file below `x.git` is added by the diff but is not in the full map |
| `SkippedWork.TypeChangeKeepsOldText` | jobs/autoindexer/data_source_handler/git_handler.py:259-301 | concrete input: a change type without a branch keeps the old text |
| `SkippedWork.RemovedFileIsKept` | jobs/autoindexer/data_source_handler/git_handler.py:497-503 | concrete input: a removed file's document goes with the delete method and stays, with an error, without it |
| `DeleteGap.ErrorFreeIff` | jobs/autoindexer/data_source_handler/git_handler.py:270-276 | a diff run records no error iff every call it made was answered and it decided on no deletion that cannot be sent |
| `DeleteGap.DeletionIsRecorded` | jobs/autoindexer/data_source_handler/git_handler.py:497-503 | without the delete method a diff that removes an indexed file always records an error |
| `DeleteGap.DeletionsFailIff` | jobs/autoindexer/data_source_handler/git_handler.py:494-503 | with every call answered, a diff run is error-free iff the client has the method or the diff removes no indexed file |
| `DeleteGap.RunDropsNothing` | jobs/autoindexer/data_source_handler/git_handler.py:499 | without the delete method no run takes a document out of the index |
| `DeleteGap.RemovedFileStands` | jobs/autoindexer/data_source_handler/git_handler.py:494-503 | without the delete method a removed file's documents stand unchanged after the run, whatever fails |
| `DeleteGap.DeletionForcesFullRunIff` | jobs/autoindexer/data_source_handler/git_handler.py:118-138 | such a run raises the error flag; whatever reconciles follow, the next unpinned run is full if there is none or the last one fails, and incremental otherwise; no old document leaves the index |
| `DeleteGap.DeletionIsLost` | pkg/autoindexer/controllers/autoindexer_controller.go:187-190 | after one ordinary reconcile the next run at that commit records no error, leaves the flag down and the removed file's document unchanged |
| `DeleteGap.NothingLeavesTheIndex` | jobs/autoindexer/data_source_handler/git_handler.py:499 | over every history of such runs and reconciles, up to a remediation, no document leaves the index |
| `Coverage.DiffRunCovers` | jobs/autoindexer/data_source_handler/git_handler.py:233-349 | an error-free diff run carries coverage from the old commit under its configuration to the new one under that of the run, from any index |
| `Coverage.CoveredIffHarmless` | jobs/autoindexer/data_source_handler/git_handler.py:259-301 | from an exact index it covers the new commit iff every file now to be indexed that no handled item brings was indexed with the same text before |
| `Coverage.HarmlessIfPatternsStay` | jobs/autoindexer/data_source_handler/git_handler.py:259-301 | with the same patterns that is: no change type without a branch alters an indexable text |
| `FailedRuns.DiffRunCoversIff` | jobs/autoindexer/data_source_handler/git_handler.py:233-349 | from any index and with any calls failing, an incremental run covers its commit iff the index had the text of every file that no item brings and of every file whose document was submitted and not stored |
| `FailedRuns.BroughtOrLost` | jobs/autoindexer/data_source_handler/git_handler.py:259-346 | whatever fails, the document of an item that brings a text is stored, or it is lost and what the index held under its path is as it was |
| `FailedRuns.FailedDiffCoversIff` | jobs/autoindexer/data_source_handler/git_handler.py:270-276 | so from a covered commit failed lookups and failed deletions do no harm; coverage depends on the lost documents only |
| `Coverage.FullRunCovers` | jobs/autoindexer/data_source_handler/git_handler.py:202-231 | an error-free full run covers the commit, whatever the index held |
| `StoredTexts.CoversTexts` | jobs/autoindexer/data_source_handler/git_handler.py:202-231 | coverage means that each wanted file has a document with its text as it is in the commit |
| `Coverage.RunKeepsValid` | jobs/autoindexer/data_source_handler/git_handler.py:99-158 | whatever fails, fresh ids stay fresh |
| `IndexHistory.Resource.UpdateAutoindexerStatus` | jobs/autoindexer/data_source_handler/git_handler.py:509-527 | one write of the four conditions, and of the commit iff the checkout succeeded |
| `IndexHistory.AutoIndexerJob.Execute` | jobs/autoindexer/main.py:270-312 | a run's status writes and indexing compose to one step on store and status; it succeeds iff no error was recorded |
| `IndexHistory.FlagAfterRun` | jobs/autoindexer/main.py:285-311 | after a run the error flag is up if errors were recorded, and from distinct condition types exactly then |
| `IndexHistory.StatusAfterRun` | jobs/autoindexer/data_source_handler/handler.py:85-119 | after a run, whatever was there: succeeded, not failed, no longer indexing, error by the recorded errors, each with its reason and the time of the run; other conditions stay; the commit is that of the checkout |
| `IndexHistory.FirstRunList` | jobs/autoindexer/main.py:282-311 | the list a first run leaves: indexing first, set by the start and lowered by the end, then succeeded, error and failed |
| `IndexHistory.StartIsShown` | jobs/autoindexer/main.py:282 | while it runs the object shows that indexing has started |
| `IndexHistory.RunWithoutErrorsCovers` | jobs/autoindexer/data_source_handler/git_handler.py:117-138 | from a sound state, a run without errors covers the commit it records |
| `IndexHistory.HistoryIsSound` | jobs/autoindexer/data_source_handler/git_handler.py:117-138 | over every history of runs with arbitrary failures and patterns edited in between, remediations, failing reconciles and flag-respecting ordinary ones: flag down and commit recorded imply coverage under the configuration of the run that recorded it |
| `IndexHistory.RemediatedRunIsFull` | jobs/autoindexer/data_source_handler/git_handler.py:131-138 | after a remediation whose status lands, an error-free run represents its commit exactly |
| `IndexHistory.LastReconcileDecides` | pkg/autoindexer/controllers/autoindexer_controller.go:180-190 | reconciles between runs leave store and commit alone, and the last of them alone decides the error flag |
| `IndexHistory.ClearingTheFlagLosesFiles` | pkg/autoindexer/controllers/autoindexer_controller.go:187-190 | the plainest instance: for every commit with an indexable file, a first run whose calls all fail and store nothing, an ordinary reconcile and a second run leave the file missing with the flag down and no error |
| `LostFiles.FullRunCoversIff` | jobs/autoindexer/data_source_handler/git_handler.py:202-231 | whatever fails, a full run covers its commit iff the index had the text of every document submitted and not stored |
| `LostFiles.FirstRunCoversIff` | jobs/autoindexer/data_source_handler/git_handler.py:202-231 | on an empty index: iff every call stored all it was given |
| `LostFiles.ClearedFlagSoundIff` | pkg/autoindexer/controllers/autoindexer_controller.go:187-190 | a full run with any failures, an ordinary reconcile, a run at the same commit: flag down, commit recorded, no error, and the invariant holds iff the index had the text of every document not stored |
| `LostFiles.ClearedFirstRunSoundIff` | pkg/autoindexer/controllers/autoindexer_controller.go:187-190 | after a first run on an empty index: iff every call stored all it was given |
| `LostFiles.ClearedDiffSoundIff` | pkg/autoindexer/controllers/autoindexer_controller.go:187-190 | an incremental run with any failures, an ordinary reconcile, a run at the same commit: flag down, commit recorded, no error, and the invariant holds iff no lost document is about a file whose text the index did not have |
| `LostFiles.EditedPatternsSoundIff` | jobs/autoindexer/main.py:231-232 | a run at the recorded commit after an edit of the patterns records no error, and covers it under the new patterns iff they admit no file the old ones left out |
| `LostFiles.EditedPatternsLoseFile` | jobs/autoindexer/data_source_handler/git_handler.py:131-134 | so a file newly admitted after an error-free first run is lost with the flag down |
| `IndexHistory.LostRemediationBreaksIff` | pkg/autoindexer/controllers/autoindexer_controller.go:468-488 | a remediation whose status write is lost breaks the invariant iff the recorded commit has an indexable file |
| `Conditions.ConditionList.SetAutoIndexerCondition` | pkg/autoindexer/controllers/autoindexer_status.go:28-51 | appends a new type; on an equal status leaves the whole list alone; on another status replaces the entry |
| `Conditions.ConditionList.UpdateStatusConditions` | pkg/autoindexer/controllers/autoindexer_controller.go:238-255 | the nested loops are one replacing write per new condition |
| `Conditions.ConditionList.AddStatusCondition` | jobs/autoindexer/k8s/k8s_client.py:147-202 | appends a new type; otherwise stores status and reason, with the old time on an equal status and the new time on another |
| `Conditions.ConditionList.MergeBaseConditions` | jobs/autoindexer/data_source_handler/handler.py:107-117 | the merge loop is one replacing write per base condition |
| `Conditions.WriteRefinesMapUpdate` | pkg/autoindexer/controllers/autoindexer_status.go:38-50 | every writer is one map update; it keeps the order of the rest and distinct types |
| `Conditions.SetLeavesEqualStatus` | pkg/autoindexer/controllers/autoindexer_status.go:39-46 | setAutoIndexerCondition leaves the list alone on an equal status and replaces the entry on another |
| `Conditions.AddTakesReason` | jobs/autoindexer/k8s/k8s_client.py:191-197 | add_status_condition takes the new reason, and keeps kind, status and time on an equal status |
| `Conditions.ReplacersReplace` | pkg/autoindexer/controllers/autoindexer_controller.go:240-248 | the other two writers replace the entry whatever it was |
| `Conditions.WriteAppends` | pkg/autoindexer/controllers/autoindexer_status.go:49-50 | every writer appends a type that is not there |
| `Conditions.InterleavedWriters` | jobs/autoindexer/k8s/k8s_client.py:188-202 | any interleaving of the four writers refines the same map updates, keeps types distinct and the old types in place |
| `Conditions.WritersCommuteIff` | jobs/autoindexer/k8s/k8s_client.py:188-202 | two writes of different types commute iff one of the types is in the list already |
| `Conditions.TransitionTime` | jobs/autoindexer/k8s/k8s_client.py:191-202 | after any mix of the four writers, status and transition time are those of the last call that replaced the condition or changed its status |
| `Conditions.LastReason` | pkg/autoindexer/controllers/autoindexer_status.go:39-46 | after any mix of the four writers the reason of a type is that of the last call that is not a setAutoIndexerCondition with an unchanged status |
| `Conditions.KeptTransitionTime` | pkg/autoindexer/controllers/autoindexer_status.go:39-50 | when only the two keeping writers write a type, the time is that of the first call in the trailing run of equal statuses |
| `Conditions.RunStartIsUnique` | jobs/autoindexer/k8s/k8s_client.py:191-202 | the call that fixes the time, or the reason, is unique |
| `Conditions.ReplacingWritersResetTimes` | jobs/autoindexer/data_source_handler/handler.py:107-117 | the two replacing writers store the new time although the status stays the same |
| `Conditions.WriteMovesFlag` | jobs/autoindexer/data_source_handler/git_handler.py:118-121 | only a write of the error type moves the error flag, and sets it to what was written |
| `Conditions.FlagIsLookup` | jobs/autoindexer/data_source_handler/git_handler.py:117-121 | the error flag is up iff the error condition is there with status True; Unknown does not raise it |
| `JobStatus.GetJobStatus` | pkg/autoindexer/controllers/autoindexer_controller.go:194-235 | the three counts and the latest-failed flag of any job list |
| `JobStatus.LatestFailedMeaning` | pkg/autoindexer/controllers/autoindexer_controller.go:207-234 | if a classified job starts after the seed the flag is about the first of the latest ones, otherwise it is down |
| `JobStatus.LatestFailedIff` | pkg/autoindexer/controllers/autoindexer_controller.go:207-231 | in start times and counters: the flag is up iff a failed job started after the first started job and last of all jobs with a state, first among equals |
| `JobStatus.CountMeaning` | pkg/autoindexer/controllers/autoindexer_controller.go:213-226 | the counts are the numbers of jobs that are active; failed and not active; succeeded, not failed and not active |
| `JobStatus.CountsAddUp` | pkg/autoindexer/controllers/autoindexer_controller.go:209-232 | the three counts and the unclassified jobs add up to the list |
| `JobStatus.SingleJobNeverLatest` | pkg/autoindexer/controllers/autoindexer_controller.go:210-212 | with at most one job no failure is reported |
| `Reconciler.AutoIndexerReconciler.UpdateStatus` | pkg/autoindexer/controllers/autoindexer_controller.go:238-255 | sets the phase and upserts the conditions in memory, nothing else |
| `Reconciler.AutoIndexerReconciler.SetAutoIndexerCondition` | pkg/autoindexer/controllers/autoindexer_status.go:28-51 | upserts one condition in memory, nothing else |
| `Reconciler.AutoIndexerReconciler.EnsureCronJob` | pkg/autoindexer/controllers/autoindexer_controller.go:668-706 | creates the CronJob, or updates it when suspend or anything else differs, so that its suspend field is the object's unless a call fails |
| `Reconciler.AutoIndexerReconciler.EnsureOneTimeJob` | pkg/autoindexer/controllers/autoindexer_controller.go:709-742 | creates the Job if the API server has none of its name; a stale cache makes it an error |
| `Reconciler.AutoIndexerReconciler.EnsureRequiredResources` | pkg/autoindexer/controllers/autoindexer_controller.go:516-549 | the first failing resource decides the conditions; otherwise the error condition is cleared |
| `Reconciler.AutoIndexerReconciler.HandlePendingPhase` | pkg/autoindexer/controllers/autoindexer_controller.go:259-299 | a scheduled object becomes Suspended or Scheduled by spec.suspend; a one-time one creates its Job and becomes Running, or Failed with two conditions and an error if that fails |
| `Reconciler.AutoIndexerReconciler.HandleScheduledPhase` | pkg/autoindexer/controllers/autoindexer_controller.go:302-333 | suspended: Suspended; a job active: Running; drift annotated and policy Auto or Manual: DriftRemediation; otherwise unchanged; a failed job listing is an error |
| `Reconciler.AutoIndexerReconciler.HandleSuspendedPhase` | pkg/autoindexer/controllers/autoindexer_controller.go:336-346 | becomes Scheduled if spec.suspend is no longer true, otherwise unchanged |
| `Reconciler.AutoIndexerReconciler.HandleRunningPhase` | pkg/autoindexer/controllers/autoindexer_controller.go:349-375 | with no job active: Failed if the latest job failed and there is no schedule, else Scheduled or Completed if a job completed; otherwise unchanged; a failed job listing is an error |
| `Reconciler.AutoIndexerReconciler.SetSuspendedState` | pkg/autoindexer/controllers/autoindexer_status.go:63-74 | sets spec.suspend in memory and patches it if it changed; the answer may bring back the stored status |
| `Reconciler.AutoIndexerReconciler.StampRemediated` | pkg/autoindexer/controllers/autoindexer_controller.go:484-488 | stamps the remediation in memory and patches it if the annotation changed |
| `Reconciler.AutoIndexerReconciler.DropDriftedIndex` | pkg/autoindexer/controllers/autoindexer_controller.go:454-488 | deletes the index if listed, resets the git commit, stamps |
| `Reconciler.AutoIndexerReconciler.HandleDriftRemediationPhase` | pkg/autoindexer/controllers/autoindexer_controller.go:392-489 | in this order: Ignore leaves for Pending; flag down unsuspends, then leaves for Pending; Manual or no policy waits; unsuspended is suspended; remediated waits; an active job waits; otherwise the index is dropped |
| `Reconciler.AutoIndexerReconciler.HandleByPhase` | pkg/autoindexer/controllers/autoindexer_controller.go:157-178 | the handler of the phase acts, Completed and Failed do nothing, an unknown phase becomes Pending |
| `Reconciler.AutoIndexerReconciler.PatchAndReturn` | pkg/autoindexer/controllers/autoindexer_status.go:76-84 | stores the status part only, unless the patch is refused |
| `Reconciler.AutoIndexerReconciler.SyncAutoIndexer` | pkg/autoindexer/controllers/autoindexer_controller.go:147-191 | a failed resource ends the sync; otherwise the handler's error decides the final error and ready conditions; the status is patched in every case |
| `Reconciler.AutoIndexerReconciler.GarbageCollectAutoIndexer` | pkg/autoindexer/controllers/autoindexer_gc_finalizer.go:16-53 | waits for active jobs, deletes the index, then takes the finalizer off: the object is gone only with its index gone and no job active |
| `Reconciler.AutoIndexerReconciler.ReconcileOnce` | pkg/autoindexer/controllers/autoindexer_controller.go:110-144 | the whole reconcile, finalizer first, refines the step of the protocol; a live object's index goes only for an annotated drift under Auto, suspended, with no job active |
| `Outcomes.LeavesPending` | pkg/autoindexer/controllers/autoindexer_controller.go:259-299 | Pending becomes Suspended, Scheduled, Running or Failed, each iff schedule, suspension and the Job say so |
| `Outcomes.LeavesScheduled` | pkg/autoindexer/controllers/autoindexer_controller.go:302-333 | Scheduled becomes Suspended, Running or DriftRemediation, or stays, each iff suspension, listing, active jobs, flag and policy say so |
| `Outcomes.LeavesSuspended` | pkg/autoindexer/controllers/autoindexer_controller.go:336-346 | Suspended becomes Scheduled iff spec.suspend is not true |
| `Outcomes.LeavesRunning` | pkg/autoindexer/controllers/autoindexer_controller.go:349-375 | Running becomes Failed, Scheduled or Completed, or stays, each iff listing, the jobs' counters and start times and the schedule say so |
| `Outcomes.LeavesRemediation` | pkg/autoindexer/controllers/autoindexer_controller.go:392-428 | a handled DriftRemediation is left for Pending iff the policy is Ignore, or the flag is down and the object is not suspended |
| `Outcomes.OtherPhases` | pkg/autoindexer/controllers/autoindexer_controller.go:168-177 | an unknown phase becomes Pending, finished ones stay |
| `Outcomes.IdlePhase` | pkg/autoindexer/controllers/autoindexer_controller.go:150-155 | a reconcile that is not handled or whose status is not stored keeps the phase |
| `Outcomes.IndexOutcome` | pkg/autoindexer/controllers/autoindexer_controller.go:430-475 | the index of a live object goes iff every guard of the remediation holds and the deletion is performed |
| `Outcomes.AnnotationsOutcome` | pkg/autoindexer/controllers/autoindexer_controller.go:484-488 | the annotations change by the remediation stamp alone, iff a remediation gets past its deletion and the patch is stored |
| `Outcomes.CommitOutcome` | pkg/autoindexer/controllers/autoindexer_controller.go:477-482 | commit and document count are reset together, iff a remediation of a git source gets past its deletion, the status survives the patch and is stored |
| `Outcomes.SuspendOutcome` | pkg/autoindexer/controllers/autoindexer_controller.go:402-428 | a reconcile sets spec.suspend at the start of an Auto remediation, takes it back when the flag is down, and touches it nowhere else |
| `Outcomes.JobsOutcome` | pkg/autoindexer/controllers/autoindexer_controller.go:709-742 | the one-time Job is created iff a Pending object without a schedule is handled, the server has none and the creation is performed |
| `Outcomes.CronOutcome` | pkg/autoindexer/controllers/autoindexer_controller.go:668-706 | the CronJob is written iff the object has a schedule and it differs; then it carries the object's suspend field |
| `Outcomes.HandlerFailsIff` | pkg/autoindexer/controllers/autoindexer_controller.go:180-185 | the phase handler returns an error in exactly the listed cases |
| `Outcomes.ConditionsOutcome` | pkg/autoindexer/controllers/autoindexer_controller.go:180-190 | the conditions after a reconcile, write by write, for every way it can end |
| `Outcomes.UserFieldsStay` | pkg/autoindexer/controllers/autoindexer_controller.go:134-144 | schedule, policy and source stay; the finalizer is on afterwards iff it was or its patch is performed |
| `Outcomes.CollectedIff` | pkg/autoindexer/controllers/autoindexer_gc_finalizer.go:16-53 | a deleted object is gone iff read, jobs listed and none active, deletion answered and update performed; otherwise it is stored unchanged, and only the index may go |
| `OutcomeRuns.RemediationLeftIff` | pkg/autoindexer/controllers/autoindexer_controller.go:392-428 | whatever fails, DriftRemediation is left iff handled with the status stored, and Ignore or the flag down and not suspended |
| `OutcomeRuns.WaitingReconcile` | pkg/autoindexer/controllers/autoindexer_controller.go:416-419 | under Manual or no policy with the flag up any reconcile leaves phase, suspension, annotations, commit, count and index |
| `OutcomeRuns.WaitsForTheUser` | pkg/autoindexer/controllers/autoindexer_controller.go:416-419 | and so does every run without a user's edit or a visit of the detector |
| `OutcomeRuns.ResetSilencesDetector` | pkg/autoindexer/controllers/autoindexer_controller.go:477-482 | after a remediation that resets a git source the detector finds nothing in any run up to the next job report |
| `OutcomeRuns.NoCountNoDetection` | pkg/autoindexer/driftdetection/detector.go:177-182 | with a count of zero it finds nothing up to the next job report |
| `OutcomeRuns.OneTimeCompletes` | pkg/autoindexer/controllers/autoindexer_controller.go:358-371 | the run of a one-time indexer from creation to Completed |
| `Protocol.PhasesAlwaysFit` | pkg/autoindexer/controllers/autoindexer_controller.go:159-178 | while schedules are added or removed in Unset, Pending and Running only, scheduled phases imply a schedule and finished ones none |
| `Protocol.PhasesFitIff` | pkg/autoindexer/controllers/autoindexer_controller.go:159-178 | phases fit the schedule in every state of a run iff no edit of the schedule comes later than that |
| `Protocol.FinishedForGood` | pkg/autoindexer/controllers/autoindexer_controller.go:378-389 | Completed and Failed are never left, whatever users edit |
| `DriftProtocol.IndexDropIsGuarded` | pkg/autoindexer/controllers/autoindexer_controller.go:396-475 | in every run, when a reconcile drops the index: policy Auto, drift annotated and not remediated since, no active job, suspended; with a schedule the CronJob has just been suspended, without one it is as it was; without late edits there is a schedule |
| `DriftProtocol.DropRemediatesIff` | pkg/autoindexer/controllers/autoindexer_controller.go:430-442 | every drop, whatever else fails, marks the drift as remediated iff the deletion is answered, the patch of the stamp is stored and the clock is past the second of the detection |
| `DriftProtocol.DropsNeedDetections` | pkg/autoindexer/controllers/autoindexer_controller.go:430-488 | between two drops the detector has stored a detection if the first one's deletion was answered and its stamp stored after the second of its own detection, whatever else fails |
| `DriftProtocol.StaysRemediated` | pkg/autoindexer/controllers/autoindexer_controller.go:430-442 | a remediated drift stays remediated through every step but a detection |
| `DriftProtocol.RemediationIsBounded` | pkg/autoindexer/controllers/autoindexer_controller.go:392-489 | with users quiet and writes done, at most five steps change an object in remediation; it leaves for Pending, unsuspended |
| `DriftProtocol.RemediationCompletes` | pkg/autoindexer/controllers/autoindexer_controller.go:392-489 | suspend, drop and stamp, clear, unsuspend, leave: five steps end in Pending with the index gone; the git commit is reset if the stamp's patch keeps the status in memory and is the old one otherwise |
| `ErrorFlag.RemediationResetsCommitIff` | pkg/autoindexer/controllers/autoindexer_controller.go:477-488 | with every call answered the git commit stays reset, through any run up to a detection or job report, iff the patch keeps the status in memory |
| `DriftProtocol.VisitSkipsRemediation` | pkg/autoindexer/driftdetection/detector.go:135-147 | one visit between detection and drop ends the remediation without a drop |
| `RemediationRuns.DropIffEnoughReconciles` | pkg/autoindexer/driftdetection/detector.go:135-147 | through any well-answered reconciles, visits and ticks up to the end of the phase the index is dropped iff the first visit comes after two reconciles, or one if the object was suspended |
| `RemediationRuns.RefusedStampDropsTwice` | pkg/autoindexer/controllers/autoindexer_controller.go:484-488 | a drop whose stamp is refused does not count: the next reconcile drops an index written again, with no new detection and past the second of the old one |
| `RemediationRuns.SuspensionUndoneIff` | pkg/autoindexer/controllers/autoindexer_controller.go:396-410 | a reconcile takes a suspension back iff the object is in remediation with the flag down and its policy is not Ignore, its resources are ensured and the patch is stored |
| `RemediationRuns.IgnoredSuspensionStays` | pkg/autoindexer/controllers/autoindexer_controller.go:396-400 | if the policy is set to Ignore while the controller's suspension is on, the remediation is left and the suspension stays through every run without a user's edit |
| `DriftProtocol.AnnotatedDriftIsStamped` | pkg/autoindexer/driftdetection/detector.go:241-255 | in every run an annotated drift carries the stamp of a detection that is not in the future |
| `DriftCycle.WellReconcile` | pkg/autoindexer/controllers/autoindexer_controller.go:257-375 | when every call succeeds a reconcile takes a scheduled object outside remediation along one arrow of its phase diagram and moves nothing but conditions and finalizer |
| `DriftCycle.DriftIsRemediated` | pkg/autoindexer/controllers/autoindexer_controller.go:110-191 | from creation: scheduled, indexed, drifted, and with all calls succeeding back in Pending, unsuspended, index gone |
| `DriftCycle.TwoDropsInOneSecond` | pkg/autoindexer/controllers/autoindexer_controller.go:430-442 | a run with two drops for one detection, all in the second of the detection |
| `DriftCycle.DropsAgain` | pkg/autoindexer/controllers/autoindexer_controller.go:430-442 | whenever a drop happens in the second of its detection, an index written again in that second is dropped again |
| `DriftCycle.LateEditSparesCronJob` | api/v1alpha1/autoindexer_validation.go:266-268 | a schedule removed between suspension and drop: the drop goes on and the CronJob is left running |
| `Lifecycle.OneTimeStartsOnce` | pkg/autoindexer/controllers/autoindexer_controller.go:709-742 | in every run, whatever fails and whatever users edit, the schedule included, at most one one-time Job is ever created |
| `Lifecycle.StaysOneTime` | pkg/autoindexer/controllers/autoindexer_controller.go:270-296 | an indexer that is never given a schedule has no CronJob and at most its one Job, in every run |
| `Lifecycle.OneTimeMovesForward` | pkg/autoindexer/controllers/autoindexer_controller.go:270-296 | never given a schedule, it keeps its phase or lowers its rank in each step; Failed is reached only from Pending when the Job cannot be ensured |
| `Lifecycle.FailedJobStaysRunning` | pkg/autoindexer/controllers/autoindexer_controller.go:359-371 | a one-time indexer, never given a schedule, whose only Job has failed stays Running |
| `Lifecycle.StaleCacheReportsFailed` | pkg/autoindexer/controllers/autoindexer_controller.go:729-737 | with a stale cache a re-entered Pending reports Failed while the Job goes on |
| `Lifecycle.StaleCacheRun` | pkg/autoindexer/controllers/autoindexer_controller.go:272-295 | the run from creation that gets there: pick up, create the Job and lose the status patch, read a stale cache |
| `Lifecycle.NothingDisappearsIndexed` | pkg/autoindexer/controllers/autoindexer_gc_finalizer.go:28-50 | no object that ever started work disappears except in a step with no active job and the index deleted |
| `ErrorFlag.ReconcileClearsTheFlag` | pkg/autoindexer/controllers/autoindexer_controller.go:187-190 | in every phase an ordinary reconcile takes the error flag down; outside remediation it keeps the commit |
| `ErrorFlag.ReconcileFlagIff` | pkg/autoindexer/controllers/autoindexer_controller.go:152-190 | in every phase, with the status patch stored, the error flag is up after a reconcile iff ensuring the resources or the phase handler failed |
| `WholeSystem.ReconcileIsHistory` | pkg/autoindexer/controllers/autoindexer_controller.go:110-191 | every reconcile of a live object, whatever fails, is on error flag, commit and index the history of a remediation, if there is one, and an ordinary or failing reconcile |
| `WholeSystem.WholeStaysSound` | jobs/autoindexer/main.py:270-312 | over every run of controller, detector, users and whole job runs on one status and index: as long as no reconcile lowers a raised flag or drops the index silently, flag down and commit recorded imply coverage |
| `WholeSystem.NewObjectIsSound` | pkg/autoindexer/controllers/autoindexer_controller.go:110-132 | a newly created object with no recorded commit satisfies that invariant |
| `ErrorFlag.RefusedStatusPatchKeepsCommit` | pkg/autoindexer/controllers/autoindexer_controller.go:477-488 | a refused status patch after a drop leaves the commit recorded through every run up to the next detection or job report |
| `ErrorFlag.CommitStays` | pkg/autoindexer/controllers/autoindexer_controller.go:430-442 | once a drift counts as remediated the commit stays through every run without a detection or a job report, whatever fails |
| `Detector.DriftDetector.CheckAutoIndexerDrift` | pkg/autoindexer/driftdetection/detector.go:152-214 | drift iff Scheduled, not suspended, not Ignore, nonzero expected count and a fetched differing one; skipped and failed checks report none |
| `Detector.DriftDetector.SetDriftDetected` | pkg/autoindexer/driftdetection/detector.go:241-255 | sets flag and stamp on one object, or nothing when the update fails |
| `Detector.DriftDetector.SetDriftRemediated` | pkg/autoindexer/driftdetection/detector.go:257-274 | sets the flag to false on one object, writing nothing when it is absent, empty or false |
| `Detector.DriftDetector.PerformDriftCheck` | pkg/autoindexer/driftdetection/detector.go:96-149 | one pass visits every object once; each whose update is stored has the flag up iff it is Scheduled, not suspended, not Ignore, with a fetched count that differs from a nonzero expected one; the stamp moves exactly then and the rest stays |
| `Detector.PassMarksExactly` | pkg/autoindexer/driftdetection/detector.go:112-148 | the pass as a function marks every object so, and leaves one whose update fails as it was |
| `Detector.PassIsStable` | pkg/autoindexer/driftdetection/detector.go:134-147 | a second pass with the same answers moves stamps only |
| `Detector.PassIsDetect` | pkg/autoindexer/driftdetection/detector.go:112-148 | the detector step of the protocol is one round of the pass |
| `PathPatterns.AcceptedByParts` | api/v1alpha1/autoindexer_validation.go:133-168 | the seven expressions accept exactly the strings whose parts between slashes have one of eight shapes |
| `PathPatterns.GlobstarIsRedundant` | api/v1alpha1/autoindexer_validation.go:136-139 | patGlobstar accepts nothing that patMiddleGlobstar does not |
| `PathPatterns.AcceptedParts` | api/v1alpha1/autoindexer_validation.go:142-168 | accepted patterns have no empty part, at most one `**`, and `**` never alone |
| `PathPatterns.ClassCharacters` | api/v1alpha1/autoindexer_validation.go:134-140 | the character classes of the expressions, letter by letter |
| `PathPatterns.OnePartForms` | api/v1alpha1/autoindexer_validation.go:127-132 | one part: every name, `*` and `*.ext` are accepted, the empty pattern and `**` are not |
| `PathPatterns.TwoPartForms` | api/v1alpha1/autoindexer_validation.go:127-132 | two parts: the accepted and refused combinations of names, `*`, `**` and `*.ext` |
| `PathPatterns.MorePartForms` | api/v1alpha1/autoindexer_validation.go:127-132 | three and four parts: where `**` and `*.ext` may stand |
| `PathPatterns.IndexNames` | api/v1alpha1/autoindexer_validation.go:56-61 | the webhook accepts exactly the nonempty lower-case dashed names without a dash at either end; the CRD pattern those of two or more characters |
| `StaticIndexer.StaticHandler.UpdateIndex` | jobs/autoindexer/data_source_handler/static_handler.py:93-165 | documents go out in order in tens; a failed fetch leaves exactly the full batches of what came before; no error iff every fetch and call succeeds, and then everything is sent; a refused full batch reads as a failed fetch, a refused last one is reported once |
| `StaticIndexer.DocsAreTexts` | jobs/autoindexer/data_source_handler/static_handler.py:109-134 | the documents are the whole fetched texts that are not empty, each once and in order |
| `StaticIndexer.DownloadBounded` | jobs/autoindexer/data_source_handler/static_handler.py:211-231 | content is returned iff declared and actual size fit, and is the concatenation of the chunks |

## Left out

- HistoryIsSound: assumes that reconciles leave a raised error flag alone, that remediation status writes land, and that each diff brings every text its run has to add; `ClearedFlagSoundIff`, `ClearedDiffSoundIff`, `LostRemediationBreaksIff`, `CoveredIffHarmless` and `EditedPatternsSoundIff` give the exact conditions without each.
- IncrementalAgreesIff: its runs record no error; with the client of this repository that excludes diffs that remove an indexed file (`DeletionsFailIff`).
- RemediationIsBounded: its writes are done and users are quiet; with refused writes a step may be repeated any number of times.
- Cloning, checkout, temporary directories, diff computation and the `orgecc.filematcher` library: the tree, the walk, the diff and the include and exclude predicates are inputs.
- Reading and decoding of files (PDF extraction, character sets, content types): a commit maps a path to the extracted text or to none; empty text and a failed read look alike, as they do to the callers.
- Document metadata other than path and change type, and exceptions raised while a document is built.
- `KAITORAGClient` beyond the four calls of the git and static handlers, HTTP retries of the Go RAG client, and the engine's own document ids.
- The job's counters, durations, events and `numOfDocumentInIndex` listings: only wiring; the count is a free value of the job's report in the step system.
- Condition messages and `observedGeneration`: they follow the reason and the object and no branch reads them.
- The exception path of `main.py`'s `run` outside the data source handler: no modelled call raises there.
- Credentials, the Kusto handler, the job's command line and environment.
- ServiceAccount, Role and RoleBinding: one flag says whether ensuring them succeeds. Of the CronJob manifest only `suspend` is kept.
- Cron parsing and real time: a job appears at any time while the CronJob is not suspended.
- Symbolic links whose target changes: see the assumption on diffs.
- Interleaving inside one reconcile or inside one visit of the detector, and update conflicts: a refused write covers the outcome of a conflict.
- Webhook checks other than the path patterns and the index name: one comparison each.
