# Labello: verified models of its concurrent caches, ingest and input kernels

This project models the parts of Labello whose correctness is hardest to see by reading them, and proves what
each of them promises. `dafny verify dfyconfig.toml` checks everything.

Each model takes the form of the code it follows. Code that updates fields or buffers step by step is a class or
a method with loops, proved equal to a function of the old state; the promises are then lemmas about that
function. Code that several tasks run concurrently is in addition a step system: a step is one critical section,
a cancelled future is an abandon or cancel step, and the lemmas speak of every run of steps.

Wherever an answer is computed through an index, a cache or a queue, a lemma also says what it means in terms of
what went in: the replayed states (`…Mean`, `…Means`), the steps or events so far (`…Tells`, `…GrantedExactly`),
the files of a walk, or the detection a tensor encodes.

| file | models |
|---|---|
| `Domain.dfy`, `Totals.dfy` | identifiers, assignments, replayed image state; sums over a map |
| `Completion.dfy` | the completion projection and its cache, as classes over a recount |
| `CompletionOps.dfy` | sequences of operations on that cache: when a scan is installed |
| `CompletionProtocol.dfy` | commits, rebuilds, scans, cancelled scans and invalidations around that cache |
| `ReviewHistory.dfy` | the review-history index (newest two per key, visits) and its cache |
| `HistoryOps.dfy` | sequences of operations on that cache: which observation is kept |
| `HistoryProtocol.dfy` | its committers with their key locks, its scanner and its membership lock |
| `PreviewPool.dfy` | the preview worker pool: admission, single flight, permits |
| `Ingest.dfy` | scanning image roots and reconciling the hash index in place |
| `IngestReport.dfy` | what a pass reports and names, from the walk over the files |
| `KeyChords.dfy`, `Keybindings.dfy` | actions and chords; the greedy chord allocator and validation |
| `Geometry.dfy`, `BoxVisibility.dfy` | boxes and overlap; greedy overlap suppression |
| `PenInput.dfy` | the pen and touch event machine of the browser app |
| `Letterbox.dfy` | letterboxed model input and decoding of detector output |
| `PoseBounds.dfy` | boxes derived from exported keypoints |
| `Balance.dfy` | balance gating between tasks |

## What callers are assumed to supply

- Commits on one image are serial and either change nothing or raise its sequence; the publication guard is taken
  before the append and released after the observation (`assignment/transaction.rs:45-110`, `sync.rs:330-368`).
- An index change and the invalidation it calls are one step; for the review history it happens under the
  exclusive membership lock, so no commit is in flight then (`repository/config.rs:132-182`). A state rebuild holds
  that lock too, and its invalidation and its write are two steps between which scans may run
  (`repository/events.rs:23-41`). For the completion cache a rebuild is one step, since the completion scan reads
  each image under the image lock the rebuild holds (`assignment/polling.rs:124-129`).
- Assignment ids are unique across images and `assignment.image_id` is the owning image; a checked source
  assignment belongs to the image being committed (`assignment/revision.rs:371`).
- The dataset metadata lists the records of the image index when a pass starts, and image ids order as their
  hashes do.
- Annotation ids are unique within an image, and a letterbox size is positive.

## Where the code and what is expected of it part ways

- *Counts read back after publishing.* A caller that asks for submitted counts publishes under one lock and reads
  back under another, expecting the counts to be there. `CompletionProtocol.ReadBackFindsCounts` gives the exact
  condition, and `ReadBackCanFail` a run in which they are not: a commit abandoned in between.
- *Reservations read out of order.* A caller takes the time before it takes the lock, so a read can be served after
  one with a later time, which has dropped what had expired by then. `Completion.ReadExactly` says exactly when a
  read is still exact, and `OvertakenRead` shows one that is not. No order of times is assumed anywhere.
- *Rebuilds overtaken by a history scan.* A rebuild invalidates the review history first and rewrites the image's
  state last; a scan that reads the image in between publishes what the rebuild is about to replace.
  `HistoryProtocol.FinishRebuildExactly` and `RunKeepsInvExactly` give the exact condition, and
  `OvertakenRebuildMisleads` a run after which a superseded review passes its check.
- *Canonical paths among the duplicates.* Duplicates are filtered against the old canonical path before a new one
  is promoted. `Ingest.CanonicalListedExactly` says exactly when one pass leaves the canonical path listed,
  `PromotionLingers` shows a dataset, and `PassesSettle` that the next pass repairs it.
- *Image roots of `.`.* Such a root has an empty relative path, which contains no file, so a changed file below it
  is filed twice (`Ingest.DotRootFilesPathTwice`). `PassKeepsPathsApart` is the exact condition, and
  `SecondPassChanges` says exactly when the next pass reports such a change again.
- *Normalizing keybindings twice.* A key such as `" a"` becomes `"a"` and only then `"A"`
  (`KeyChords.SpacedLetterIsLoose`).
  `Keybindings.NormalizeIdempotentExactly` says when a second pass changes something: exactly when such a binding
  finds one of its own eight masks available at its turn, the guard of the loop over masks.
- *Balance gating without a peer.* When one task is listed twice and no other is enabled, the expected peer does
  not exist; `Balance.BlockedTasks` reports exactly that case.

## Model

| member | source | states |
|---|---|---|
| `Completion.FromStateWellFormed` | crates/labello-storage/src/completion_projection.rs:27-66 | The progress taken from any replayed state carries its sequence number, has distinct reservation ids, reserves for its own image only, and completes only tasks whose annotation is complete |
| `Completion.CompletedCountMeans` | crates/labello-storage/src/completion_projection.rs:39-47 | A recount over projected states counts, for each task, the images whose state has the task completed and not excluded by an import that was not included again |
| `Completion.AnnotatedCountMeans` | crates/labello-storage/src/completion_projection.rs:29-38 | The annotation count also has the images on which the task is submitted |
| `Completion.ReservedExactly` | crates/labello-storage/src/completion_projection.rs:48-66 | An assignment is reserved exactly when the state has it, active, on a task in the denominator that is pending, in progress, in need of correction or unknown (annotation) or submitted (review) |
| `Completion.OutstandingMeans` | crates/labello-storage/src/assignment/mod.rs:871-879 | A recomputation at a time reports exactly the assignments of the replayed states that are active, of the kind, open as above and whose lease runs: until the recorded expiry, else half an hour from the last update |
| `Completion.ListedOldestFirst` | crates/labello-storage/src/completion_projection.rs:285-287 | Listed assignments are ordered by creation, and equally old ones by id |
| `Completion.ApplyTaskDelta` | crates/labello-storage/src/completion_projection.rs:195-216 | Succeeds exactly when no decrement would underflow, and then changes each count by membership in the next and the previous set, dropping zero entries |
| `Completion.DeltaRefinesRecount` | crates/labello-storage/src/completion_projection.rs:195-216 | If the counts equal a recount, a delta for one image cannot underflow and leaves the recount of the updated images |
| `Completion.RecountUnique` | crates/labello-storage/src/completion_projection.rs:91-116 | A per-task total without zero entries is determined by the per-image sets, so "equals a recount" leaves no freedom |
| `Completion.CountImages` | crates/labello-storage/src/completion_projection.rs:91-116 | The totals built from scratch are recounts of both task sets, and the reservations are exactly those of the images |
| `Completion.TaskCompletionProjection.FromImages` | crates/labello-storage/src/completion_projection.rs:91-116 | The built projection is valid: both count maps and the reservations equal a recomputation over its images |
| `Completion.TaskCompletionProjection.Observe` | crates/labello-storage/src/completion_projection.rs:118-157 | An observation is ignored, taken over or rejected by comparing sequences; the new images are stated, underflow never happens, and counts and reservations still equal a recomputation |
| `Completion.TaskCompletionProjection.TakeOver` | crates/labello-storage/src/completion_projection.rs:135-156 | Taking progress over moves both totals by deltas and brings back every reservation of the image, without underflow |
| `Completion.TaskCompletionProjection.AssignmentProgress` | crates/labello-storage/src/completion_projection.rs:249-292 | Although it drops expired reservations for good, each read returns, strictly sorted, exactly the unexpired, same-kind, unfinished reservations of a recomputation at its time, less those that had run out at the time of a read already served since their image was last taken over; and the matching counts |
| `Completion.ReadExactly` | crates/labello-storage/src/completion_projection.rs:249-292 | A read equals that recomputation exactly when no reservation still running at its time had run out at the time of a read already served |
| `Completion.InOrderReadExact` | crates/labello-storage/src/completion_projection.rs:249-292 | With times that never run back every read is exact |
| `Completion.OvertakenRead` | crates/labello-storage/src/completion_projection.rs:529-543 | Since the time is taken before the lock, two callers can be served in reverse; the earlier one then misses a reservation that was still running |
| `Completion.ListingUnique` | crates/labello-storage/src/completion_projection.rs:272-292 | A strictly sorted listing is determined by its members, so the read has one possible answer |
| `Completion.CompletedNeverExceedsAnnotated` | crates/labello-storage/src/completion_projection.rs:82-116 | For every task the completed count never exceeds the annotation-completed count |
| `Completion.MergePending` | crates/labello-storage/src/completion_projection.rs:346-360 | Laying parked observations over a scan keeps, per captured image, the one of the higher sequence, the parked one at equal sequence |
| `Completion.TaskCompletionCache.Counts` | crates/labello-storage/src/completion_projection.rs:294-307 | Counts are there exactly when a projection of the current membership generation is present, and then equal a recount of its images |
| `Completion.TaskCompletionCache.AssignmentProgress` | crates/labello-storage/src/completion_projection.rs:249-292 | The cached read leaves the abstract cache as it was and answers as the projection does, or not at all when there is none of the current generation |
| `Completion.TaskCompletionCache.Begin` | crates/labello-storage/src/completion_projection.rs:309-326 | Starts a numbered attempt with nothing parked, whatever scan was active |
| `Completion.TaskCompletionCache.Publish` | crates/labello-storage/src/completion_projection.rs:328-381 | Ends the active scan and installs the merged images exactly when attempt, generation and captured membership all still match; the returned counts are a recount |
| `Completion.TaskCompletionCache.Abort` | crates/labello-storage/src/completion_projection.rs:383-396 | A dropped scan guard removes its own attempt and no other |
| `Completion.TaskCompletionCache.ObserveImage` | crates/labello-storage/src/completion_projection.rs:414-459 | An observation reaches the projection if there is one, else is parked with the active scan if its image was captured; a contradiction drops the projection or the scan |
| `Completion.TaskCompletionCache.ObserveCommit` | crates/labello-storage/src/completion_projection.rs:398-408 | A transition without progress is not observed at all; any other is observed as its next state |
| `Completion.TaskCompletionCache.DropMembership` | crates/labello-storage/src/completion_projection.rs:461-472 | A membership change discards projection and scan and starts a new generation |
| `Completion.TaskCompletionCache.Drop` | crates/labello-storage/src/completion_projection.rs:474-485 | An invalidation discards projection and scan within the generation |
| `CompletionOps.CommitObserved` | crates/labello-storage/src/completion_projection.rs:398-459 | Against a projection, a commit without progress is not looked at; another replaces an older entry, is ignored by a newer one, and drops the projection exactly when it contradicts an entry of its sequence |
| `CompletionOps.RebuildObserved` | crates/labello-storage/src/completion_projection.rs:414-459 | A rebuild replaces an entry that is not newer, leaves all others alone and never drops a projection |
| `CompletionOps.NumbersCount` | crates/labello-storage/src/completion_projection.rs:309-472 | Over any sequence of operations the generation counts the membership changes and the attempt number the scans begun |
| `CompletionOps.PublishInstallsExactly` | crates/labello-storage/src/completion_projection.rs:309-396 | Over any sequence of operations since it began, a scan is installed exactly when no later scan, publication, invalidation or abort of its own came in between and what it read, with what was observed meanwhile, is what it captured |
| `CompletionProtocol.StepKeepsInv` | crates/labello-storage/src/completion_projection.rs:309-485 | Every commit, append, observation, abandon, rebuild, scan and invalidation step keeps: never both projection and scan, membership as domain, entries fresh up to a commit in flight, parked entries never ahead of what was observed |
| `CompletionProtocol.RunKeepsInv` | crates/labello-storage/src/completion_projection.rs:553-635 | The invariant and the well-formedness of everything stored hold at the end of every run |
| `CompletionProtocol.ProjectionExact` | crates/labello-storage/src/completion_projection.rs:309-485 | In every reachable state a present projection answers, has exactly the membership as its domain, and holds the latest committed progress of every image without a commit in flight |
| `CompletionProtocol.QuiescentAnswersExact` | crates/labello-storage/src/completion_projection.rs:294-307 | With no commit in flight, what the counts and the open reservations are computed from equals the committed states of the members |
| `CompletionProtocol.QuiescentAnswersMean` | crates/labello-storage/src/completion_projection.rs:249-307 | In terms of replayed states: with no commit in flight each count is the number of member images on which the task is completed (or annotated), and the open reservations are the active assignments whose work is open and whose lease runs |
| `CompletionProtocol.MismatchUnreachable` | crates/labello-storage/src/completion_projection.rs:235-239 | In every reachable state an observation or rebuild never contradicts what is stored, so neither a projection nor a scan is lost to an equal-sequence mismatch |
| `CompletionProtocol.PublishKeeps` | crates/labello-storage/src/completion_projection.rs:499-510 | A scan that has read all it captured publishes exactly when it was not invalidated meanwhile |
| `CompletionProtocol.ReadBackFindsCounts` | crates/labello-storage/src/completion_projection.rs:616-632 | After publishing, the counts read back under a second lock are there exactly when the scan published and no abandoned commit, membership change or invalidation fell in between |
| `CompletionProtocol.ReadBackCanFail` | crates/labello-storage/src/completion_projection.rs:626-630 | A run of eight steps from an empty cache over one image after which the counts expected to be there are gone: an appended commit is abandoned right after its image was published |
| `CompletionProtocol.RefreshDelivers` | crates/labello-storage/src/completion_projection.rs:553-635 | A refresh that is not cancelled ends exactly by finding counts or by reading back, and it only comes to reading back with an answering projection |
| `ReviewHistory.FromState` | crates/labello-storage/src/review_history.rs:31-79 | The observation holds, per user and task, the newest finished review and, per queue, exactly the seen, unreopened workflow visits |
| `ReviewHistory.Newest` | crates/labello-storage/src/review_history.rs:90-96 | The cached first entry is the greatest of all entries, ties broken by image and assignment |
| `ReviewHistory.Refresh` | crates/labello-storage/src/review_history.rs:90-96 | First is the newest entry and second the newest of the others |
| `ReviewHistory.TopTwoDecide` | crates/labello-storage/src/review_history.rs:279-305 | Comparing with the newest entry that is not of the own image decides whether some other image holds a strictly later finished review, as a full search would |
| `ReviewHistory.Projection.Observe` | crates/labello-storage/src/review_history.rs:105-152 | Unless the stored sequence is higher, the image is replaced, and the per-key entries and visits still equal a recomputation over all images |
| `ReviewHistory.Projection.CheckPrevious` | crates/labello-storage/src/review_history.rs:279-305 | Rejects exactly when another image holds a strictly later finished review of the same user and task, or the image is not a member |
| `ReviewHistory.Projection.WorkflowHistory` | crates/labello-storage/src/review_history.rs:188-218 | The window is the newest depth + 1 visits of the queue, newest first |
| `ReviewHistory.WindowLookup` | crates/labello-storage/src/review_history.rs:477-498 | An item is found in the window exactly when one of its visits has fewer than the window size newer than it |
| `ReviewHistory.WindowUnique` | crates/labello-storage/src/review_history.rs:188-218 | The visits and the size determine the window, so equal visits give equal windows |
| `ReviewHistory.PreviousMeans` | crates/labello-storage/src/review_history.rs:52-79 | On replayed states: a review is superseded exactly when another image has a review of the same user and task, completed or given up before it ran out, that was updated later |
| `ReviewHistory.VisitsMean` | crates/labello-storage/src/review_history.rs:36-51 | On replayed states: the visits of a queue are exactly those of the assignments of its user, task, kind and variant that did not reopen another one and whose item was seen |
| `ReviewHistory.HistoryMeans` | crates/labello-storage/src/review_history.rs:188-218 | On replayed states: the history lists such seen items, latest first and then by the greater event, and misses one only for depth + 1 others seen no earlier |
| `ReviewHistory.MergeScanned` | crates/labello-storage/src/review_history.rs:388-400 | Merging keeps, per captured image, the observation of the higher sequence, the parked one at equal sequence |
| `ReviewHistory.ReviewHistoryCache.Drop` | crates/labello-storage/src/review_history.rs:257-262 | Invalidation starts a new generation and forgets projection and parked observations |
| `ReviewHistory.ReviewHistoryCache.ObserveImage` | crates/labello-storage/src/review_history.rs:264-277 | An observation updates a present projection for member images, else is parked if it is not older than what is parked |
| `ReviewHistory.ReviewHistoryCache.CheckPrevious` | crates/labello-storage/src/review_history.rs:279-305 | Without a projection the caller is told to retry; with one the answer is that of a full search |
| `ReviewHistory.ReviewHistoryCache.PublishScan` | crates/labello-storage/src/review_history.rs:382-408 | A scan installs its merge exactly when its generation is still current and otherwise changes nothing |
| `HistoryOps.ProjectionKeeps` | crates/labello-storage/src/review_history.rs:105-152 | Over any observations of a member image a projection keeps the last one of the greatest sequence; it takes in no other image |
| `HistoryOps.ParkingKeeps` | crates/labello-storage/src/review_history.rs:269-276 | Without a projection the last observation of the greatest sequence is parked |
| `HistoryOps.PublishInstalls` | crates/labello-storage/src/review_history.rs:382-408 | A current scan installs for each captured image what it read or what was parked, whichever has the greater sequence and at equal sequence what was parked, and nothing stays parked; a stale one changes nothing |
| `HistoryProtocol.StepKeepsInv` | crates/labello-storage/src/review_history.rs:340-506 | Every step of committers, scanner and rebuilds, except finishing an overtaken rebuild, keeps: locks cover what a commit changes, a projection covers the membership and is fresh, and every check that passed still holds |
| `HistoryProtocol.FinishRebuildExactly` | crates/labello-storage/src/repository/events.rs:23-41 | Writing what a rebuild replayed keeps the cache exact exactly when it changes no history or no projection or current scan has read the image since the invalidation |
| `HistoryProtocol.RunKeepsInvExactly` | crates/labello-storage/src/repository/events.rs:23-41 | A run keeps the invariant throughout exactly when none of its rebuilds is overtaken in this way |
| `HistoryProtocol.OvertakenRebuildMisleads` | crates/labello-storage/src/repository/events.rs:23-41 | A run of eight steps from an empty cache after which, with nothing in flight, the previous-review check passes a review that the committed logs say is superseded |
| `HistoryProtocol.RunKeepsInv` | crates/labello-storage/src/review_history.rs:340-506 | The same at the end of every run without an overtaken rebuild |
| `HistoryProtocol.RunKeepsLocks` | crates/labello-storage/src/review_history.rs:411-506 | The lock and commit parts of the invariant hold at the end of every run, overtaken rebuilds included |
| `HistoryProtocol.ProjectionExact` | crates/labello-storage/src/review_history.rs:340-409 | In every state reachable without an overtaken rebuild, a present projection covers the membership and answers the previous-review check and the workflow history as recomputing over all committed logs would, for every key no appended but unobserved commit holds |
| `HistoryProtocol.PassedCheckStillTrue` | crates/labello-storage/src/review_history.rs:462-506 | A review found to be the newest of its reviewer when the commit was allowed is still the newest when that commit is observed, whatever ran in between but an overtaken rebuild |
| `HistoryProtocol.PassedCheckMeans` | crates/labello-storage/src/review_history.rs:462-506 | The same on replayed states: from the check to the observation no other member has a review that supersedes the one the commit continues |
| `HistoryProtocol.ChecksDecideCommitted` | crates/labello-storage/src/review_history.rs:475-498 | A commit that holds its locks passes exactly when, over everything committed, the review it continues is a member that is not superseded and each reopened item has at most the history depth of newer visits |
| `HistoryProtocol.AbandonedCommitIsSafe` | crates/labello-storage/src/review_history.rs:329-337 | An abandoned commit that took locks drops the projection; one that took none changed no answer and leaves the cache alone |
| `HistoryProtocol.ProjectionLostExactly` | crates/labello-storage/src/review_history.rs:257-262 | The only steps that lose a projection are giving up a commit past its checks that holds locks, a change of the members, and the start of a rebuild |
| `HistoryProtocol.RefreshDelivers` | crates/labello-storage/src/review_history.rs:340-409 | A refresh that is not cancelled ends exactly with a projection, found or installed; a stale scan starts over |
| `HistoryProtocol.LockSetCovers` | crates/labello-storage/src/review_history.rs:423-461 | The collected keys cover every key whose finished review or visits change, the reopened items and the checked source |
| `HistoryProtocol.NoDeadlock` | crates/labello-storage/src/review_history.rs:452-461 | While any commit is unfinished some committer can take a step, since all acquire their keys in one order |
| `HistoryProtocol.CommitterStepShrinks` | crates/labello-storage/src/review_history.rs:452-506 | Each committer step lowers a measure of the remaining work |
| `HistoryProtocol.CommittersFinish` | crates/labello-storage/src/review_history.rs:452-506 | No run of committer steps is longer than the initial measure |
| `PreviewPool.StepKeepsInv` | crates/labello-storage/src/preview.rs:169-260 | Admission, joining, each acquisition, finishing and cancelling keep: permits conserved in all four classes, one live flight per key, flight guards exclusive |
| `PreviewPool.RunIsSafe` | crates/labello-storage/src/preview.rs:190-260 | In every run, two requests for one key never run together, running jobs never exceed the workers, thumbnails never exceed their slots, and no permit is lost or made up |
| `PreviewPool.RunTells` | crates/labello-storage/src/preview.rs:190-260 | Which requests are present, which hold a flight or a thumbnail slot and which run a job is determined by the steps of the run |
| `PreviewPool.StartedJobsAreSafe` | crates/labello-storage/src/preview.rs:227-231 | Counting jobs from the steps alone, so that a job whose caller gave up counts until it finishes: never more than the workers, thumbnails never more than their share, and never two for one preview |
| `PreviewPool.GrantedExactly` | crates/labello-storage/src/preview.rs:153-224 | Admission, joining, a thumbnail slot, a worker and the end of a job are possible exactly under the stated counts and earlier steps of the run |
| `PreviewPool.FlightGrantedExactly` | crates/labello-storage/src/preview.rs:199-210 | A joined request gets its flight exactly when no request that is present has been given the flight of the same preview |
| `PreviewPool.FlightTableBounded` | crates/labello-storage/src/preview.rs:201 | The flight table never has more entries than the two admission limits together |
| `PreviewPool.ThumbnailsLeaveAWorker` | crates/labello-storage/src/preview.rs:153-158 | With two or more workers, thumbnails never occupy every worker |
| `PreviewPool.AdmissionIsPerClass` | crates/labello-storage/src/preview.rs:167-179 | A request is turned away exactly when its own class has sixteen waiting per worker, whatever the other class does |
| `PreviewPool.NoStall` | crates/labello-storage/src/preview.rs:190-260 | While any admitted request is unfinished some request can move on without anyone giving up: the order flight, thumbnail, worker has no cycle |
| `PreviewPool.PoolDrains` | crates/labello-storage/src/preview.rs:190-260 | Without new admissions no run of forward steps is longer than the remaining work |
| `PreviewPool.NewCache` | crates/labello-storage/src/preview.rs:69-86 | A cache is made exactly for a configuration within the stated limits, with all permits free |
| `PreviewPool.PreviewCache.AdmitRequest` | crates/labello-storage/src/preview.rs:167-179 | Admits exactly when a permit of the class is free and otherwise changes nothing |
| `PreviewPool.PreviewCache.Join` | crates/labello-storage/src/preview.rs:199-209 | Forgets dead flights, then shares the live flight of the key or registers a new one |
| `PreviewPool.PreviewCache.LockFlight` | crates/labello-storage/src/preview.rs:210 | The flight of a key is taken only when no request holds it |
| `PreviewPool.PreviewCache.AcquireThumbnail` | crates/labello-storage/src/preview.rs:211-222 | A thumbnail takes a thumbnail slot while holding its flight |
| `PreviewPool.PreviewCache.AcquireWorker` | crates/labello-storage/src/preview.rs:223 | A request takes a worker last, holding whatever it needs before |
| `PreviewPool.PreviewCache.CancelRequest` | crates/labello-storage/src/preview.rs:227-231 | A cancelled waiting request returns all its permits; one whose job has started keeps them until the job ends |
| `PreviewPool.PreviewCache.FinishJob` | crates/labello-storage/src/preview.rs:229-260 | A finished job returns its worker, thumbnail and admission permits and its flight |
| `PreviewPool.UpgradeOrInsert` | crates/labello-storage/src/preview.rs:199-209 | The table afterwards holds exactly the live flights and the one handed out |
| `Ingest.PathToHash` | crates/labello-storage/src/ingest.rs:290-298 | Every known path is filed under the last record, in order of hashes, that knows it |
| `Ingest.PathMapUnique` | crates/labello-storage/src/ingest.rs:290-298 | So the map has one possible value |
| `Ingest.IngestImages` | crates/labello-storage/src/ingest.rs:44-179 | From the path map of the index, the pass computes the scan of the roots in order and then the reconciled index and the report |
| `Ingest.VisitFile` | crates/labello-storage/src/ingest.rs:72-137 | Each kind of file updates the index, the seen paths, the preserved paths and the report as stated |
| `IngestReport.PassIsWalk` | crates/labello-storage/src/ingest.rs:53-138 | A pass is one scan along the files of the existing roots in order, and its failures are those of the files and of the missing roots, in order |
| `IngestReport.PassReported` | crates/labello-storage/src/ingest.rs:69-138 | The report counts the files that look like images and the new records, lists the changed paths in order, and lists as duplicates exactly the paths read for the first time beside the canonical path of their record, each once and with that canonical path |
| `IngestReport.PassNames` | crates/labello-storage/src/ingest.rs:149-163 | A record that kept its canonical path keeps its name; a new one is that of the first file read as its hash and a promoted one of its oldest path left, each named after its canonical path |
| `IngestReport.FileNameMeans` | crates/labello-storage/src/ingest.rs:156-160 | The file name is what follows the last slash |
| `Ingest.ReconcileIndex` | crates/labello-storage/src/ingest.rs:139-167 | Each record keeps its paths that were seen, preserved or outside the roots, in order; records left without a path are dropped |
| `Ingest.PassExact` | crates/labello-storage/src/ingest.rs:93-167 | The hash and path pairs afterwards are exactly the readable scanned ones and the old ones outside the roots or unreadable; every record knows its canonical path; new images plus duplicates count the pairs added |
| `Ingest.PassKeepsPathsApart` | crates/labello-storage/src/ingest.rs:139-167 | From an index with disjoint records, no path is in two records afterwards exactly when every path that now reads under another hash than it is filed under lies within the reconciled roots |
| `Ingest.DotRootFilesPathTwice` | crates/labello-storage/src/ingest.rs:300-304 | An image root of `.` contains nothing, so a changed file below it ends up in two records |
| `Ingest.InRootsMeans` | crates/labello-storage/src/ingest.rs:300-304 | A path lies in the roots exactly when it is one of them or continues one after a slash |
| `Ingest.CanonicalListedExactly` | crates/labello-storage/src/ingest.rs:144-163 | One pass leaves the canonical path among the duplicates exactly when the old canonical path is gone and the promoted path was listed as a duplicate |
| `Ingest.PromotionLingers` | crates/labello-storage/src/ingest.rs:144-163 | A concrete dataset for which one pass does so |
| `Ingest.ChangeIsListed` | crates/labello-storage/src/ingest.rs:93-100 | A path read under another hash than it was filed under is reported as changed |
| `Ingest.ChangeIsReal` | crates/labello-storage/src/ingest.rs:93-100 | Every reported change is one |
| `Ingest.PassSettles` | crates/labello-storage/src/ingest.rs:139-167 | After one pass another has nothing to add and nothing to drop |
| `Ingest.SettledPass` | crates/labello-storage/src/ingest.rs:139-167 | A pass over a settled index reports nothing new and only removes a promoted canonical path from the duplicates |
| `Ingest.PassesSettle` | crates/labello-storage/src/ingest.rs:44-179 | Over a fixed file system pass two reports no new image and no duplicate and only cleans promoted paths, and pass three equals pass two; pass two reports no change exactly under the condition of SecondPassChanges |
| `Ingest.SecondPassChanges` | crates/labello-storage/src/ingest.rs:93-100 | Pass two reports no change exactly when, outside the reconciled roots, what reads now has at least the hash of everything filed at its path before |
| `KeyChords.ConflictSymmetric` | crates/labello-domain/src/keybindings.rs:135-167 | The conflict relation between actions is symmetric |
| `KeyChords.ConflictNotTransitive` | crates/labello-domain/src/keybindings.rs:135-167 | It is not transitive: two actions that each clash with a third may share a chord |
| `KeyChords.ConflictMeans` | crates/labello-ui/src/app/shortcuts.rs:456-471 | Two active actions can conflict exactly when some screen on which shortcuts are looked up hears both |
| `KeyChords.NormalizedModifiers` | crates/labello-domain/src/keybindings.rs:203-216 | A normalized chord has command where control or command was asked for, no control, and shift, alt and the stripped or raised key as they were |
| `KeyChords.NormalizedAlikeExactly` | crates/labello-domain/src/keybindings.rs:203-216 | Two chords normalize alike exactly when they ask for the same key, for shift and alt alike, and both or neither for control or command |
| `KeyChords.TrimStrips` | crates/labello-domain/src/keybindings.rs:207 | Trimming takes off exactly the whitespace around a key |
| `KeyChords.NormalizedIdempotentExactly` | crates/labello-domain/src/keybindings.rs:203-216 | Normalizing a chord twice equals normalizing it once exactly unless its key trims from several bytes to one lowercase letter |
| `KeyChords.SpacedLetterIsLoose` | crates/labello-domain/src/keybindings.rs:203-216 | A space before a lowercase letter is such a key: first the letter is left, then it is raised |
| `Keybindings.AvailableChord` | crates/labello-domain/src/keybindings.rs:403-437 | Returns the first available candidate in the stated order of eight masks and thirty-five function keys, or the preferred chord |
| `Keybindings.ReplacementKeepsKey` | crates/labello-domain/src/keybindings.rs:413-435 | An action gets the first free variant of its chord in the order command, shift, both, and these with alt, and only then the variants of F1 to F35 |
| `Keybindings.TakenGetsCommand` | crates/labello-domain/src/keybindings.rs:413-421 | A free chord is kept, a taken one gets command if that is free, and else shift if that is free |
| `Keybindings.SomeCandidateAvailable` | crates/labello-domain/src/keybindings.rs:419-435 | Fewer than 280 occupied chords always leave a candidate available, by counting distinct canonical function-key chords |
| `Keybindings.ChosenIsAvailable` | crates/labello-domain/src/keybindings.rs:419-437 | With fewer than 280 occupied chords the returned chord is available and is a candidate: the final fallback is never reached |
| `Keybindings.NormalizeResolves` | crates/labello-domain/src/keybindings.rs:319-338 | For any starting bindings the result binds exactly the active actions and no two that can conflict share a chord |
| `Keybindings.WantedGetsFirstAvailable` | crates/labello-domain/src/keybindings.rs:323-329 | An active binding ends with the first chord available at its turn |
| `Keybindings.MissingGetsFirstAvailable` | crates/labello-domain/src/keybindings.rs:330-336 | A missing active action gets the first chord available for its default after everything bound before it |
| `Keybindings.NormalizeKeepsValid` | crates/labello-domain/src/keybindings.rs:319-338 | A complete set without conflicts and loose keys only has its chords canonicalized and its inactive actions dropped |
| `Keybindings.NormalizeIdempotentExactly` | crates/labello-domain/src/keybindings.rs:319-338 | A second pass changes nothing exactly when no loose binding finds one of its own eight masks available at its turn |
| `Keybindings.NormalizeIdempotent` | crates/labello-domain/src/keybindings.rs:319-338 | Without loose keys a second pass changes nothing |
| `Keybindings.LooseFirstKeyNotIdempotent` | crates/labello-domain/src/keybindings.rs:203-216 | A loose key on the first action always breaks idempotence |
| `Keybindings.SpacedLetterNotIdempotent` | crates/labello-domain/src/keybindings.rs:203-216 | Binding the first action to a spaced letter is a concrete set that a second pass changes |
| `Keybindings.DefaultsApart` | crates/labello-domain/src/keybindings.rs:273-317 | The default chords do not conflict, although two actions of different contexts share one |
| `Keybindings.DefaultsAreNormal` | crates/labello-domain/src/keybindings.rs:319-338 | Normalizing an empty set gives the defaults, and the defaults normalize to themselves |
| `Keybindings.NormalizeKeepsSupported` | crates/labello-domain/src/keybindings.rs:319-338 | Supported keys stay supported, and every key that is filled in is supported |
| `Keybindings.NothingReportedExactly` | crates/labello-domain/src/keybindings.rs:340-360 | The conflict report is empty exactly when no two active bindings that can conflict share a chord |
| `Keybindings.ReportedMeans` | crates/labello-domain/src/keybindings.rs:347-357 | An entry of the report names the normalized chord of its first action and, besides it, exactly the active actions later in declaration order that ask for that chord and can conflict with it |
| `Keybindings.FunctionKeySupportedExactly` | crates/labello-domain/src/keybindings.rs:482-485 | Of the function keys exactly F1 to F35 are supported |
| `Keybindings.KeybindingSet.Normalize` | crates/labello-domain/src/keybindings.rs:319-338 | The loops compute the allocation that the lemmas are about |
| `Keybindings.KeybindingSet.Conflicts` | crates/labello-domain/src/keybindings.rs:340-360 | Reports, for each active action with a later rival, its chord and all those rivals in order |
| `Keybindings.KeybindingSet.Validate` | crates/labello-domain/src/keybindings.rs:375-396 | Accepts exactly a current schema, all active actions bound, supported keys and no conflicts, and otherwise names the first failing condition and its culprits |
| `Keybindings.KeybindingSet.NormalizeThenValidate` | crates/labello-domain/src/keybindings.rs:319-396 | Normalizing a set with the current schema and supported keys always gives a valid one |
| `Geometry.ValidExactly` | crates/labello-domain/src/geometry.rs:57-73 | A box is accepted exactly when it is positive and lies in the unit square up to the epsilon |
| `Geometry.RefusalTells` | crates/labello-domain/src/geometry.rs:57-73 | A refusal names a side that leaves the unit interval, or says truly that the box is empty or leaves the image |
| `Geometry.ValidSkeletonExactly` | crates/labello-domain/src/geometry.rs:111-141 | A skeleton is valid exactly when every keypoint is absent without a point or present with a point in the unit square up to the epsilon |
| `Geometry.IntersectionCoversCommonPoints` | crates/labello-domain/src/geometry.rs:79-84 | The intersection is the area of the box that covers exactly the points both boxes cover |
| `Geometry.IouBounded` | crates/labello-domain/src/geometry.rs:79-91 | Overlap is symmetric and within 0 and 1, and the closing clamp never changes it |
| `Geometry.IouIsRatio` | crates/labello-domain/src/geometry.rs:79-91 | The overlap of valid boxes times the area they cover together is their common area |
| `Geometry.IouOneExactly` | crates/labello-domain/src/geometry.rs:79-91 | Valid boxes overlap completely exactly when they are equal |
| `Geometry.IouPositiveExactly` | crates/labello-domain/src/geometry.rs:79-91 | Valid boxes overlap at all exactly when their interiors meet |
| `BoxVisibility.Exclusions` | crates/labello-domain/src/box_visibility.rs:96-136 | Rejects exactly thresholds outside 0 and 1, and otherwise returns an exclusion map of the undeleted boxes |
| `BoxVisibility.Suppress` | crates/labello-domain/src/box_visibility.rs:115-135 | The greedy pass over ranked candidates maps exactly the boxes some kept, earlier box of their class overlaps too much, each to the earliest such box |
| `BoxVisibility.FirstOverlap` | crates/labello-domain/src/box_visibility.rs:120-124 | The winner is the first retained box of the class that overlaps too much |
| `BoxVisibility.ExclusionsUnique` | crates/labello-domain/src/box_visibility.rs:96-136 | The boxes and the threshold determine the map |
| `BoxVisibility.PermutationIndependent` | crates/labello-domain/src/box_visibility.rs:96-136 | Every permutation of the input has the same map |
| `BoxVisibility.KeptBoxesApart` | crates/labello-domain/src/box_visibility.rs:115-135 | No two kept boxes of a class overlap above the threshold |
| `BoxVisibility.WinnerIsKept` | crates/labello-domain/src/box_visibility.rs:94-96 | Each excluded box is mapped to a kept, earlier-ranked box of its class that it overlaps too much |
| `BoxVisibility.HiddenExactly` | crates/labello-domain/src/box_visibility.rs:96-136 | A box is hidden exactly when some box that is neither deleted nor hidden, of its class and ranked before it by review rank and id, overlaps it by more than the threshold, and the map names the first of these |
| `BoxVisibility.DeletingExcludedChangesNothing` | crates/labello-domain/src/box_visibility.rs:96-136 | Deleting an excluded box changes no other decision |
| `BoxVisibility.FullThresholdExcludesNothing` | crates/labello-domain/src/box_visibility.rs:85-92 | A threshold of 1 excludes nothing |
| `PenInput.Input.HandleEvent` | apps/labello-wasm/src/pen_input.rs:164-328 | The handler computes the transition function on its fields and queue, and consumes exactly the stated events |
| `PenInput.Input.DrainInto` | apps/labello-wasm/src/pen_input.rs:138-141 | A frame appends the queued events and empties the queue |
| `PenInput.HandleKeepsInv` | apps/labello-wasm/src/pen_input.rs:164-328 | Every browser event keeps the agreement between the emitted trace and the fields |
| `PenInput.EveryTraceWellFormed` | apps/labello-wasm/src/pen_input.rs:24-51 | For every sequence of browser events and frames: presses and releases alternate, each carries the newest reported position, the pointer never goes while held, a press is held exactly when a pen or a finger owns the pointer and never both, the owning finger is down, no pen is active with the mouse down, and the tracked fingers are those the trace leaves down |
| `PenInput.PressesAlternate` | apps/labello-wasm/src/pen_input.rs:34-41 | In a well-formed trace two presses have a release between them, and two releases a press |
| `PenInput.WellFormedAt` | apps/labello-wasm/src/pen_input.rs:34-51 | In a well-formed trace every event is one that may follow what came before it |
| `PenInput.BlurReleasesEverything` | apps/labello-wasm/src/pen_input.rs:174-188 | Losing focus at any point of any run leaves no button and no finger down |
| `PenInput.BlurEmits` | apps/labello-wasm/src/pen_input.rs:174-186 | Losing focus emits the release of whatever presses, after which the pointer is gone, and a cancellation for every finger that is down |
| `PenInput.HistoryTells` | apps/labello-wasm/src/pen_input.rs:164-328 | Which pen draws, which finger presses, whether a mouse button is held, whether a pen came last and whether one was seen are determined by the events so far |
| `PenInput.TouchPressesExactly` | apps/labello-wasm/src/pen_input.rs:288-302 | A touch presses exactly when it starts the first finger on the canvas while nothing else is pressed there and no pen has been seen on it or something lies over it |
| `PenInput.PenStroke` | apps/labello-wasm/src/pen_input.rs:225-259 | A stroke starts with a press under the pen and ends with a release there when the pen is lifted, and otherwise with a release after which the pointer is gone |
| `PenInput.PenTakesPointer` | apps/labello-wasm/src/pen_input.rs:208-211 | A pen that comes in first takes the pointer from a finger that presses |
| `PenInput.PenMoves` | apps/labello-wasm/src/pen_input.rs:238-248 | The pointer follows a moving pen exactly when it draws with its tip or hovers over the canvas while nothing is pressed |
| `PenInput.FingerStroke` | apps/labello-wasm/src/pen_input.rs:286-319 | A pressing finger presses, moves and releases the pointer where it is; the pointer is gone afterwards when the touch was cancelled |
| `PenInput.ConsumedExactly` | apps/labello-wasm/src/pen_input.rs:187-327 | Which events are kept from the browser, in terms of the events so far |
| `PenInput.StylusContactsInert` | apps/labello-wasm/src/pen_input.rs:269-271 | Stylus contacts of a touch event change nothing, so a stylus reported twice is handled once |
| `Letterbox.FitsSquare` | crates/labello-inference/src/lib.rs:63-65 | The resized image has at least one pixel a side, fits the square and fills it on one side |
| `Letterbox.ResizedNearest` | crates/labello-inference/src/lib.rs:64-65 | Each resized side is within half a pixel of the scaled side unless it would vanish |
| `Letterbox.CellsDistinct` | crates/labello-inference/src/lib.rs:71-75 | Distinct channels or pixels never share a tensor cell |
| `Letterbox.CellInRange` | crates/labello-inference/src/lib.rs:71-75 | Every write is within the tensor |
| `Letterbox.CellsCover` | crates/labello-inference/src/lib.rs:69-75 | Every cell belongs to some channel of some pixel, so the stated contents are all of the tensor |
| `Letterbox.FillTensor` | crates/labello-inference/src/lib.rs:69-77 | Every cell holds its pixel of the resized image if it lies under it, else gray |
| `Letterbox.Prepare` | crates/labello-inference/src/lib.rs:60-87 | Empty images are rejected; otherwise the tensor and its placement are as stated |
| `Letterbox.PlacementCentred` | crates/labello-inference/src/lib.rs:66-87 | The edges of the image are placed on the edges of the resized image, which lies in the middle of the square but for an odd pixel |
| `Letterbox.CellsOfPrepared` | crates/labello-inference/src/lib.rs:69-75 | Cell by cell: the red, green and blue planes one after the other, each row by row, hold the pixels on a scale of one inside the placed image and gray outside |
| `Letterbox.InverseUndoesForward` | crates/labello-inference/src/lib.rs:147-152 | The inverse map takes every placed pixel coordinate of the image back to its normalized position |
| `Letterbox.BoxRoundTrip` | crates/labello-inference/src/lib.rs:176-179 | A box placed into the square decodes to its own normalized corners |
| `Letterbox.DetectionDecodes` | crates/labello-inference/src/lib.rs:156-214 | A column that encodes a detection in the image decodes to the hint of its class with its confidence, normalized box and keypoints, or is skipped when the task lacks the class |
| `Letterbox.CandidateFailsExactly` | crates/labello-inference/src/lib.rs:158-200 | A candidate spoils the output exactly when there is no class, its best score is no confidence, or it is of a class of the task and has a negative side or, with a proper box, a visibility that is no confidence |
| `Letterbox.ExplicitMappingKeepsMeaning` | crates/labello-domain/src/prelabel/model.rs:120-138 | Making a positional class mapping explicit keeps the meaning of every model class, records the class count, and changes nothing when repeated |
| `Letterbox.ReadInBounds` | crates/labello-inference/src/lib.rs:157 | Every channel read is within the output tensor |
| `Letterbox.BestClass` | crates/labello-inference/src/lib.rs:158-161 | The chosen class is the least one attaining the highest score |
| `Letterbox.DecodeOne` | crates/labello-inference/src/lib.rs:156-230 | One candidate is skipped, emitted or fails as its class, confidence, box and keypoints say |
| `Letterbox.Decode` | crates/labello-inference/src/lib.rs:123-231 | A tensor of another shape or size is rejected; otherwise the hints of the candidates in order, or the first failure |
| `Letterbox.EmittedShapesValid` | crates/labello-inference/src/lib.rs:176-214 | Every emitted box lies in the unit square and validates, and so does every emitted skeleton: the closing geometry test never fails |
| `Letterbox.HintsFollowCandidates` | crates/labello-inference/src/lib.rs:156-231 | Hints come in candidate order, at most one per candidate, each as its candidate decodes |
| `Letterbox.NothingDropped` | crates/labello-inference/src/lib.rs:156-231 | When decoding succeeds no candidate failed and every emitted hint is there |
| `PoseBounds.ExportPoseBounds` | crates/labello-domain/src/export.rs:221-267 | Each error and the linked box are returned in exactly the stated cases; otherwise the box is derived from the extent of the placed points |
| `PoseBounds.ExtentOf` | crates/labello-domain/src/export.rs:237-248 | The fold computes the smallest rectangle around the points |
| `PoseBounds.DerivedBoxValid` | crates/labello-domain/src/export.rs:249-266 | A derived box lies in the unit square, is at least one pixel on each axis and always validates |
| `PoseBounds.DerivedBoxCovers` | crates/labello-domain/src/export.rs:249-266 | It covers every placed keypoint up to the validation epsilon, and exactly when all lie in the image |
| `PoseBounds.DerivedBoxCentred` | crates/labello-domain/src/export.rs:249-256 | Where the image leaves room the derived box is centred on the extent, and it is no larger than the extent or a pixel |
| `PoseBounds.PointsMean` | crates/labello-domain/src/export.rs:237-241 | The points are those of the placed keypoints, visible or hidden |
| `PoseBounds.ExtentOrderIndependent` | crates/labello-domain/src/export.rs:237-248 | The extent depends on which points there are, not on their order |
| `PoseBounds.DerivedBoundsFaithful` | crates/labello-domain/src/export.rs:221-267 | Reordering the keypoints of a pose changes neither its derived box nor that it covers them |
| `Balance.BlockedTasks` | crates/labello-domain/src/dataset.rs:230-252 | The result is exactly the tasks ahead of some other enabled task by more than the allowed difference; the missing-peer panic happens exactly when one task is listed more than once and no other is enabled |
| `Balance.MinimumPeer` | crates/labello-domain/src/dataset.rs:241-247 | The least count among the other enabled tasks, if there are any |
| `Balance.LeastNeverBlocked` | crates/labello-domain/src/dataset.rs:226-252 | A task with the least count is never blocked |
| `Balance.SomeTaskFree` | crates/labello-domain/src/dataset.rs:226-252 | Some enabled task is always free |
| `Balance.RunKeepsSpread` | crates/labello-domain/src/dataset.rs:226-252 | A run that only completes unblocked tasks keeps every spread bound above the allowed difference |
| `Balance.SpreadBoundReached` | crates/labello-domain/src/dataset.rs:226-228 | One above the allowed difference is reached, and exactly there the leading task is blocked |

## Left out

- Floating point: geometry, letterbox, decoding and pose bounds are over the reals, so rounding, NaN and the order
  of signed zeros are not modelled; finiteness tests always succeed.
- Generation and attempt counters are naturals; their wrap-around is not modelled.
- File system, decoding and resizing of images, ONNX sessions, TOML and JSON, tracing: a file read, a resized
  pixel or a running preview job is a parameter or a step. Preview disk publication and codec errors are not part
  of this model.
- Fairness of semaphores and locks: progress is stated as "some step is enabled" and bounded by a measure.
- Event replay, claiming, scoring and migration produce the image states and commits, which are parameters here.
  The polling cache that the completion scan reads through is modelled as reading the committed log.
- A rebuild cancelled between observing its result and writing it is modelled for the review history only.
- `workflow_history_images`, which lists images of the same window, adds nothing to `WorkflowHistory`.
- Letterbox.Decode: states the hints before the pose suppression that closes the source function, because the
  filter it calls (`filter_prelabels`) is not part of this model.
- `review_rank` is given as the rank of each annotation; `visible_annotations` and `skipped_migration_groups`
  are filters over the exclusion map.
- The keybinding serializer, display names and pan modifier.
- Listener installation, the extra pointer-gone event the listener adds at touchend, canvas focus and pointer
  capture; client coordinates are given as canvas positions, and whether another widget covers a position is a
  parameter.
- Hashes, event ids and user ids are abstract; paths are strings with `/`, compared as `path_in_roots` does.
- The sort of candidate boxes is a pure insertion in rank order, and the walk over an ordered map visits actions
  by rank: the library's own sorting is not modelled.
- HTTP handlers, OAuth, sessions, configuration structs, UI and the class and split policies of export.
