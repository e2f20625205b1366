# Siftlane transfer engine: a verified model

Siftlane is a desktop file manager for SFTP, FTP and local folders. This project models the part of it that
decides whether data survives: the transfer engine and the algorithms around it. Each module follows one source file
or a part of one.

| module | models |
|---|---|
| `Scheduler` | the permit allocator with a global and a per-endpoint limit, as an object and as a system of tasks that check, park and are woken |
| `Bandwidth` | the token buckets that reserve first, wait out the debt and are refunded on cancellation, with exact time and tokens |
| `Throughput` | the same limiter from the other side: where every token goes, and that nobody waits longer than needed |
| `LineDiff` | the side-by-side diff: the flat 16-bit table, the walk along it, the positional fallback, and splitting into lines |
| `Files` | a filesystem in which every operation may be refused, may lose its answer or may be cut short, with a trace of all intermediate trees and an account of what was synced and how often something failed |
| `Commit` | moving a finished file in place: the commit of a transfer and the in-place save |
| `Names` | the partial, backup and numbered names |
| `Worker` | one transfer job in its three directions: conflict policy, resumable copy, verification, delivery, retries |
| `Queue` | the transfer queue and answering a conflict for a batch |
| `Planner` | planning the transfer of a remote directory with an explicit stack, the plan built from it, and its directories for any listing |
| `Destinations` | where the relative places of a plan lead to, on a server or on this computer, and which of them collide |
| `Placement` | where a plan puts the entries of an honest listing, whose names may contain backslashes |
| `Containment` | whether what is planned stays inside the destination |
| `Search` | the search walk with its caps, its batches of matches and its cancellation |
| `Paths` | resolving remote paths and creating entries |
| `BoundedRead` | reading a remote file into memory up to a limit |
| `Shell` | quoting, and the commands sent to a remote shell, with a lexer for the shell language they are meant for |
| `Sync` | comparing two directories and planning a synchronization |
| `Ordering`, `Text`, `Prelude` | ordered sets of names, splitting and joining text, stable sorting, results |

How the model stands for the program:

- Objects that the program updates in place are classes (`TransferScheduler`, `BandwidthLimiter`, `TransferQueue`,
  `ActiveJob`, `Filesystem`, `WalkState`); their methods are proved against functions of the old state.
- A plan is told for a base of either kind, a server's path or a path of this computer; a download of a remote directory
  is planned with the latter (`src-tauri/src/commands.rs:2170-2178`).
- Concurrency is a state machine. `Scheduler.System` and `Bandwidth.System` consist of an object's state and the tasks
  around it; theorems are about all runs. In `Worker`, the user's actions come between any two steps of a job.
- Failure is a schedule. Every remote and local operation takes its fate from an arbitrary function of the step
  number; a crash is any tree of the trace. A claim about all trees of a trace is a claim about all crashes.
- Unlocking and broadcasting are two steps, between which other tasks run: `System.pending` counts the broadcasts to come.
- The digest, the lower-casing of names, the listings, the server's replies, the cancellation switch and the clock are
  parameters.

Results that the program's own words do not lead one to expect:

- A waiter that could run may be asleep, with no wake-up on its way, while a permit is live
  (`Scheduler.ARunnableWaiterMaySleep`), though never while none is
  (`Scheduler.SleepingWhileRunnableNeedsALivePermit`); only another one's grant brings this about
  (`Scheduler.OnlyAGrantOverlooks`), and every run that goes on as long as it can drains the queue
  (`Scheduler.MaximalRunsDrain`).
- A transfer waits until the first moment at which the allowances of its limits, less what full buckets have let go,
  cover the bytes asked for, and no longer (`Throughput.DeadlineIsTheFirstMoment`).
- A refund may leave a bucket with more than it would have had without the reservation, by at most the refunded bytes
  (`Bandwidth.RefundAmongOthers`, `Bandwidth.ARefundMayGiveMore`), because a full bucket lets tokens go that the
  reservation saved.
- The plan for a link named `a\b\c` has the directory `a/b` without `a`, and the plan for an empty root named `a\b` has
  `a/b` without `a`, so parents do not always come first (`Placement.ALinkMayLackADirectory`,
  `Placement.ARootMayLackADirectory`). Everything above files and directories is planned for every listing
  (`Planner.FilesAndDirectoriesAreClosed`); for links there is an exact condition (`Planner.LinkIsClosedWhen`,
  `Placement.LinkIsPlannedWhen`), and so there is for the order (`Planner.ParentsComeFirstWhen`).
- An entry named `..\x` is planned outside the destination, because the check for ".." comes before backslashes are
  replaced (`Containment.ABackslashMayClimbOut`), and so is everything below a root of that name, which is not checked
  at all (`Containment.ARootNameMayClimbOut`). A place stays inside exactly when its parts never climb out
  (`Containment.StaysInsideWhen`), and so does a whole plan (`Containment.PlanStaysInsideWhen`).
- A download joins its destinations by the local rules, which drop empty parts and ".", so that the files `.\x` and `x` of
  one directory are both planned to `x`; by the rules for a server they are not (`Placement.DottedFilesCollide`,
  `Destinations.DotsCollide`). Two entries share a destination exactly when the parts that count are the same
  (`Placement.EntriesDiffer`, `Placement.FilesAreDistinct`).
- An empty upload or remote copy never completes unless a partial file is there already, because no chunk is ever
  written (`Worker.Prepare`, `Worker.Move`, `Worker.Transfer`: the success conditions).
- A backup left over from an earlier attempt blocks every later commit over an existing file on servers that refuse to
  overwrite (`Commit.ExchangeSucceedsWhen`, `Worker.Transfer`).
- Normalizing a remote path twice is normalizing it once exactly when the result does not end in whitespace
  (`Paths.NormalizeTwice`); a name such as ".. " passes the validation of new entries and resolves to the directory
  above (`Paths.EntryPathResolves`, `Paths.EntryLandsInItsDirectory`).
- One synchronization is enough exactly when the entries that are kept have readable times
  (`Sync.SynchronizingOnceIsEnough`).
- A search that has found exactly 500 matches, and nothing else to find, calls itself truncated
  (`Search.SearchRemote`: truncation as an if-and-only-if).

Where the repository's prose and its code differ, the model follows the code: the README speaks of remote copies in
chunks of at most 256 KB and of a commit by one atomic rename, the code moves up to 4 MiB at a time
(`src-tauri/src/transfers.rs:480-487`) and replaces an existing file by two renames (`src-tauri/src/transfers.rs:899-941`);
the comment in `src-tauri/src/search.rs:307-308` calls the search breadth-first, the code puts directories with matching
names in front of the whole queue.

## Model

| member | source | states |
|---|---|---|
| Scheduler.TransferScheduler.constructor | src-tauri/src/scheduler.rs:137-150 | an empty allocator whose limits are the given ones, or one where zero was given |
| Scheduler.TransferScheduler.UpdateLimits | src-tauri/src/scheduler.rs:152-160 | the limits become the given ones, or one where zero was given; counts and queue stay |
| Scheduler.TransferScheduler.SetWaitingOrder | src-tauri/src/scheduler.rs:162-175 | the new queue holds the same waiters, sorted by their position in the given list, and those of one rank keep their order; nothing else changes |
| Scheduler.TransferScheduler.Join | src-tauri/src/scheduler.rs:177-183 | a waiter enters the queue at the end, once per id, told as what is appended |
| Scheduler.TransferScheduler.TryAcquire | src-tauri/src/scheduler.rs:187-213 | a permit is granted exactly to the first queued waiter with room, which leaves the queue and is counted once in each count; otherwise nothing changes |
| Scheduler.TransferScheduler.Release | src-tauri/src/scheduler.rs:236-253 | one less globally and for the endpoint, whose entry disappears at zero; no other entry changes |
| Scheduler.ReachableInv | src-tauri/src/scheduler.rs:137-253 | every reachable system keeps the count, queue and wake-up invariants, also between an unlocking and its broadcast |
| Scheduler.CountsAreLivePermits | src-tauri/src/scheduler.rs:191-253 | in every reachable state the global count is the number of live permits and the sum of the positive endpoint counts, and no subtraction saturates |
| Scheduler.GrantRespectsLimitsAndOrder | src-tauri/src/scheduler.rs:198-219 | a grant stays within both limits in force, and everything it overtakes is blocked by its own full endpoint |
| Scheduler.GrantedByTheNumbers | src-tauri/src/scheduler.rs:187-213 | who is let in, told by the limits and counts themselves: the first waiter for whom a permit is left globally and on its endpoint |
| Scheduler.LimitsInForce | src-tauri/src/scheduler.rs:152-160 | along every run the limits in force are those set last, each at least one |
| Scheduler.RaisedLimitsAdmit | src-tauri/src/scheduler.rs:152-222 | after new limits the first waiter with room under them is let in, by at most three steps of its own once the broadcast is out |
| Scheduler.CountsObeyLimits | src-tauri/src/scheduler.rs:152-222 | along every run no count rises above the limits or above where it was when they were lowered |
| Scheduler.DeadlockFree | src-tauri/src/scheduler.rs:177-253 | with waiters queued, a permit is live, or the next check of the head waiter succeeds and it is awake, or a broadcast is on its way to wake it |
| Scheduler.HeadAdvances | src-tauri/src/scheduler.rs:177-222 | with no permit live the head gets one by at most three steps of its own, or it sleeps and a broadcast is on its way |
| Scheduler.QueueCanDrain | src-tauri/src/scheduler.rs:177-253 | from every state the queue can be emptied by drops, their broadcasts and the waiters' own steps: no wake-up is lost for good |
| Scheduler.RunsAreBounded | src-tauri/src/scheduler.rs:177-253 | without newcomers and changes of limits or order, every run is at most as long as the work there is at its start, which each step lowers |
| Scheduler.MaximalRunsDrain | src-tauri/src/scheduler.rs:177-253 | every such run that goes on as long as anybody can take a step ends with nobody queued and no permit live |
| Scheduler.ARunnableWaiterMaySleep | src-tauri/src/scheduler.rs:198-219 | a grant notifies nobody: a reachable state with a runnable waiter asleep and no broadcast on its way |
| Scheduler.SleepingWhileRunnableNeedsALivePermit | src-tauri/src/scheduler.rs:198-253 | a runnable waiter sleeps with no broadcast on its way only while a permit is live, whose drop will notify |
| Scheduler.OnlyAGrantOverlooks | src-tauri/src/scheduler.rs:152-253 | the only step after which a runnable waiter newly sleeps with no broadcast on its way is another one's granting check |
| Scheduler.ReorderFollowsRequest | src-tauri/src/scheduler.rs:162-175 | reordering permutes the queue: listed ids first and in list order, the others in their old relative order |
| Bandwidth.BandwidthLimiter.ReserveOne | src-tauri/src/scheduler.rs:88-118 | one bucket is created full, or capped on a changed limit and refilled for the time gone by, and debited; the wait times the limit is the debt, and nothing without a debt |
| Bandwidth.BandwidthLimiter.Reserve | src-tauri/src/scheduler.rs:74-133 | both buckets with a positive limit are debited and remembered; the wait is the least time after which each of them is out of debt |
| Bandwidth.BandwidthLimiter.Refund | src-tauri/src/scheduler.rs:49-71 | every remembered bucket is refilled and credited, capped at the remembered limit |
| Bandwidth.ReachableKeyInv | src-tauri/src/scheduler.rs:49-134 | in every reachable system the bytes not cancelled on a key of unchanged limit are within its allowance at each deadline, and the bucket's books balance |
| Bandwidth.WaitIsLeast | src-tauri/src/scheduler.rs:109-118 | the longest of the waits is the least time after which every claimed bucket is out of debt |
| Bandwidth.CompletedBytesRespectTheLimit | src-tauri/src/scheduler.rs:49-134 | along every run of acquisitions, waits, cancellations and refunds the bytes completed are at most L + L * (t - t0) |
| Bandwidth.BothLimitsHold | src-tauri/src/scheduler.rs:88-133 | under a global and a profile limit both bounds hold at once |
| Throughput.TokensAreConserved | src-tauri/src/scheduler.rs:49-134 | along every run, what a bucket let through and kept, what it holds, and what it let go when full make up exactly L + L * (t - t0) |
| Throughput.DeadlineIsTheFirstMoment | src-tauri/src/scheduler.rs:74-133 | an acquisition waits exactly until each of its buckets has earned the bytes kept and spilled: at no earlier time have all, at every later time all have |
| Bandwidth.RefundUndoesReservation | src-tauri/src/scheduler.rs:49-71 | a refunded reservation on a bucket that nobody used in between leaves it as if it had never been made |
| Bandwidth.RefundAmongOthers | src-tauri/src/scheduler.rs:49-118 | whatever others reserved and got back in between, a refunded bucket holds at least what it would without the reservation and at most the refunded bytes more; exactly that if and only if nothing was reserved, it would be full, or it would never have overflowed |
| Bandwidth.ARefundMayGiveMore | src-tauri/src/scheduler.rs:49-118 | the two differ: 100 tokens against 90 |
| LineDiff.SplitLines | src/lib/lineDiff.ts:114-118 | the lines have no breaks, joined again they are the text up to a final break, and only the empty text has none |
| LineDiff.LinesRoundTrip | src/lib/lineDiff.ts:114-118 | the lines joined again are the text, up to one final line break |
| LineDiff.SameLinesSameText | src/lib/lineDiff.ts:114-118 | texts with the same ending have the same lines exactly when they are equal |
| LineDiff.FillTable | src/lib/lineDiff.ts:20-33 | every cell of the flat table is the length of a longest common subsequence of the two suffixes, without overflow or out-of-range access |
| LineDiff.FillCell | src/lib/lineDiff.ts:24-31 | one cell is computed from its three neighbours and no other changes |
| LineDiff.LcsIsLongest | src/lib/lineDiff.ts:20-33 | no common subsequence is longer than what the recursion counts |
| LineDiff.WalkTable | src/lib/lineDiff.ts:35-78 | the walk replays both sides in order and shows as many unchanged lines as the table promises; of texts without a common line all added rows come first |
| LineDiff.PositionalReplays | src/lib/lineDiff.ts:81-112 | the positional rows replay both sides in order, numbered from one |
| LineDiff.BuildLineDiff | src/lib/lineDiff.ts:13-79 | both texts are replayed with honest rows; up to 400 lines each, no common subsequence has more lines than the rows shown as unchanged, and beyond that the rows are the positional ones |
| Names.DerivedNamesDiffer | src-tauri/src/transfers.rs:899-941 | destination, partial and backup are three different names |
| Names.NumberedStaysBeside | src-tauri/src/transfers.rs:874-885 | a numbered copy lies in the same directory with the same extension and differs from the original |
| Names.NumberedAgainIsBeside | src-tauri/src/transfers.rs:874-885 | numbering a copy once more leads to a name beside the first original still |
| Names.BesideIsApart | src-tauri/src/transfers.rs:874-941 | none of a numbered copy's three names is one of the original's three |
| Names.NumberedIsInjective | src-tauri/src/transfers.rs:874-885 | different numbers give different names |
| Names.NumberedText | src-tauri/src/transfers.rs:874-885 | a copy's name in full: the number in parentheses goes before the last dot of the name |
| Names.NumberedAtItsEnd | src-tauri/src/transfers.rs:874-885 | without a dot, or with one only at its beginning, the name is numbered at its end |
| Names.DecimalIsRead | src-tauri/src/transfers.rs:885 | the number written into a name is read back as itself, without leading zeros |
| Names.CandidatesAreCounted | src-tauri/src/transfers.rs:842-885 | the candidates numbered 2 to n are n - 1 different names |
| Names.FewFilesLeaveACandidate | src-tauri/src/transfers.rs:842-872 | the search for a free name fails only if all 9,999 candidates exist |
| Commit.SwapIn | src-tauri/src/transfers.rs:899-920 | the exchange of an existing file leaves exactly the trees and the answer that `Exchange` lists, for every schedule of faults |
| Commit.CommitPartial | src-tauri/src/transfers.rs:899-941 | the commit as a whole, likewise |
| Commit.ExchangeLosesNothing | src-tauri/src/transfers.rs:899-941 | whichever step fails or crashes, the old content is whole at the destination or the backup, or the new one at the destination |
| Commit.ExchangeTouchesThree | src-tauri/src/transfers.rs:899-941 | no other file changes |
| Commit.ExchangeSucceedsCleanly | src-tauri/src/transfers.rs:899-941 | success leaves exactly the new file, without partial and backup |
| Commit.RefusedExchangeIsUndone | src-tauri/src/transfers.rs:908-916 | a second move that fails without changing anything, refused on the way or by the server or for want of a partial, is undone: the tree is restored exactly then |
| Commit.ExchangeSucceedsWhen | src-tauri/src/transfers.rs:899-920 | without faults it succeeds exactly when both files exist and no backup is in the way |
| Commit.CommittedProperties | src-tauri/src/transfers.rs:899-941 | all of this for the commit, with and without an existing destination |
| Commit.CommitSafely | src-tauri/src/transfers.rs:899-941 | the method keeps these properties on the filesystem and its trace, and what was synced before is so at its destination |
| Commit.WriteTemp | src-tauri/src/commands.rs:1363-1371 | the temp file is written chunk by chunk, touches nothing else, and holds the content in the end |
| Commit.SaveRemoteBytes | src-tauri/src/commands.rs:1347-1386 | at every moment of an in-place save the file is old or new and whole, or safe at the backup; it succeeds exactly when the file exists, unless something fails, and then the new content has been synced |
| Commit.RefusedSaveIsUndone | src-tauri/src/commands.rs:1379-1385 | a refused second move that is undone leaves everything as it was, the temp file discarded |
| Queue.HistoriesAreDisciplined | crates/siftlane-core/src/transfer.rs:241-263 | over whole histories: nothing follows a completed or cancelled state, a waiting or failed job is queued again before it runs or completes, and between two runs a job was queued or interrupted |
| Queue.HistoriesLeadOn | crates/siftlane-core/src/transfer.rs:241-263 | a history leads from one state to another exactly when the first is not final, or they are the same |
| Queue.TransferQueue.Restore | crates/siftlane-core/src/transfer.rs:15-25 | stored jobs keep their order and come back as they were, but running ones interrupted |
| Queue.TransferQueue.Enqueue | crates/siftlane-core/src/transfer.rs:27-32 | the job is appended; the queue stays duplicate-free exactly when its id is new |
| Queue.TransferQueue.List | crates/siftlane-core/src/transfer.rs:34-39 | all jobs in queue order |
| Queue.TransferQueue.SetPriority | crates/siftlane-core/src/transfer.rs:85-102 | a stable sort: High before Normal before Low, and of two equally urgent jobs the one that was first |
| Prelude.StablySortedIsUnique | crates/siftlane-core/src/transfer.rs:85-102 | there is only one stable sort, so the contract determines the order |
| Queue.TransferQueue.Reorder | crates/siftlane-core/src/transfer.rs:104-114 | only the named job moves, directly before its target or to the end |
| Queue.TransferQueue.UpdateTotal | crates/siftlane-core/src/transfer.rs:127-132 | the total is stored as given, even below the bytes recorded |
| Queue.TransferQueue.UpdateDestination | crates/siftlane-core/src/transfer.rs:56-66 | destination and partial name change together, the partial's to the one made from the job's own id; nothing else does |
| Queue.TransferQueue.Transition | crates/siftlane-core/src/transfer.rs:147-162 | a job changes state exactly if the new state may be entered from its own, told by a second table from the new state backwards |
| Queue.TransferQueue.UpdateProgress | crates/siftlane-core/src/transfer.rs:164-192 | progress is recorded exactly for running jobs and within the total |
| Queue.TransferQueue.Remove | crates/siftlane-core/src/transfer.rs:194-197 | the job leaves map and order, and all others stay |
| Queue.TransferQueue.ClearFilter | crates/siftlane-core/src/transfer.rs:199-219 | exactly the jobs go whose state the filter means, told for each filter; their ids are returned in order and every other job stays as and where it was |
| Queue.TransferQueue.ResolveConflict | src-tauri/src/commands.rs:2414-2472 | the job, or the jobs of its batch that are not completed, failed or cancelled, take the policy; exactly those that waited are queued and started, in queue order |
| Worker.NextAvailable | src-tauri/src/transfers.rs:842-872 | the least-numbered free candidate is chosen, and the search fails without fault only when all are taken |
| Worker.HandleConflict | src-tauri/src/transfers.rs:788-840 | what each policy does to an existing destination, exactly so if nobody and nothing comes between; no file changes |
| Worker.Settle | src-tauri/src/transfers.rs:229-238 | before any byte moves, the total is the source's size and the destination is settled as the policy says; a run that ends here skipped or waits for an answer, and no file changed |
| Worker.ChunkSize | src-tauri/src/transfers.rs:480-487 | between 1 KiB and 4 MiB; unless it is the smallest, a chunk takes at most a quarter of a second under either limit, and it is as large as that allows |
| Worker.StoreChunk | src-tauri/src/transfers.rs:262-274 | a chunk is written for a running job only, and no more of it than was reserved; then its progress is recorded |
| Worker.WriteChunk | src-tauri/src/transfers.rs:269-272 | a chunk is written at the partial's end, and whatever prefix of it arrives keeps the partial a prefix of the source |
| Worker.CopyUpload | src-tauri/src/transfers.rs:240-275 | the upload loop resumes, keeps every recorded partial a prefix, and when it ends well the partial is long enough, and the very source if it began as a prefix; for a job that is not running it writes nothing |
| Worker.CopyDownload | src-tauri/src/transfers.rs:305-365 | the download loop, likewise, for empty sources too |
| Worker.CopyRemote | src-tauri/src/transfers.rs:397-435 | the loop between two servers, likewise |
| Worker.HashLocal | src-tauri/src/transfers.rs:727-739 | the digest of the whole local file |
| Worker.HashRemote | src-tauri/src/transfers.rs:741-761 | the digest of exactly the expected bytes of the remote file, or an error |
| Worker.VerifyUpload | src-tauri/src/transfers.rs:659-689 | success means the partial has the source's size and, up to 64 MiB, its digest, and is recorded so; beyond that nothing is read for a digest |
| Worker.VerifyDownload | src-tauri/src/transfers.rs:691-725 | the same for downloads |
| Worker.VerifyRemote | src-tauri/src/transfers.rs:436-458 | the same between two servers |
| Worker.Prepare | src-tauri/src/transfers.rs:222-468 | copy and verification of every direction: a partial that is not a faithful copy, or has not reached the disk, never gets through, an empty one without a partial never succeeds |
| Worker.Deliver | src-tauri/src/transfers.rs:277-279 | the commit of a verified partial, and completion |
| Worker.Move | src-tauri/src/transfers.rs:222-468 | with a settled destination: an undisturbed run succeeds exactly when nothing is in its way, and leaves the source's bytes at the destination; a completed job's file has been synced |
| Worker.Transfer | src-tauri/src/transfers.rs:222-468 | one run: nothing but three names is touched, nothing is lost at any moment, and a completed job skipped over an existing file or delivered a faithful copy, the very source if its partial began as a prefix; undisturbed, it ends as the policy and the files mean it to, in success and in failure; a run without an error is one in which no operation and no step failed |
| Worker.FinishedIsTheSource | src-tauri/src/transfers.rs:659-725 | with an injective digest, up to 64 MiB, a completed job has the very source at its destination |
| Worker.KeepingBothSparesTheOriginal | src-tauri/src/transfers.rs:807-812 | while a job is sent to a numbered copy, the original, its partial and its backup never change |
| Worker.RetriesBackOff | src-tauri/src/transfers.rs:192-195 | the delay starts at one second and doubles up to thirty |
| Worker.PrepareRetry | src-tauri/src/transfers.rs:175-220 | another attempt only for a retryable error of a running job below the limit, and left alone exactly then; the job is interrupted and counted |
| Worker.Fail | src-tauri/src/transfers.rs:1020-1067 | an active job fails or waits for its user to log in, by the error; stopped and finished ones stay; left alone the new state is exact |
| Worker.Recover | src-tauri/src/transfers.rs:53-83 | after a failed run: left alone, another attempt exactly for a retryable error below the limit, and otherwise the job is failed |
| Worker.Reconnect | src-tauri/src/transfers.rs:60-83 | every profile of the job is reconnected, until one fails with an error that does not pass |
| Worker.Begin | src-tauri/src/transfers.rs:113-128 | a queued or interrupted job is running when its transfer begins, after four steps none of which failed; no other state is left for running |
| Worker.Run | src-tauri/src/transfers.rs:88-151 | a run with its permit and its start keeps what the transfer keeps; left alone, a queued or interrupted job is started and ends as it is meant to |
| Worker.AfterRun | src-tauri/src/transfers.rs:44-86 | one more run, with the same destination or a newly numbered one, keeps what all attempts keep |
| Worker.Try | src-tauri/src/transfers.rs:44-86 | one attempt keeps what a run keeps, and goes on only with a counted retry of an interrupted job; left alone it ends the job as it is meant to: completed, waiting for an answer or failed |
| Worker.Spawn | src-tauri/src/transfers.rs:44-86 | the attempts are bounded by the retries left, no job is left running, a completed one was finished well in its last run; over all attempts nothing is lost at the first destination, nor at the last one from the moment it was chosen; where the destination was missing at the start, the backup stays until there is a faithful copy; left alone, a queued or interrupted job is completed in one attempt exactly when nothing is in its way, with the source's bytes at its destination |
| Worker.AnotherWorker | src-tauri/src/transfers.rs:44-86 | what one worker keeps and what the next one keeps, both together keep with respect to the files at the very start |
| Worker.RestartAfterCrash | src-tauri/src/transfers.rs:44-86 | a crash at any moment of one worker and a new one started from what it left: nothing of the first start's content is lost |
| Planner.ScanDirectory | src-tauri/src/transfer_plan.rs:193-242 | the loop over one listing does what the recursion over its entries says, errors included |
| Planner.WalkDirectory | src-tauri/src/transfer_plan.rs:180-243 | the explicit stack ends for every listing, even a circular one, and agrees with the recursive walk, errors included |
| Planner.WalkFindsTheTree | src-tauri/src/transfer_plan.rs:180-243 | it succeeds exactly when the tree, the root and 64 levels below it, is sound and has at most 5,000 files, and finds exactly its files, links and directories |
| Planner.BuildPlan | src-tauri/src/transfer_plan.rs:256-347 | for a base of either kind: the directories are exactly the wanted ones, by depth and then by name; files and links keep their order; an empty plan is refused |
| Planner.InsertAncestorDirs | src-tauri/src/transfer_plan.rs:349-364 | exactly the places above the given one are inserted |
| Planner.PlanRemoteDirectory | src-tauri/src/transfer_plan.rs:151-254 | a source that cannot be looked up, is missing, is no directory or is the root is refused with its own error, in this order; otherwise walk and plan, below the last segment of the source's path if the root is included, on a server or locally |
| Planner.RootIsNamed | src-tauri/src/transfer_plan.rs:489-508 | the root's name is what follows the last slash of its path, trailing slashes aside, and only paths of slashes alone have none |
| Planner.DirectoriesAreDistinct | src-tauri/src/transfer_plan.rs:265-312 | no directory is listed twice |
| Destinations.JoinLocal | src-tauri/src/transfer_plan.rs:386-393 | the loop over the segments pushes exactly those that are neither empty nor "." |
| Destinations.BaseItself | src-tauri/src/transfer_plan.rs:366-378 | the empty place leads to the base: a server's path without trailing slashes, or its root, and a local path as it is |
| Destinations.DestinationOf | src-tauri/src/transfer_plan.rs:366-393 | a destination is what stands in front of all of them, and the parts that count, joined by slashes |
| Destinations.DestinationsDiffer | src-tauri/src/transfer_plan.rs:366-393 | two places have the same destination exactly when the parts that count are the same: for a server all of them, for a local path those that are neither empty nor "." |
| Destinations.RemotePartsDiffer | src-tauri/src/transfer_plan.rs:380-383 | for a server that is exactly when they differ in the kind of their slashes alone |
| Destinations.DotsCollide | src-tauri/src/transfer_plan.rs:386-393 | locally ".\x", "x" and "x/." have one destination, on a server they do not |
| Planner.FilesAndDirectoriesAreClosed | src-tauri/src/transfer_plan.rs:256-364 | for every listing: all directories found are planned, and so is everything above the directories and files |
| Planner.LinkIsClosedWhen | src-tauri/src/transfer_plan.rs:301-309 | everything above a link is planned exactly when all of it is planned because of something else, but for what has the destination of the nearest place; on a server that is the nearest place alone |
| Planner.ParentPrecedes | src-tauri/src/transfer_plan.rs:311-312 | a directory never comes before the one that it is in, the nearest place above with another destination |
| Planner.ParentsComeFirstWhen | src-tauri/src/transfer_plan.rs:256-364 | for every listing and either kind of base: every planned directory comes after the one that it is in exactly when everything above the links and above the root's name is planned, or is the base itself |
| Planner.ParentIsListedBefore | src-tauri/src/transfer_plan.rs:311-312 | the same by positions: the directory above the one at a position is listed at an earlier one |
| Placement.PlaceOfBelow | src-tauri/src/transfer_plan.rs:395-474 | an entry's relative place is its names below the source, taken apart at their backslashes, below the root's name, taken apart likewise, if that is included |
| Placement.EntryLiesBelow | src-tauri/src/transfer_plan.rs:180-243 | every entry found lies some names below the source, the last of them its own, and its directory was found too |
| Placement.AncestorsArePlanned | src-tauri/src/transfer_plan.rs:256-364 | all directories that lead to a file or a directory are planned, part by part, and the directory itself |
| Placement.LinkIsPlannedWhen | src-tauri/src/transfer_plan.rs:301-309 | all directories that lead to a link are planned exactly when something else brings about the places between its directory and the last backslash of its name, of which there are none with fewer than two backslashes, and for a link in the root those above the root, of which there are none without a backslash in the root's name |
| Placement.ParentsComeFirst | src-tauri/src/transfer_plan.rs:311-312 | every directory comes after the one that it is in, if no link's name has two backslashes, and the root's name none or something else than links was found in it |
| Placement.ALinkMayLackADirectory | src-tauri/src/transfer_plan.rs:301-309 | a single link whose name has two backslashes: its directory is planned without the one above it |
| Placement.ARootMayLackADirectory | src-tauri/src/transfer_plan.rs:256-347 | an empty root whose name has a backslash: it is planned without the directory above it |
| Placement.OneLinkIsListed | src-tauri/src/transfer_plan.rs:193-209 | there is such a listing |
| Placement.EntriesDiffer | src-tauri/src/transfer_plan.rs:366-474 | two entries get the same destination exactly when the parts that count below the root are the same, on a server all, locally those that are neither empty nor "."; without backslashes, only if the entries are the same |
| Placement.FilesAreDistinct | src-tauri/src/transfer_plan.rs:228-240 | when no listing repeats a name, every file is planned once, and two files share a destination exactly when they have the same such parts |
| Placement.DottedFilesCollide | src-tauri/src/transfer_plan.rs:366-474 | the files ".\x" and "x" of one directory: one destination in a download, two on a server |
| Containment.StaysInsideWhen | src-tauri/src/transfer_plan.rs:366-393 | a place resolves to one inside every base, of either kind, exactly when its parts never climb out |
| Containment.EntryStaysInsideWhen | src-tauri/src/transfer_plan.rs:366-474 | for every root's name: an entry's destination stays inside every base exactly when the parts of the root's name and of its own names never climb out; names without backslashes bring no part ".." |
| Containment.PlanStaysInsideWhen | src-tauri/src/transfer_plan.rs:256-364 | all directories, files and links of a plan stay inside exactly when nothing that was found climbs out, nor the root's name |
| Containment.ABackslashMayClimbOut | src-tauri/src/transfer_plan.rs:466-473 | a name that begins with ".." and a backslash passes the check and leads out of the destination |
| Containment.ARootNameMayClimbOut | src-tauri/src/transfer_plan.rs:489-508 | such a root's name is taken as it is, and everything below it leads out of the destination |
| Search.WalkState.PushMatch | src-tauri/src/search.rs:154-167 | a match is added up to the limit, and reaching the limit is recorded |
| Search.WalkState.Flush | src-tauri/src/search.rs:169-183 | the pending matches are handed over, and no empty event on the way |
| Search.WalkState.Finish | src-tauri/src/search.rs:185-187 | exactly one done event, after which everything found has been handed over |
| Search.Scan | src-tauri/src/search.rs:357-382 | one listing: its matches in order, its subdirectories with and without matching names, or a stop at the limit or the switch |
| Search.EnqueueChildren | src-tauri/src/search.rs:391-396 | matching directories in front in order, the others at the end |
| Search.Walk | src-tauri/src/search.rs:337-397 | what the walk has found and what its queue still holds always make up the tree; it ends with the whole tree, at a limit that the tree exceeds, cancelled, or with a listing's error |
| Search.SearchRemote | src-tauri/src/search.rs:317-401 | one done event, the last; batches of 1 to 40 matches; at most 500 matches and 1,500 directories; truncated exactly when the tree exceeds the limits; what is reported are files and directories in the names of which the query occurs, reached through readable directories that are not skipped, and otherwise all of them; an error only for an unlisted root; a search not cancelled found the switch off before every directory, and one cancelled from the beginning reports nothing |
| Search.SearchLocal | src-tauri/src/search.rs:190-299 | the same for a local search, which an unreadable directory ends without a done event, so that a complete one has read every directory |
| Search.TreeHitsAreReachable | src-tauri/src/search.rs:337-397 | the tree's matches are exactly those in directories that a chain of readable directories leads to, each of whose names, in ASCII lower case, is none of those listed |
| Search.HitWhen | src-tauri/src/search.rs:53-58 | an entry is a match exactly when it is a file or directory and the query, not empty, occurs somewhere in its lower-cased name |
| Search.TreeFitsWhen | src-tauri/src/search.rs:328-356 | a tree fits exactly when no chain of directories to go on with is longer than 32 below the root, nor, in a local search, leads to an unreadable one |
| Search.ParentOfChild | src-tauri/src/search.rs:80-90 | the parent of a path is what stands before its last segment |
| Paths.NormalizeRemotePath | src-tauri/src/commands.rs:2600-2623 | the loop over segments computes the normalized path, or refuses a null byte |
| Paths.NormalizedIsCanonical | src-tauri/src/commands.rs:2600-2623 | a normalized path is absolute, without empty, "." or ".." segments, and resolves to itself |
| Paths.NormalizeIsCompositional | src-tauri/src/commands.rs:1591-1592 | resolving a path below another one may resolve the other one first |
| Paths.NormalizeTwice | src-tauri/src/commands.rs:2607-2611 | idempotent exactly when the result does not end in whitespace |
| Paths.NewNamesAreChecked | src-tauri/src/commands.rs:2656-2664 | a name is accepted exactly when it is not all whitespace, neither "." nor "..", and without slash, backslash and null byte |
| Paths.EntryPathResolves | src-tauri/src/commands.rs:1583-1592 | a new entry's path is its directory's with the trimmed name resolved below it |
| Paths.EntryLandsInItsDirectory | src-tauri/src/commands.rs:1583-1592 | it gets its very name in its directory exactly when the name does not end in whitespace |
| BoundedRead.ReadChunks | src-tauri/src/commands.rs:890-933 | the loop asks at the right offset for all that is still wanted, up to 1 MiB, never beyond limit + 1; without a size a short read is the last; it ends for a reason told by its reads |
| BoundedRead.ReportedSizeIsRead | src-tauri/src/commands.rs:890-933 | a healthy honest server and a reported size: exactly that many bytes, or an error if the file is shorter |
| BoundedRead.WholeFileIsRead | src-tauri/src/commands.rs:890-933 | without a size, reads short only at the end give the whole file or the limit error |
| BoundedRead.ReadRemoteBytesBounded | src-tauri/src/commands.rs:880-933 | whatever the server does, Ok means what was received, within the limit and of the reported size; with an honest server, a beginning of the file |
| Shell.QuotedIsOneWord | crates/siftlane-sftp/src/client.rs:654-656 | a quoted value is exactly one word, the value itself, for every string |
| Shell.PartsStayApart | crates/siftlane-sftp/src/client.rs:654-690 | plain and quoted parts of a command never run into each other nor into what follows |
| Shell.PrivilegedShellCommandTokens | crates/siftlane-sftp/src/client.rs:679-690 | after the fixed words, script and path are one argument each |
| Shell.PrivilegedCommandReachesTheProgram | crates/siftlane-sftp/src/client.rs:658-669 | through the outer and the inner shell, the program gets the path as exactly one more argument |
| Shell.WrappedCommandIsReadAsIs | crates/siftlane-sftp/src/client.rs:1285-1290 | a command after a quoted change of directory is read exactly as on its own |
| Sync.PlanSynchronization | src/lib/directoryComparison.ts:37-65 | one action for each name that is not the same, which settles it as the mode means it, in order |
| Sync.ComparisonIsComplete | src/lib/directoryComparison.ts:16-35 | every name of either side once, in order, with its entries and status |
| Sync.StatusByTimes | src/lib/directoryComparison.ts:27-35 | Same exactly when kind and size agree and the times are less than two seconds apart, newer exactly from two seconds on, a missing time being the beginning of time and an unreadable one making the remote side newer |
| Sync.KeptByMode | src/lib/directoryComparison.ts:41-62 | what each mode keeps of two entries: a mirror its own side, both ways the later one, with the ties told |
| Sync.ComparisonMirrors | src/lib/directoryComparison.ts:27-35 | exchanging the sides exchanges the answer, except exactly for entries with an unreadable time; newer means by two seconds at least |
| Sync.PlanIsOnePerName | src/lib/directoryComparison.ts:37-65 | at most one action per name |
| Sync.PlanSettles | src/lib/directoryComparison.ts:37-65 | carried out in any order, a plan leaves under every name what the mode keeps |
| Sync.SynchronizingOnceIsEnough | src/lib/directoryComparison.ts:16-65 | the next comparison is all the same and the next plan empty exactly when the kept entries have readable times |
| Sync.MirrorsChangeOneSide | src/lib/directoryComparison.ts:41-46 | an upload mirror never changes the local side, a download mirror never the remote side |
| Sync.TwoWayLosesNothing | src/lib/directoryComparison.ts:47-62 | two-way synchronization deletes nothing and never replaces an entry by an older one |

## Left out

- Network clients, authentication, storage, keyring, archives, diagnostics and the user interface: wrappers over libraries and sockets that are not part of this model.
- Speed, progress cadence, events and error texts: shown to the user and read by nothing.
- `src/lib/virtualization.ts`, `src/lib/bookmarkOrder.ts`, `src/lib/transferFilters.ts` and permission formatting: they would add only easy members.
- Bandwidth schedules: the limits in force at each moment are a parameter.
- `f64` and `Instant`: tokens and time are exact reals.
- Bandwidth.CompletedBytesRespectTheLimit: speaks of a bucket whose limit does not change; after a change a refund is capped at the limit that the reservation remembers.
- Bandwidth.RefundAmongOthers: speaks of a bucket that is there and whose limit does not change; a new one is full, which is the case of a full bucket.
- SHA-256: an arbitrary digest function, assumed injective only in `Worker.FinishedIsTheSource`.
- A second worker for one job, which a pause followed by a quick resume can start, and changes of files by others during a run.
- Random ids are assumed fresh: `Commit.SaveRemoteBytes` requires that the temp and backup names are not in use.
- Worker.Transfer: source and destination are two filesystems, so a copy within one server is not modelled; the job's own counters stand for its entry in the queue.
- Worker.StoreChunk: the reservation of a chunk's bytes is a number here; what the limiter does to grant it is `Bandwidth` and `Throughput`.
- Worker.Deliver: preserving times and permissions is a step that may fail and changes no content; a job cancelled between its last chunk and the commit is committed all the same, as in the program.
- Worker.HandleConflict: the remote and the local variant are one method on the destination's filesystem.
- Commit.CommitPartial: the local variant is the same exchange on a filesystem whose renames overwrite.
- `plan_local_directory`: the same walk over a listing with links already followed.
- Destinations.JoinLocal: local paths are those of a platform on which only a slash separates; drive letters and other prefixes, which replace what is in front of them, are not modelled.
- Placement.AncestorsArePlanned: for honest listings, whose entries are named below the directory listed with names that are neither empty nor "." nor ".." and have no slash. Part by part it is told for places without empty parts, as names with a backslash at an end or two side by side would make; `Planner.FilesAndDirectoriesAreClosed` has no such condition.
- Placement.ParentsComeFirst: a sufficient condition that a glance at the names shows, for links and roots whose places have no empty parts; `Planner.ParentsComeFirstWhen` has the exact one for every root and every listing.
- Search.SearchLocal: a listing that breaks off counts as unreadable, an entry of unknown type as one of another kind, and the parent of a path is that of the remote search. The caller of the model gives the query in lower case.
- Search.SearchRemote: the check for truncation at the head of the loop, which is never reached with truncation set, has no counterpart; listings stay the same during a search.
- `remote_directory_content_size` and `remove_remote_directory_recursive`: recursions over the same listings without caps, which end for finite trees only.
- Strings are sequences of characters: sorting by UTF-16 code units and paths that are not Unicode are not modelled; null bytes, which no shell argument can carry, are ordinary characters in `Shell`.
- Shell.PrivilegedCommandReachesTheProgram: requires a program text without a single quote, as the program's callers pass constants; the lexer stops at expansions, globs and other operators instead of modelling them.
- Sync.SynchronizingOnceIsEnough: takes a transfer as making the entry the same on the other side, modification time included; what is inside a directory is not looked at, as in the program.
- BoundedRead.ReadRemoteBytesBounded: requires a limit below the largest 64-bit number, beyond which adding one overflows; the callers pass constants.
