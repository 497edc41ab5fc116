# notifyd: a verified model of its delivery queue

notifyd accepts notifications over HTTP, keeps them in memory, records them in a hand-written write-ahead log, and
delivers them with retries. This project models the parts that make it trustworthy when the process or the machine dies:
the log and its files, the queue, the scheduling loop with its workers, and the retry arithmetic. It proves what they
promise together, over every run, every interleaving and every crash.

`dafny verify dfyconfig.toml` checks everything.

## How it is built

Bottom up, each file one module:

- `Model`, `Replay`: tasks, journal records, and the fold a restart computes from a journal.
- `QueueSpec`, `System`: the queue's memory as a value, and queue and journal as one state machine. Its steps are the
  operations that run under the queue's lock, a flush, a compaction, the reset of the counter after it, taking the wake-up
  signal, and a crash that cuts the journal anywhere at or past its durable part.
- `Simulation`, `Recovery`, `Index`, `Terms`, `Credentials`, `Refused`: what holds over whole runs of that machine.
  `Scenario` holds the first steps of the runs that show what can go wrong, `Arithmetic` a few facts about numbers and sizes.
- `Delivery`, `Worst`: the requests sent, counted against what each crash cost, and the most they can be, limit and deadline
  considered.
- `Lines`, `Wal`: journal files as bytes, and the log as a class over a disk that can lose what was not fsynced. Every
  file-system state on the way is kept, so that a crash inside a compaction is a crash like any other.
- `DueHeap`, `Queue`, `Steps`: the queue as a class of shared, mutable task objects, a key index, a binary heap and
  counters. Every public operation that changes anything is proved to be exactly one step of the state machine, journal
  included, or none; a compaction is two, and a round of upkeep is two drops and perhaps a compaction.
- `Eviction`, `Retention`: what upkeep drops, how long finished tasks stay, and how long the journal may get.
- `Backoff`, `Verdict`, `Worker`: windows, draws, Retry-After, the verdict on one attempt, and the method that records it.
- `Dispatcher`: the loop, its workers, tokens, wake-up signal and shutdown as an interleaving step system, proved to refine
  `Delivery`.
- `Reaching`: runs of the loop and its workers that cost a task that most, and what follows for the design's bound.
- `Concurrency`: runs of the loop that have as many requests out at once as the limits allow.
- `Process`: the log's background flush, and a new process coming up on what a crash left of the file.
- `Ids`: identifiers that sort by time.

The chain for the main guarantee reads: bytes a crash leaves are records of the journal at or past its durable length
(`Wal.WAL.CrashLeavesDurable`); a new process on them is a Crash step (`Process.Restart`); a Crash step gives back a past
memory (`Recovery.CrashRefinement`) and never loses an accepted request (`Recovery.AcceptedIsNeverLost`).

## What the model takes for granted

- A compaction has three parts under three locks (`internal/queue/maintain.go:175-182`): taking the snapshot, installing it,
  and resetting the counter of successes. Over whole runs the first two are one step and the third is another.
  `Queue.Queue.Install` is the second part by itself; `Recovery.LateInstallIsSafeIff` says exactly when what others do
  between the first two spoils the invariant, for anything but a revival; `Recovery.OneStepBetweenIsSafeIff` says it for any
  single step, and `Recovery.LateInstallIsSafe` when a longer gap with revivals is harmless.
- `Queue.Queue.Compact`, `MaybeCompact` and `Maintain` run their parts and readings with nothing in between; in the source
  each is under a lock of its own. What the gaps do to the journal and the counter is said by the lemmas on runs; the total
  passes its cap by no more than what is submitted meanwhile (`Eviction.TotalGrowsBySubmissions`).
- The name journal.log is durable in its directory whenever a process starts. The source fsyncs the directory at the end of a
  compaction only (`internal/store/wal.go:326-330`): not when it creates the file, and not after a process was killed between
  the rename and that fsync. Until the next compaction, a loss of power can then bring back no journal, or the old one.
- Ids are fresh, keys are not empty, and settings do not change across restarts.
- Appends other than Submit's succeed, and so do flushes and renames. Submit's may fail, and then nothing changes in
  memory; a failed fsync leaves its record in the journal, and runs that go on from there are the subject of `Refused` alone.
  There a later fsync makes the refused record durable like any other, and later appends succeed; a kernel that drops pages after a failed fsync, and a buffered writer that keeps refusing
  after a failed flush, are not considered.
- The record codec writes no newline inside a line and decodes what it encoded. Nothing is assumed of other bytes.
- The times read on account of one task come in order, restarts included, and the cap on the backoff is not below the least
  delay of 100 ms.
- One operation reads the clock once. Jitter is any value in its range; the order of walking a map is any order; ties in
  the eviction order may fall either way for the properties, while the method settles them in one way.
- Which host a URL names is a parameter. The HTTP exchange is any response at all.

## Where code and documents disagree, or a promise fails

- The design document (section 11, item 9b) bounds extra deliveries by one per crash. That holds of tasks with a limit of
  one attempt and of those whose deadline is no longer than 100 ms for each attempt of their limit, and of no others:
  `Reaching.OneExtraPerCrashIff`. Where it fails, one crash shows it, which strikes a request in flight and one failure
  100 ms old and not yet flushed; flushes come every 200 ms (`internal/store/wal.go:83-101`). At most, each crash gives a task
  all its attempts again, as far as its deadline has room for retries 100 ms apart: `Worst.RequestsAreCapped`. That much is
  reached if no flush comes between a crash and the next (`Reaching.CapIsReached`).
- The design document (section 7.4) has one write lock over a whole compaction; the code takes several in turn. A Submit between
  the first two loses its task (`Recovery.LateInstallLosesSubmit`), and a success, a retry or a burial is forgotten
  (`Recovery.LateInstallIsSafeIff`).
- The design document (section 7.4.1) bounds how many delivered requests stay on disk with their credentials. The counter
  that decides about cleaning up misses some, in three ways: a restart does not rebuild it
  (`Credentials.RestartForgetsExposure`); the reset after a compaction also forgets successes since the installation
  (`Credentials.ResetForgetsExposure`); and a success between snapshot and installation is written down anew as undelivered
  (`Credentials.LateInstallWritesDeliveredIff`). With snapshot and installation in one step, the bound holds throughout a
  life without crashes exactly if no task whose request is in a new journal succeeds before the reset
  (`Credentials.CounterBoundsExposureIff`, and for a single reset `Credentials.ResetIsSafeIff`), and after a crash exactly if
  what survived exposes nothing (`Credentials.CounterAfterCrashIff`).
- At most one unfinished task per key is shown to fail in three ways: a revival of a task its key no longer leads to
  (`Index.ReviveCanShareAKey`); with no revival, a compaction that writes a key's owner before a dead task of that key
  (`Index.CompactCanShareAKey`); and with neither, the retry of a submission that was refused because its fsync failed
  (`Refused.RetryDoublesTask`, which passes the limit on unfinished tasks as well). `Index.ReviveKeepsOneLiveIff`,
  `Index.ReviveIsSafeIff`, `Index.CompactIsSafeIff` and `Refused.RefusedIsHarmlessIff` say exactly when each does no harm.
- A revived task starts its deadline anew so as not to die at its next attempt. A crash undoes that unless a compaction
  came first: `Terms.RevivedDeadlineSurvivesIff`.
- A submission refused because its fsync failed can come to life at the next restart: `Recovery.RefusedReturnsIff`.
- A Retry-After of very many seconds wraps around to the shortest delay instead of the cap: `Backoff.SecondsAreObeyedIff`,
  `Backoff.HugeSecondsWrap`.
- The doubling of the backoff window is exact for caps up to 2^62 ns and for no cap above: `Backoff.WindowIsExactIff`.
- The design document (section 6.2) honours Retry-After on 429 only and names the reason `permanent_4xx`. The code
  honours it on every retryable answer and writes `permanent_response`; the model follows the code.

## Model

| member | source | states |
|---|---|---|
| Recovery.CrashRefinement | internal/queue/queue.go:103-169 | after any run and any crash the rebuilt memory is one the queue had when its journal was as long as what survived: same ids plus finished extras, same key, policy, attempts and outcome, same target, finished tasks with the time they were finished and the reason they died of, unfinished work pending and due no later |
| Recovery.CutsAreHistory | internal/store/wal.go:115-146 | every journal a crash can leave is one the run had at some earlier moment, through any number of compactions and crashes |
| Recovery.PastRecovers | internal/queue/queue.go:107-167 | the rebuilt memory matches every past moment with that journal, not just a well chosen one |
| Recovery.AcceptedIsNeverLost | internal/queue/queue.go:171-199 | a request Submit accepted stays in memory and in every possible cut of the journal, with its own target until delivered, until upkeep drops it as finished |
| Recovery.DeliveredHoldsNoCredentials | internal/queue/queue.go:262-273 | in every reachable state and every cut of its journal a delivered task has no headers, no body and no body encoding |
| Recovery.DurablePartHoldsAll | internal/queue/queue.go:173-190 | in every reachable state the durable part of the journal alone holds an enqueue record of every task in memory |
| Recovery.ActiveIsBounded | internal/queue/queue.go:154-196 | the counter of unfinished tasks equals their number and stays within the limit, also right after any crash |
| Recovery.CrashInCompaction | internal/store/wal.go:263-346 | a journal that is a cut of the old one or the snapshot whole, with so many records durable, is the outcome of a crash before the compaction or after it, and loses no task in memory |
| Recovery.RefusedReturnsIff | internal/queue/queue.go:187-189 | after a Submit refused by a failed fsync and a crash right then, the task is in memory if and only if the crash keeps its record; every shorter cut is one of the old journal |
| Refused.RetryDoublesTask | internal/queue/queue.go:187-189 | a run without revival and compaction in which the caller's retry is accepted and a crash leaves two unfinished tasks under one key, one more than a limit of one allows |
| Refused.RefusedIsHarmlessIff | internal/queue/queue.go:184-199 | up to the next compaction or revival, every crash at every moment of a run gives back a memory within its limit and with one unfinished task per key, if and only if no accepted submission takes the refused key and there is always room for one task more |
| Refused.CompactionForgetsRefused | internal/queue/maintain.go:174-184 | the next compaction removes the refused record and restores the invariant |
| Recovery.LateInstallIsSafeIff | internal/queue/maintain.go:174-184 | installing a snapshot taken under an earlier lock keeps the invariant if and only if every record appended in between is about a task that came and went in between (revivals apart) |
| Recovery.LateInstallIsSafe | internal/queue/maintain.go:174-184 | that condition suffices in every gap without a crash, revivals included |
| Recovery.OneStepBetweenIsSafeIff | internal/queue/maintain.go:174-184 | a single step between the two locks, revivals included, keeps the invariant if and only if it appends nothing |
| Recovery.QuietInstallIsSafe | internal/queue/maintain.go:174-184 | a gap in which nothing is appended is harmless |
| Recovery.LateInstallKeepsIdsIff | internal/queue/maintain.go:174-184 | every task in memory still has an enqueue record on disk if and only if none of them was submitted in between |
| Recovery.LateInstallLosesSubmit | internal/queue/maintain.go:174-184 | one Submit between the two locks always loses its task from the journal |
| System.StepKeepsInv | internal/queue/queue.go:177-389 | every step keeps memory sound and simulated by the journal, the lost tail free of enqueues, every cut replayable and every record readable |
| System.RunKeepsInv | internal/queue/queue.go:177-389 | the same over whole runs |
| System.SnapshotIndex | internal/queue/maintain.go:194-239 | the index a snapshot replays to sends each key to the last task of that key in the order walked |
| Simulation.CompactionContinues | internal/queue/maintain.go:186-239 | for every map order and every suffix of records, old journal plus suffix and snapshot plus suffix replay to the same class, attempts, key, target, finishing time and reason of death at every id in memory or enqueued since |
| Simulation.CompactionKeepsDueTimeIff | internal/queue/maintain.go:194-239 | and, for an unfinished task not enqueued again, to the same due time if and only if a later record reschedules it or the old journal had its due time right |
| Simulation.SnapshotReplays | internal/queue/maintain.go:194-239 | a snapshot in any order replays to a match of exactly the tasks it visits, with exact due times, and the time each was last touched (at its creation, if nothing happened to it since) |
| Replay.FoldKeepsIds | internal/queue/queue.go:107-149 | replay forgets no id, and only enqueue records add one |
| Index.OneLivePerKeyAlways | internal/queue/queue.go:181-193 | at most one unfinished task per key in every reachable state, crashes included, for runs that revive and compact what the index owns |
| Index.DuplicateFindsItsTask | internal/queue/queue.go:181-183 | the index never dangles: a duplicate's key always leads to a task with that key |
| Index.ReviveKeepsOneLiveIff | internal/queue/queue.go:321-352 | a revival leaves one unfinished task per key if and only if the key of the revived task does not lead to an unfinished one |
| Index.LiveIndexedIsExact | internal/queue/queue.go:181-193 | with room for one more task, one unfinished task per key holds in every continuation without crash and revival if and only if every unfinished task is the one its key leads to |
| Index.ReviveIsSafeIff | internal/queue/queue.go:321-352 | a revival leaves the guarantee in force for every such continuation if and only if the key of the revived task leads to it |
| Index.CompactIsSafeIff | internal/queue/maintain.go:194-239 | a compaction and a restart from it leave the guarantee in force for every such continuation if and only if no unfinished task is followed, in the order walked, by another of its key |
| Index.SnapshotKeepsIndexIff | internal/queue/maintain.go:194-239 | a snapshot restores an index serving every unfinished task if and only if none is followed in it by another of its key |
| Index.ReviveCanShareAKey | internal/queue/queue.go:321-352 | a run in which two unfinished tasks share a key |
| Index.CompactCanShareAKey | internal/queue/maintain.go:194-239 | such a run without any revival |
| Index.IndexSurvives | internal/queue/queue.go:107-167 | after any run and crash every key indexed at the past moment is indexed again, and leads to the same task if the index owned what the run revived and compacted |
| Delivery.RequestsAreBounded | internal/dispatch/dispatch.go:187-270 | requests for a task since it was submitted or revived never exceed its limit plus, per crash, the outcomes that crash lost and one if it was in flight |
| Worst.RequestsAreCapped | internal/dispatch/dispatch.go:187-270 | in any run the requests for a task since submission or revival are at most its limit, once more for every crash since, and at most one, once more for every crash since, beside the retries 100 ms apart that its deadline has room for |
| Reaching.CapIsReached | internal/dispatch/dispatch.go:79-120 | for every limit, every deadline and any number of crashes, a run of the loop and its workers that sends exactly that many, with the least delay at every retry |
| Reaching.OneExtraPerCrashIff | internal/store/wal.go:153-169 | in all runs of the loop a task costs no more than its limit and one request per crash, if and only if its limit is one attempt or its deadline at most 100 ms for each attempt of the limit |
| Reaching.OneLostFailure | internal/store/wal.go:153-169 | for any other task a run with a single crash, which takes back one failure beside the request in flight, that sends two requests more than the limit |
| Delivery.OwnLimitsHold | internal/dispatch/dispatch.go:232-264 | a task that sets a limit of n attempts sends at most n requests and what crashes cost it, at most n without crashes, and one that sets a deadline never waits for a retry at or past it; the service's own numbers count where it sets none |
| Delivery.AttemptsAreNumbered | internal/dispatch/dispatch.go:292-295 | without crashes the attempt numbers sent are exactly 1 to k, and k is within the limit |
| Delivery.AttemptsRunOut | internal/queue/queue.go:227-243 | each retry uses up one remaining attempt, a deferral none, and one at least is left |
| Delivery.WaitingBeforeDeadline | internal/dispatch/dispatch.go:252-264 | in every reachable state a task waiting for a retry is due before its deadline |
| Lines.ParseIsSpelled | internal/store/wal.go:186-240 | what replay reads from any bytes is spelled by whole, decodable lines at their start |
| Lines.ParseIsLongest | internal/store/wal.go:186-240 | no longer run of such lines exists |
| Lines.RepairIsIdempotent | internal/store/wal.go:242-257 | cutting the file where reading stopped changes nothing that is read, so a second repair does nothing |
| Lines.AppendLine | internal/store/wal.go:120-146 | appending a line to clean bytes appends exactly its record |
| Lines.CutsAreOrdered | internal/store/wal.go:177-185 | a longer surviving prefix gives an extension of the records of a shorter one |
| Lines.EncodedIsRead | internal/store/wal.go:281-300 | what encoding wrote is read back record for record |
| Lines.WholeRecordsSurvive | internal/store/wal.go:177-185 | a journal cut at any byte gives back exactly the records written whole |
| Wal.CrashLeavesPrefix | internal/store/wal.go:33-35 | a crash leaves a prefix of the records that includes the durable ones, whatever was still buffered |
| Wal.CrashLeavesIff | internal/store/wal.go:33-35 | records are what some crash leaves of a file if and only if they are a prefix of its records that includes the durable ones |
| Wal.WAL.CrashLeavesDurable | internal/store/wal.go:33-35 | the same for the log's own journal and durable count |
| Wal.WAL.Append | internal/store/wal.go:115-146 | the journal gains one record; with sync all of it is durable, without it nothing more is; the stats stay exact |
| Wal.WAL.AppendEnqueue | internal/store/wal.go:115-151 | an enqueue makes itself and everything before it durable; a failed write leaves nothing, a failed fsync leaves the record without making anything durable |
| Wal.WAL.AppendAttempt | internal/store/wal.go:153-158 | an attempt is appended and durability left as it was |
| Wal.WAL.AppendDone | internal/store/wal.go:160-165 | a success is appended and durability left as it was |
| Wal.WAL.AppendDead | internal/store/wal.go:167-169 | a death is appended with its reason and durability left as it was |
| Wal.WAL.Flush | internal/store/wal.go:103-113 | everything appended is in the file and durable |
| Wal.WAL.SyncTick | internal/store/wal.go:83-101 | a tick makes everything durable if anything was appended since the last flush, and otherwise changes nothing |
| Wal.WAL.Replay | internal/store/wal.go:186-259 | replay hands over exactly the journal, in order, and leaves the file clean with exact stats; it fails exactly on a record the caller refuses, having handed over those before it |
| Wal.Scan | internal/store/wal.go:204-240 | the reading loop delivers the records of the longest readable prefix and finds where it ends |
| Wal.WAL.WriteAside | internal/store/wal.go:273-314 | the snapshot is complete and fsynced in the temporary file, the journal untouched at every moment on the way |
| Wal.WAL.Compact | internal/store/wal.go:269-346 | the journal becomes the snapshot, durable; at every file state on the way a crash leaves exactly the snapshot or a prefix of the old journal with everything durable |
| DueHeap.RootIsLeast | internal/queue/heap.go:5-23 | the root of an ordered heap is due no later than any element |
| DueHeap.Heap.Push | internal/queue/heap.go:15-15 | adds one element and keeps the order |
| DueHeap.Heap.Pop | internal/queue/heap.go:16-23 | takes the first element out, keeps all others and the order |
| Queue.Queue.Submit | internal/queue/queue.go:171-200 | a Submit step when accepted; the four answers are told apart exactly; a duplicate is a real task of the same key; a refusal changes nothing in memory, and nothing in the journal unless the fsync failed, when the record stays |
| Queue.Queue.Lease | internal/queue/queue.go:202-224 | a Lease step on a task of least due time, none only if none is due; the second result is the least due time left, 0 if none |
| Queue.Queue.OnRetry | internal/queue/queue.go:227-243 | exactly a Retry step of memory, heap and journal: waiting, one attempt more, due at the time given, the loop woken |
| Queue.Queue.OnSuccess | internal/queue/queue.go:245-273 | exactly a Succeed step: finished at the time given, the address kept, headers, body and body encoding gone from memory |
| Queue.Queue.OnDead | internal/queue/queue.go:276-288 | exactly a Bury step: dead at the time given of the reason given, the request kept |
| Queue.Queue.Revive | internal/queue/queue.go:318-352 | exactly a Revive step, or one of three refusals told apart exactly, with nothing changed |
| Queue.Queue.Defer | internal/queue/queue.go:376-389 | exactly a Defer step; nothing is journaled |
| Queue.Queue.TakeWake | internal/queue/queue.go:88-96 | exactly a TakeWake step |
| Queue.Queue.PurgeExpired | internal/queue/maintain.go:25-59 | a Drop step after which exactly these are gone: tasks delivered longer ago than the retention time, and tasks that died longer ago than that of dead ones |
| Queue.Queue.EnforceTaskCap | internal/queue/maintain.go:61-118 | a Drop step of exactly as many finished tasks as the cap asks for and there are, in their turn; nothing is dropped below the cap |
| Queue.Queue.DropLocked | internal/queue/maintain.go:120-126 | removes a finished task and the index entry that leads to it, nothing else |
| Queue.Queue.TakeSnapshot | internal/queue/maintain.go:186-239 | the snapshot of every task once, in some order |
| Queue.Queue.Install | internal/queue/maintain.go:176-176 | the second part of a compaction, whatever came between: the journal becomes a snapshot taken at an earlier state, memory stays as it is, and at every file state on the way a crash leaves the old journal with everything durable or exactly the snapshot |
| Queue.Queue.ResetCount | internal/queue/maintain.go:179-182 | exactly a ResetCount step |
| Queue.Queue.Compact | internal/queue/maintain.go:173-184 | exactly a Compact step for some order and a ResetCount step when nothing comes between its parts, with the same promise for every file state on the way; the journal is no longer than two records a task and exposes no delivered request |
| Queue.Queue.MaybeCompact | internal/queue/maintain.go:128-156 | a compaction exactly if it is worthwhile, and nothing otherwise; with nothing in between the journal ends small or no longer than the ratio allows, the counter of successes under its threshold, and delivered requests still on disk too if the counter covered them before |
| Queue.Queue.Maintain | internal/queue/maintain.go:10-23 | with nothing in between: a Drop step of exactly what has expired, one of exactly what is too many of the rest, and a compaction exactly if it is worthwhile; no unfinished task is touched, the total is within its cap, the journal bound holds however many retries were recorded, and delivered requests still on disk are under the threshold if the counter covered them before |
| Queue.Queue.Restore | internal/queue/queue.go:98-169 | objects, index, heap and counters are rebuilt as the fold of the journal says, every unfinished task scheduled once and the loop woken; it fails exactly on an enqueue record without a task |
| Eviction.EvictionIsFair | internal/queue/maintain.go:61-118 | no unfinished task is evicted, a dead one only when no delivered one is left, and of each class none touched before one that is kept |
| Retention.FinishedIsKept | internal/queue/maintain.go:25-59 | in a life without crashes a delivered task is kept as it was, and a duplicate of it recognised, through every purge up to its retention time after it was delivered, and a dead task that no one revives through every purge up to the retention time of dead ones |
| Retention.FinishedIsPurged | internal/queue/maintain.go:25-59 | any purge after that drops it, and its key with it |
| Retention.FinishedAt | internal/queue/queue.go:245-288 | a success and a burial are finished at the moment they are recorded, and use up one attempt |
| Retention.ReplayEchoes | internal/queue/queue.go:122-146 | replaying the record of an outcome does to a task what the outcome did, in every field |
| Eviction.WorthwhileIff | internal/queue/maintain.go:128-156 | maintenance compacts a journal with records in it if it has the least size and two records a task are less than the given share of it, or if the counter of deliveries has reached the threshold, and otherwise not |
| Eviction.EvictionReachesCap | internal/queue/maintain.go:61-118 | with a cap no smaller than the limit on unfinished tasks, eviction brings the total down to it |
| Eviction.TotalGrowsBySubmissions | internal/queue/maintain.go:10-23 | whatever goes on afterwards, short of a crash, the total passes what it was by no more than the tasks submitted since |
| Eviction.SnapshotKeepsNoCredentials | internal/queue/maintain.go:199-216 | no enqueue record of a delivered task in a snapshot carries headers or body |
| Credentials.CounterBoundsExposureIff | internal/queue/maintain.go:166-184 | in a life without crashes the delivered tasks whose request is still in the journal are at every moment no more than the counter says, if and only if no task whose request is in a new journal succeeds before the counter is reset |
| Credentials.ResetIsSafeIff | internal/queue/maintain.go:176-182 | the reset after a compaction leaves a counter that bounds them in every continuation with neither crash nor untidy reset, if and only if no task whose request is in the journal succeeded since the installation |
| Credentials.ResetForgetsExposure | internal/queue/maintain.go:176-182 | a run without a crash after which a whole request is on disk while the counter is zero |
| Credentials.LateInstallWritesDeliveredIff | internal/queue/maintain.go:175-176 | after any gap between snapshot and installation, the request of a task that memory has delivered is in the new journal if and only if the snapshot had it whole and the success came in that gap |
| Credentials.ExposureIsCounted | internal/queue/maintain.go:128-184 | from any sound state, without crashes and with tidy resets, those the counter misses never become more, and a compaction leaves none |
| Credentials.CounterAfterCrashIff | internal/queue/queue.go:151-168 | after a crash the counter bounds them, until the next one or an untidy reset, if and only if what survived of the journal exposes nothing |
| Credentials.RestartForgetsExposure | internal/queue/queue.go:151-168 | a delivery and a restart after which the whole request is on disk while the counter is zero |
| Terms.CutsKeepTerms | internal/store/wal.go:115-146 | every cut a crash can make replays to the same key, policy and creation time |
| Terms.RevivedDeadlineSurvivesIff | internal/queue/queue.go:337-349 | the new deadline of a revived task survives a crash if and only if a compaction came in between (or it is the old one) |
| Eviction.SnapshotIsLean | internal/queue/maintain.go:128-156 | two records a task satisfy the journal bound for every ratio up to one |
| Backoff.Backoff | internal/dispatch/backoff.go:73-103 | the delay is the draw from 0 to min(cap, base * 2^(n-1)) itself, or the least delay if that is more; it panics exactly on a negative or maximal window |
| Backoff.WindowIsExactIff | internal/dispatch/backoff.go:87-99 | the doubling loop yields min(cap, base * 2^(n-1)) for every base and attempt if and only if the cap is at most 2^62 |
| Backoff.WindowSumClosed | internal/dispatch/backoff.go:73-103 | closed form of the total wait over m attempts |
| Backoff.DefaultWaits | internal/dispatch/backoff.go:73-103 | the 23 waits between the default 24 attempts take at most 43,695 s, the 12.1 h the design document speaks of |
| Backoff.ParseRetryAfter | internal/dispatch/backoff.go:105-139 | s seconds give s * 10^9 ns, a date the time left until then, less than 100 ms gives 100 ms and more than the cap the cap; negative seconds, past dates and anything else give none |
| Backoff.SecondsAreObeyedIff | internal/dispatch/backoff.go:110-139 | a number of seconds gives that delay, from the least one up to the cap, if and only if its nanoseconds do not wrap or wrap past the cap |
| Backoff.HugeSecondsWrap | internal/dispatch/backoff.go:110-139 | ten billion seconds give the least delay |
| Verdict.Classify | internal/dispatch/backoff.go:31-64 | success is a 2xx and nothing else; permanent is what cannot be sent or a 3xx/4xx other than 408 and 429; the rest is retried |
| Verdict.EffectInNumbers | internal/dispatch/dispatch.go:208-270 | which answers end in a delivery, which in a burial and for what reason, and when any other is retried: with n attempts of its own or the service's the n-th failure buries, s seconds of Retry-After in range mean s * 1000 ms later, without it the backoff counts, and a retry at or past the deadline is a burial |
| Verdict.LastFailureBuries | internal/dispatch/dispatch.go:232-243 | a failure that may pass buries for the limit if and only if it is at least the n-th, where n is the task's own limit, or the service's if it sets none |
| Verdict.WaitIsObeyed | internal/dispatch/dispatch.go:245-264 | an earlier one is retried after exactly the seconds, or at the date, the server asked for, from 100 ms up to the cap, or after the backoff, if that is before the deadline |
| Verdict.JudgedIsPossible | internal/dispatch/dispatch.go:208-270 | every verdict on a request that went out is an operation the accounting allows, its retries due 100 ms after the failure at the least |
| Verdict.RetriesAreSpaced | internal/dispatch/dispatch.go:245-266 | a retry is between 100 ms and the cap after the failure and before the deadline, for every Retry-After |
| Verdict.OnTimeElapsed | internal/dispatch/dispatch.go:232-264 | attempts that begin when due take no longer than their requests and windows add up to |
| Verdict.DeadlineIsSpare | internal/dispatch/dispatch.go:252-264 | if these fit into the deadline, no on-time task dies of its deadline |
| Verdict.DefaultsNeverReachDeadline | internal/dispatch/dispatch.go:232-264 | with default settings and 5 s requests attempts run out before the deadline does |
| Worker.Deliver | internal/dispatch/dispatch.go:186-270 | one attempt ends in exactly one outcome step, the one Judge decides, and leaves the task as the answer says in numbers: delivered, buried for the reason named, or waiting for exactly the time the server asked for or a full-jitter draw gave |
| Dispatcher.RunsArePlausible | internal/dispatch/dispatch.go:79-120 | every run of loop and workers is a run the delivery accounting allows, and nothing the code tries is refused |
| Dispatcher.NothingIsRefused | internal/dispatch/dispatch.go:79-120 | in a sound state every lease, request, deferral and outcome the code may take is enabled |
| Dispatcher.RunsSendBoundedly | internal/dispatch/dispatch.go:187-270 | the bound on requests holds of the service as it runs |
| Dispatcher.StepKeepsDispatch | internal/dispatch/dispatch.go:79-160 | every step of anyone keeps the dispatch invariant, a restart included |
| Dispatcher.TokensAreConserved | internal/dispatch/dispatch.go:94-118 | tokens out equal tokens held, per host and in the pool, within their limits, and no release blocks |
| Dispatcher.FreeTokensAreTaken | internal/dispatch/dispatch.go:94-112 | in every reachable state a task in hand is put off if and only if as many workers as the limit allows hold a token of its host, and is admitted otherwise; a slot is taken if and only if fewer workers than there may be hold one |
| Dispatcher.PuttingOffIsFree | internal/dispatch/dispatch.go:96-112 | a task put off is due 200 ms after it was leased, one put back at shutdown at once, with its attempts and the tokens as they were |
| Dispatcher.LoopTakesWhatIsDue | internal/dispatch/dispatch.go:79-92 | in every reachable state the loop leases a task that is due, none due before it, if there is one, and sleeps if and only if there is none; cancelled, it returns |
| Concurrency.AllAtOnce | internal/dispatch/dispatch.go:94-118 | any tasks of different ids and keys, no more than workers and queue have room for and no more to a host than it has tokens, are all being sent at once in some run of the loop |
| Concurrency.OneHostAtOnce | internal/dispatch/dispatch.go:94-118 | for every n up to the tokens of a host, the workers and the queue's limit, some run has n requests to one host out at once |
| Dispatcher.NoTaskIsLeasedTwice | internal/dispatch/dispatch.go:85-118 | a task being sent is in exactly one pair of hands and not in the heap |
| Dispatcher.NoWakeUpIsLost | internal/dispatch/dispatch.go:138-160 | a loop asleep without a signal sleeps to the least due time, or has an empty heap and no timer |
| Dispatcher.StopsOnlyOnOrder | internal/dispatch/dispatch.go:79-160 | in every reachable state a loop that has returned was cancelled; a sleeping one that is cancelled can return, and a signal or the timer sends it back to look again |
| Dispatcher.AnyAnswerIsRecorded | internal/dispatch/dispatch.go:114-118 | in every reachable state a worker whose request is out can record any answer at any later time; the task then is what the answer says in numbers, no longer out and in nobody's hands |
| Dispatcher.ShutdownIsClean | internal/dispatch/dispatch.go:122-136 | once the loop has stopped and all workers are done nothing is being sent, all unfinished work is in the heap and all tokens are back |
| Dispatcher.NeverStuck | internal/dispatch/dispatch.go:79-160 | in every reachable state the loop or a worker can move, unless the loop has returned or sleeps before an empty heap with no signal and no order to stop |
| Process.Tick | internal/store/wal.go:83-101 | one tick is a Sync step, or nothing |
| Process.Restart | internal/queue/queue.go:98-169 | a new process on what a crash left always comes up, in exactly the state of a Crash step |
| Process.CompactSafely | internal/store/wal.go:263-346 | at every file state of the queue's compaction a crash leaves exactly the snapshot, durable, or a cut of the old journal with everything durable still so |
| Process.SurvivorIsCrash | internal/store/wal.go:263-346 | whatever file survives any such state is the outcome of a run from before the compaction that ends in a crash and loses no task |
| Process.RestartInCompaction | internal/store/wal.go:263-346 | a new process on such a file, the old one killed or the power lost, always comes up, in exactly the state of such a run |
| Ids.NewID | internal/model/task.go:75-89 | the identifier is the encoding of the low 48 bits of the time, big-endian, and ten random bytes |
| Ids.IdsSortByTime | internal/model/task.go:69-89 | an identifier made at an earlier millisecond sorts before a later one, whatever their random bytes |
| Ids.EncodeSpells | internal/model/task.go:69-89 | its characters are the base 32 digits of the number its bytes spell, shifted left by two bits |
| Ids.EncodeIsInjective | internal/model/task.go:69-89 | different bytes have different encodings |

## Left out

- HTTP serving, request shapes, authentication, address blocking, metrics, environment parsing, logging and wiring.
- The JSON codec itself: a parameter of which two laws are assumed.
- LastCode, LastErr, LastResp, record result codes and their truncation: diagnostic fields that no decision reads.
- OS error branches: failed writes, flushes, closes and renames outside Submit, and a write in Submit that fails half-way.
- Runs that go on after a Submit whose fsync failed, past the next revival, crash or second such failure.
- OnRetry and Revive returning before the heap is updated when their append fails.
- Get, ListByState and Counts: readers that change nothing.
- Fairness and liveness of scheduling beyond the absence of deadlock, the quality of randomness, the spread of jitter, and
  the grace period of Wait.
- Damage in the middle of a journal file, which the source disclaims.
- Recovery.CrashRefinement: says nothing about when an unfinished task was last touched, nor about the DeadReason of a revived
  one; CreatedAt is the subject of `Terms.RevivedDeadlineSurvivesIff`, the index of `Index.IndexSurvives`.
- Recovery.LateInstallIsSafeIff: leaves revivals out of gaps of several steps, where a task can come back to what the
  snapshot says of it; `Recovery.LateInstallIsSafe` and `Recovery.OneStepBetweenIsSafeIff` cover what can be said of them.
- Recovery.RefusedReturnsIff: only a crash before anything else; `Refused.RefusedIsHarmlessIff` has the rest.
- Index.OneLivePerKeyAlways: holds for runs that revive and compact what the index owns; it fails of others, and
  after a submission refused by a failed fsync; the lemmas beside it and in `Refused` say exactly when a step is safe.
- Queue.Queue.Compact: its three parts with nothing in between; `Queue.Queue.Install` and `Queue.Queue.ResetCount` are two of
  them by themselves.
- Queue.Queue.Maintain: its parts with nothing in between; a Submit there can push the total above its cap again, and a
  success before the reset goes uncounted.
- Queue.Queue.MaybeCompact: its readings and the compaction with nothing in between, and exact ratios where the source divides
  in float64.
- Credentials.CounterBoundsExposureIff: takes snapshot and installation as one step, and stops at the first crash;
  `Credentials.LateInstallWritesDeliveredIff` and `Credentials.CounterAfterCrashIff` go on from there.
- Retention.FinishedIsKept: of a life in which upkeep purges and the cap on the total evicts nothing; what the cap may take is
  `Eviction.EvictionIsFair`.
- Reaching.CapIsReached: its runs have no flush between a crash and the next, which a flush every 200 ms makes unlikely for
  long rounds; `Reaching.OneLostFailure` does without.
- Dispatcher.NoWakeUpIsLost: of the timer it says that it can fire by the time a task is due, not that it will.
- Dispatcher.TokensAreConserved: one channel per host name; that names are told apart as net/url does is a parameter.
