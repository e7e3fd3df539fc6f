# Verified models of the intelligence workspace

Dafny 4.11 models of the parts of the system whose correctness is a matter of
state, order and arithmetic rather than of I/O, with proofs of their properties.
`dafny verify dfyconfig.toml` checks all of it.

## What is modelled

**The leased job queue** (the modules named `Job...`). `JobStore` holds the
in-memory row maps and the per-session store that updates them in place;
`JobService` runs the service methods over it. Every method is tied to one
operation of `JobSpec`, a function on the whole database. `JobRuns` puts the
operations together as a transition system: workers act on whatever row
version they have ever seen, a claim is two steps (lock, then write) between
which anything may run, even another claim of the same session, upkeep runs at
any time, and the clock does not go back. Job ids and lease tokens are fresh.
The service checks transitions and attempts on the worker's snapshot while the
store checks only the lease, so the safety results rest on an invariant that
ties snapshots, tokens, rows, locks, keys and logs together. Its core holds in
every run; all of it holds exactly as long as no claim picks a row that an
earlier claim of its own session is about to write (`JobRuns.Collides`). On the
core stand fencing, idempotent enqueue and the growth of logs; on all of it
exclusive claims, the state machine, the attempt bounds (`JobLimits`), bounded
bypass (`JobFairness`) and the ends of logs (`JobEnds`). `JobCollisions` shows
what a collision breaks. `JobEffects` says column by column what each call
leaves in the rows and logs, apart from how `JobSpec` computes it, and what of
it lasts over runs.

**The event stream** (`Sse`): handshake and polling loop over such a log, one
poll being one atomic read.

**The evolution graph** (`Evolution`, `Lexicographic`): the edge gates and the
depth-first rejection of cycles.

**The chunker** (`Words`, `ChunkWindows`, `ChunkTables`, `ChunkFlow`,
`ChunkSizes`, `ChunkBoundaries`, `Chunker`): overlapping windows, table groups, the accumulator
with its flushes, where each chunk ends and how the next one opens, and what
survives of every block. `ChunkFlow` is the
assembler as a function of its history; `Chunker.Assembler` is the object that
updates its fields.

**Paging** (`Recall`, `Timeline`): offset with a seen set over a fused ranking,
and keysets over a sort key. The two give different guarantees when the data
change between pages; both are stated exactly.

**Event identity** (`Identity`, `BuiltKeys`, `Events`): which strong keys can be
built, when the stored text of one stands for that key alone, and incremental
resolution as a grouping by key.

**Validation** (`Quotes`), **canonical text and diffs** (`CanonicalText`) and
**URL canonicalization** (`UrlQuery`, `UrlAuthority`, `UrlNorm`). `Options` and
`Integers` hold what several modules share.

What comes from the language's library enters as a parameter: case folding
(assumed in `BuiltKeys` alone: it leaves parts of folded text, and folded texts
joined by a marker, as they are and keeps the spacing), Unicode composition
(assumed to turn a white-space character that is kept into one white-space
character and not to reach across it), percent-decoding, integer parsing, the
number pattern, digests, address checks and the random draw of a retry. Scores
and times are real or whole numbers.

## Where the code and its documentation differ

The model follows the code. A lemma named here proves the difference of the
model.

- `finish` accepts `retry_wait` (src/intel/services/jobs.py:58-66): the row is
  written, then the missing event name raises. In the in-memory store nothing
  rolls the row back. In runs without collisions it is the only call that breaks
  the attempt bound (`JobAttempts.BoundBreaksExactlyWhen`,
  `JobAttempts.ParkingByFinishIsUnbounded`).
- Exclusion of claims is between sessions, and sessions share a name by default
  (src/intel/repositories/jobs.py:780). A claim that collides with another of its
  session breaks the state machine, the ends of logs and the attempt bound
  (`JobSafety.InvKeptExactlyWhen`, `JobCollisions.CollisionBreaks`).
- `max_attempts` does not limit claims, although docs/design/jobs.md:66 has it do
  so: `fail` has its own constants, `finish` looks at none
  (`JobLimits.WithinExactlyWhen`). The bound is max(5, max_attempts), and it is
  attained (`JobAttempts.ClaimsAreBounded`, `JobLimits.BoundIsAttained`).
- The reaper appends no event, although docs/design/jobs.md has every change of
  state write one; the jobs it dead-letters are the ones whose log never tells of
  their end (`JobEnds.EndIsLogged`, `JobEnds.EndIsToldExactlyWhen`).
- The event of a retry has type `failed` (src/intel/services/jobs.py:596-601), so
  such events stand in logs before their end (`JobFencing.FinishIsLast`).
- `start_step` by the holder reopens a committed step; no other call does
  (`JobSteps.CommittedExactlyWhen`, `JobSteps.RestartReopens`).
- A negative Last-Event-ID is refused even when nothing was pruned
  (`Sse.AcceptedSkipsNothing`), and none is refused once everything is pruned
  (`Sse.PrunedLogIsAccepted`). A connection that retention overtakes misses
  events or is told its end too soon (`Sse.ReadDeliversExactlyWhen`).
- An overlap crosses into a new section after a size-guard flush, and only then
  (`ChunkFlow.OverlapBoundaries`); table groups of short rows can pass the
  maximum (`ChunkTables.GroupsFitExactlyWhen`,
  `ChunkTables.ShortRowsPassTheMaximum`); an oversized split goes on
  to emit shrinking suffix windows once it has reached the last word
  (`ChunkWindows.EndsInSuffixes`).
- A recall can miss a document that moves forward between pages
  (`Recall.SwappedDocumentIsMissed`).
- Timeline entries that share a position with the end of a page are lost
  (`Timeline.SharedPositionIsLost`, `Timeline.AllDeliveredExactlyWhen`).
- The text of a key can stand for two keys (`Identity.TwoReleasesOneText`);
  `BuiltKeys.BuiltTextIsFaithfulExactlyWhen` says exactly when, for keys that
  can be built.
- Splitting blocks at a form feed changes the canonical text
  (`CanonicalText.SeparatesExactlyWhen`, `CanonicalText.FormFeedIsNoSeparator`).
- One located span of a quote that overlaps itself may be two occurrences
  (`Quotes.OverlapFools`).
- `normalize_url` is not idempotent when a dropped fragment or parameter leaves
  white space at the end (`UrlNorm.NormalizesOnceExactlyWhen`,
  `UrlNorm.TwoPassesDiffer`).

## Model

| member | source | states |
|---|---|---|
| JobRecords.BackoffBounds | src/intel/services/jobs.py:213-220 | a jittered retry delay lies between 30 seconds and 30 minutes, never under its unjittered value nor over twice it, and does not fall as the attempt rises, whatever the random draw |
| JobRecords.RawBackoffMonotone | src/intel/services/jobs.py:213-220 | the exponential delay before jitter never falls with the attempt and stays within base and cap |
| JobRecords.JitteredBounds | src/intel/services/jobs.py:213-220 | jitter keeps the order of two raw delays, at least keeps and at most doubles each, and stays within base and cap |
| JobRecords.BackoffDoubles | src/intel/services/jobs.py:213-220 | before jitter the first retry waits 30 seconds and each further one twice as long, up to 30 minutes |
| JobStore.InMemoryJobsStore.InsertJob | src/intel/repositories/jobs.py:784-792 | a job is inserted with its idempotency entry exactly when its (owner, kind, key) is new; otherwise nothing changes |
| JobStore.InMemoryJobsStore.ClaimLock | src/intel/repositories/jobs.py:815-840 | first half of a claim: the pick is the first claimable row in (available_at, id) order, over all rows, and gets this session's lock; no pick exactly when nothing is claimable |
| JobStore.InMemoryJobsStore.ClaimWrite | src/intel/repositories/jobs.py:841-849 | second half: the locked row starts running with the new lease, attempt one higher, and its lock goes; no other row moves |
| JobStore.InMemoryJobsStore.FencedUpdate | src/intel/repositories/jobs.py:886-898 | the row is rewritten exactly when the token is the row's and its lease is in the future; otherwise the store is unchanged |
| JobStore.InMemoryJobsStore.UpsertStep | src/intel/repositories/jobs.py:924-948 | a step row is created, or its state and output replaced, under its (job, step, input) key |
| JobStore.InMemoryJobsStore.NextEventNum | src/intel/repositories/jobs.py:950-952 | the number handed out is one above every number in the job's log |
| JobStore.InMemoryJobsStore.InsertEvent | src/intel/repositories/jobs.py:954-961 | the event goes to the end of the job's log and to no other |
| JobStore.InMemoryJobsStore.RequestCancel | src/intel/repositories/jobs.py:963-972 | a cancel request is stamped once, and only on a job that can still be cancelled |
| JobStore.InMemoryJobsStore.RequeueDue | src/intel/repositories/jobs.py:874-884 | exactly the parked rows whose time has come are queued again, keeping their position in time; the count is theirs |
| JobStore.InMemoryJobsStore.ExpiredRunningJobs | src/intel/repositories/jobs.py:851-858 | the rows returned are exactly the running ones whose lease has run out |
| JobStore.InMemoryJobsStore.ExpireUpdate | src/intel/repositories/jobs.py:860-872 | the row is rewritten only while it is still running with an expired lease |
| JobService.JobService.Enqueue | src/intel/services/jobs.py:316-366 | a new key makes one queued row and its `queued` event; a known key returns the stored job and changes nothing |
| JobService.JobService.ClaimLock | src/intel/services/jobs.py:368-389 | the claim's scan and lock, with the kinds the worker admits |
| JobService.JobService.ClaimWrite | src/intel/services/jobs.py:368-389 | the claim's write, and the row as the worker's snapshot |
| JobService.JobService.Heartbeat | src/intel/services/jobs.py:391-410 | extends the lease of a current holder, otherwise changes nothing and reports the loss |
| JobService.JobService.StartStep | src/intel/services/jobs.py:412-441 | fence first; then the step is set running, its event appended and the heartbeat moved, or nothing at all |
| JobService.JobService.CompleteStep | src/intel/services/jobs.py:443-498 | fence first; a step already succeeded is returned as it is; otherwise step, progress and events are written together as one function of the old store, whose output, progress and events the rows on JobEffects tell |
| JobService.JobService.Finish | src/intel/services/jobs.py:500-544 | the checks, the fenced write and the terminal event, in the order of the code, with each error it raises and the state it leaves behind |
| JobService.JobService.Fail | src/intel/services/jobs.py:546-606 | the classified failure with its message and details: handed back to the caller, finished or parked for retry, as one function of the old store |
| JobService.JobService.ReapExpired | src/intel/services/jobs.py:629-663 | the loop over expired rows equals one pass that parks or dead-letters each of them, with the attempt in its error, and appends no event |
| JobService.JobService.AppendEvent | src/intel/services/jobs.py:665-688 | the event gets the next number of the log it is appended to |
| JobService.MaxNumBounds | src/intel/repositories/jobs.py:950-952 | the largest number of a log bounds every number in it and, unless all are zero, is one of them |
| JobSafety.StepKeepsInv | src/intel/services/jobs.py:297-726 | every service step, upkeep step and half-claim that does not collide keeps the invariant tying rows, snapshots, tokens, locks, keys and logs together, whatever snapshot the caller holds |
| JobSafety.StepKeepsCore | src/intel/services/jobs.py:297-726 | colliding claims included, every step keeps the core of it: leases, tokens one to a job and an attempt, tokens in flight unseen, keys, numbered logs |
| JobSafety.CollidesOnLock | src/intel/repositories/jobs.py:826-836 | a claim collides, that is an earlier claim of its session in flight holds the row the scan picks, exactly when the picked row is already locked |
| JobSafety.InvKeptExactlyWhen | src/intel/repositories/jobs.py:826-849 | a step keeps the whole invariant if and only if it is not a colliding claim |
| JobSafety.InvAlongExactlyWhen | src/intel/repositories/jobs.py:826-849 | the invariant holds at every point of a run if and only if no claim of the run collides |
| JobSafety.StepIsNext | src/intel/services/jobs.py:297-726 | every step is a row-by-row legal change or one claim; all safety results follow from this one relation |
| JobFencing.ReachableInv | src/intel/services/jobs.py:297-726 | in every state any run reaches from the empty queue the core of the invariant holds, and all of it if no claim collides |
| JobFencing.StaleSnapshotIsDead | src/intel/repositories/jobs.py:916-922 | a snapshot whose lease ran out, was reaped, finished or claimed again carries a token that cannot pass the fence |
| JobFencing.DeadAlongRuns | src/intel/services/jobs.py:701-726 | a dead token stays dead through any run, colliding claims included |
| JobFencing.FencedForever | src/intel/services/jobs.py:701-726 | after that, colliding claims or not, every heartbeat, start_step, complete_step, finish or fail with that token fails and leaves every row, step and event as it was, at any later point of any run |
| JobFencing.LiveTokensUnique | src/intel/repositories/jobs.py:841-847 | no two jobs hold one lease token; while a lease is the row's, the holder's snapshot agrees with the row on job, attempt and state |
| JobFencing.StateMachine | src/intel/services/jobs.py:58-66 | every stored state change is in the transition table, a row has a token exactly while running, terminal rows are frozen, progress keys are never lost |
| JobFencing.FinishedForever | src/intel/services/jobs.py:58-66 | over any run without collisions a finished job keeps its state, and a terminal row does not change at all |
| JobFencing.LogsOverRuns | src/intel/services/jobs.py:665-688 | over any run, colliding claims or not, a log only grows at its end, is numbered 1..n and starts with `queued` |
| JobFencing.FinishIsLast | src/intel/services/jobs.py:665-688 | without collisions a log holds a finish event only as its last, on a finished job; a retry, whose event has type `failed` too, is none and may stand before the end |
| JobFencing.NothingAfterFinish | src/intel/services/jobs.py:500-544 | once a finish event is written no run without collisions appends to that log again |
| JobEnds.EndIsLogged | src/intel/services/jobs.py:534-544 | a step that finishes a running job adds exactly one event, telling of the new state, to the end of that job's log and to no other, unless it is the reaper, which touches no log |
| JobEnds.ReaperEndsExactlyWhen | src/intel/services/jobs.py:641-649 | the reaper finishes exactly the jobs whose lease ran out on their last attempt |
| JobEnds.EndIsToldExactlyWhen | src/intel/services/jobs.py:629-663 | in a run from the empty queue without collisions, a job's log holds a finish event if and only if the job is finished and it was not the reaper that finished it |
| JobAttempts.ClaimsAreExclusive | src/intel/repositories/jobs.py:815-849 | without collisions two claims in flight never hold the same row, and the rows they hold are queued and locked by their sessions |
| JobAttempts.ClaimWins | src/intel/repositories/jobs.py:841-849 | a claim's write finds its row still queued, raises attempt by exactly one, and makes its token that row's alone |
| JobAttempts.LockedRowWaits | src/intel/repositories/jobs.py:815-849 | a locked row stays queued and locked by its session whatever other steps run before the write |
| JobCollisions.CollisionBreaks | src/intel/repositories/jobs.py:826-849 | a gap, whatever else the queue holds: after a colliding claim there is a run in which the job succeeds and the earlier claim sets it running again, attempt up by two, its log already closed, past the attempt bound if it had one claim left |
| JobCollisions.CollisionIsReachable | src/intel/repositories/jobs.py:779-781 | collisions occur: two claims one after the other by one session, on a queue with one job |
| JobAttempts.AttemptCountsWins | src/intel/repositories/jobs.py:841-847 | over any run, colliding claims included, a job's attempt rises by exactly the number of claims that won it |
| JobAttempts.BoundBreaksExactlyWhen | src/intel/services/jobs.py:223-279 | where no collision has broken the invariant, a step breaks the attempt bound if and only if it is `finish` asked for retry_wait by the holder on its last attempt |
| JobAttempts.ClaimsAreBounded | src/intel/services/jobs.py:629-661 | without that call and without collisions, no job is claimed more than max(5, max_attempts) times in any run from the empty queue, and a waiting job has a claim left |
| JobAttempts.ParkingByFinishIsUnbounded | src/intel/services/jobs.py:500-544 | with it, from any world with one idle queued job, a run claiming that job n times exists for every n: the error it raises comes after the row is written |
| JobAttempts.UnboundedFromTheStart | src/intel/services/jobs.py:500-544 | so from the empty queue on, for every n, there is a run that claims one job n times |
| JobLimits.WithinExactlyWhen | src/intel/services/jobs.py:223-279 | from a queue within max_attempts, a step leaves it if and only if it enqueues a new job with a limit under one, or a holder on its last attempt parks the job, by `finish` or by a failure classified as retry |
| JobLimits.WithinAlongExactlyWhen | src/intel/services/jobs.py:223-279 | a run without collisions stays within max_attempts at every point if and only if it makes no such call |
| JobLimits.LimitHolds | src/intel/services/jobs.py:629-661 | then every job of a run from the empty queue is claimed at most max_attempts times |
| JobLimits.BoundIsAttained | src/intel/services/jobs.py:223-279 | a gap: for every limit m there is a run from the empty queue, without collisions and without `finish`, that claims a job of that limit max(5, m) times |
| JobFairness.OvertakesExactlyWhen | src/intel/repositories/jobs.py:823-849 | a step puts a row before a due job in the claim order if and only if a lease's holder parks its job there: by `finish`, which keeps the old position, or by a failure whose delay reaches back far enough |
| JobFairness.OrderlyNeverOvertakes | src/intel/services/jobs.py:581-595 | retry delays that are not negative, and leaving retry_wait to `fail` and the reaper, are enough for nobody to overtake |
| JobFairness.ClaimTakesOrShrinks | src/intel/repositories/jobs.py:823-849 | a claim that admits a due job's kind and does not collide takes it or a free row before it, which then is no longer free |
| JobFairness.BoundedBypass | src/intel/repositories/jobs.py:823-849 | in any run without collisions in which nobody overtakes a due job, the matching claims that pass over it number at most the free rows before it at the start |
| JobFairness.EventuallyPicked | src/intel/repositories/jobs.py:823-849 | a due job is picked by the time one more matching claim than that has started |
| JobSteps.EnqueueOnce | src/intel/services/jobs.py:316-366 | replaying an enqueue at any later point of any run, colliding claims or not, returns the first job and changes nothing |
| JobSteps.OneJobPerKey | src/intel/repositories/jobs.py:784-801 | in every reachable state no two jobs share owner, kind and idempotency key |
| JobSteps.CommittedExactlyWhen | src/intel/services/jobs.py:412-498 | one call of any kind leaves a committed step row as it is if and only if it is not a start_step of that step that passes the fence; such a call sets it running again |
| JobSteps.CommittedForeverExactlyWhen | src/intel/repositories/jobs.py:924-948 | a committed step row stands at every point of a run if and only if no call of the run reopens the step; rejected starts do no harm |
| JobSteps.RerunIsNoOp | src/intel/services/jobs.py:443-498 | in a run that does not reopen a committed step, completing it again at any later point returns the committed row to a holder and moves only its heartbeat; anyone else is refused and changes nothing |
| JobSteps.RestartReopens | src/intel/services/jobs.py:427-437 | a gap: completing a committed step is a no-op before its holder starts it again, and after that it commits anew and writes its events a second time |
| JobEffects.CommitStores | src/intel/services/jobs.py:471-496 | the round trip of a commit: the step row under (job, step, input) is succeeded and holds exactly the output given and the attempt that opened it, it is what the caller gets back, and no other step row changes |
| JobEffects.CommitMoves | src/intel/services/jobs.py:466-470 | with it the job's heartbeat is now and each progress name has the value given for it, else its old one; nothing else of the job and no other job changes |
| JobEffects.CommitTells | src/intel/services/jobs.py:485-495 | the log goes on with the artifact, if an output was given, and then the progress, if any was |
| JobEffects.FirstOutputStands | src/intel/services/jobs.py:443-498 | along any run that does not reopen the step, complete_step by any holder, whatever output it brings, returns the first output |
| JobEffects.StartLeaves | src/intel/services/jobs.py:412-441 | a started step runs without an output under the attempt that first opened it, the log goes on with its start, and only the heartbeat moves besides |
| JobEffects.FinishStores | src/intel/services/jobs.py:500-544 | the round trip of finish by a holder: state, output, error and progress given are the row's and what the caller gets back, the lease is gone, the log goes on with the one event of that state, and nothing else changes |
| JobEffects.FinishRefuses | src/intel/services/jobs.py:500-544 | finish is turned away for a move that is not listed, else for a partial result without gaps, else for a lost lease, exactly then, with the store as it was |
| JobEffects.FateIsDecided | src/intel/services/jobs.py:223-279 | class by class: transient failures retry four times after the delay asked for or 30 seconds to 30 minutes, a parser error once after 30 seconds, faulty output and failed validation go back to the handler, a cancel cancels, all else fails, a scope violation with an audit mark |
| JobEffects.FailDoes | src/intel/services/jobs.py:546-606 | what fail by a holder leaves is that fate: handed back and unchanged, ended in its state with its code and audit mark, or parked until its delay has passed |
| JobEffects.ReapDoes | src/intel/services/jobs.py:629-663 | a row whose lease ran out fails on its last attempt or is parked at least 30 seconds ahead, with the code `lease_expired` and its attempt; any other row stays |
| JobEffects.RequeueDoes | src/intel/repositories/jobs.py:874-884 | a parked row is queued exactly when its time has come, and no other row changes |
| JobEffects.HeartbeatDoes | src/intel/repositories/jobs.py:900-914 | the holder's lease runs 90 seconds from now, and nothing else changes |
| JobEffects.ClaimPicks | src/intel/repositories/jobs.py:815-840 | the row picked is queued, due, of an admitted kind and not locked by another session, and no such row has an earlier time, or an equal one and a smaller id |
| JobEffects.EnqueueStores | src/intel/services/jobs.py:316-366 | a new job's row holds what was given, queued and due at once, with five attempts for discover, fetch and source_poll, three for other kinds, unless a limit was given |
| JobEffects.CancelStamps | src/intel/repositories/jobs.py:963-972 | a cancel request stamps a queued, running, parked or review job that has no stamp yet, and changes nothing else |
| JobEffects.CancelForever | src/intel/repositories/jobs.py:963-972 | over any run, colliding claims or not, a cancel stamp stays as it was first set |
| JobEffects.LiveLeaseIsSafe | src/intel/services/jobs.py:701-726 | as long as its holder keeps the lease alive and does not end the job, no run without collisions takes the lease away, whatever other workers and upkeep do |
| JobEffects.ParkedUntilDue | src/intel/repositories/jobs.py:874-884 | in any run a parked job stays parked, its time unchanged, until that time has come |
| JobEffects.PartialNamesGaps | src/intel/services/jobs.py:513-519 | in every reachable state of a run without collisions a partial job names its gaps |
| Sse.AcceptedSkipsNothing | src/intel/api/sse.py:120-128 | against a retained log a resume point is accepted exactly when it is not negative and no event above it was pruned |
| Sse.EventsAfter | src/intel/repositories/jobs.py:657-673 | a batch is the retained events above the cursor, rising, cut at the limit |
| Sse.Generate | src/intel/api/sse.py:130-158 | the polling loop emits what the turn-by-turn reading of its polls says, to the disconnect or the end marker |
| Sse.TurnDeliversExactly | src/intel/api/sse.py:130-158 | one poll keeps delivery gapless and free of repeats if and only if pruning has not overtaken the reader or there is nothing to send |
| Sse.TurnAdvances | src/intel/api/sse.py:130-158 | an open turn sends the unseen retained events, as many as the limit lets through, and announces the end exactly on a job that is not active with nothing to send |
| Sse.PingsKeepTime | src/intel/api/sse.py:153-157 | over any number of polls: while the connection is open the last ping, or the opening, is less than a heartbeat before the last poll, and pings are never closer than a heartbeat |
| Sse.ReadDeliversExactlyWhen | src/intel/api/sse.py:130-158 | over any number of polls the client holds the events after its start, in order, without gap or repeat, and all of them when the end is announced, if and only if every poll came in time: retention had not overtaken the reader, or there was nothing to send on a job still active |
| Sse.StreamDeliversExactlyWhen | src/intel/api/sse.py:120-158 | the same for a whole connection: a client with a Last-Event-ID is owed everything above it, one without everything retained at its first poll |
| Sse.AcceptedStreamDelivers | src/intel/api/sse.py:120-158 | a connection accepted against a log that retains something delivers all it owes, if nothing above its resume point is pruned until its first poll and it stays ahead of retention from then on; events it has already sent may be pruned |
| Sse.PrunedLogIsAccepted | src/intel/api/sse.py:120-128 | a gap: against a log with nothing retained every resume point is accepted, and on a finished job the end is announced at once, rightly so exactly when the resume point is at the end of the log |
| Sse.RunPollsGrow | src/intel/api/sse.py:130-158 | polls of one job made along a run, colliding claims or not, read one log that only grows at its end |
| Sse.StreamOverRun | src/intel/api/sse.py:120-158 | handshake and polls made at any points of a run without collisions: while retention stays behind the reader, the client holds the job's events after its start without gap or repeat, and once the end is announced it holds every event the job has at the end of the run, however long that goes on |
| Evolution.KeysIdentifyEdges | src/intel/services/evolution.py:70-74 | two drafts have one key exactly when they are the same relation between the same endpoints, in either order for `parallel` |
| Evolution.ValidateEdges | src/intel/services/evolution.py:77-117 | one pass over the drafts with the keys seen so far keeps and drops what the two rows below say |
| Evolution.KeptExactlyWhen | src/intel/services/evolution.py:77-117 | a draft is kept, in its place, if and only if its endpoints differ, its basis is explicit or inferred, an inferred validates, refutes or applies edge has evidence, and no earlier draft meeting these three is the same edge |
| Evolution.DroppedExactlyWhen | src/intel/services/evolution.py:77-117 | every other draft is dropped, in its place, with the first of these conditions that it fails |
| Evolution.GatesAccount | src/intel/services/evolution.py:77-117 | kept and dropped together are exactly the drafts, with multiplicity |
| Evolution.KeptAreSound | src/intel/services/evolution.py:77-117 | every kept edge has two endpoints, a basis and the evidence it needs, no two are the same edge, and none is kept exactly when no draft has all that |
| Evolution.KeptCycles | src/intel/services/evolution.py:77-148 | the kept edges close a cycle exactly where all drafts with basis and evidence do, repeated ones included |
| Evolution.BuildGraph | src/intel/services/evolution.py:126-129 | the graph has an arrow exactly for each update, replace or extend edge |
| Evolution.OrderedIsAcyclic | src/intel/services/evolution.py:131-148 | a finishing order in which every arrow goes to an earlier node rules out every cycle |
| Evolution.CycleDetector.Visit | src/intel/services/evolution.py:134-145 | the three-colour search terminates; a normal return restores the stack and leaves the node done; a report is a cycle of the graph |
| Evolution.DetectCycles | src/intel/services/evolution.py:120-148 | returns normally if and only if the chain has no cycle; a reported list is a real cycle: it closes and each step is an edge |
| Evolution.BuildEvolution | src/intel/services/evolution.py:167-190 | a build is rejected if and only if the drafts with two endpoints, a basis and due evidence close a cycle of updates, replaces and extends, which the report shows; otherwise its edges are free of loops, repeats and cycles and carry their basis, and it is insufficient exactly when no draft is such or coverage is under the floor |
| Words.JoinThenSplit | src/intel/retrieval/chunker.py:206-249 | joining words with a white-space separator and splitting again gives the words back |
| Words.WordsOfJoin | src/intel/retrieval/chunker.py:170-171 | the words of joined texts are the words of each, in order |
| Words.WordsOfStrip | src/intel/retrieval/chunker.py:125-153 | stripping loses no word and leaves no space at either end |
| Words.BlankHasNoWords | src/intel/retrieval/chunker.py:257-258 | a text strips to nothing exactly when it has no words |
| ChunkWindows.SplitOversized | src/intel/retrieval/chunker.py:206-249 | the split terminates; its windows start at the first word, each takes what fits and the next starts where stepping back by the overlap leads |
| ChunkWindows.WindowsAdvance | src/intel/retrieval/chunker.py:206-249 | window starts rise strictly and no window begins behind the end of the one before |
| ChunkWindows.WindowsCover | src/intel/retrieval/chunker.py:206-249 | every word is in some window, the last one included |
| ChunkWindows.EndsNeverRetreat | src/intel/retrieval/chunker.py:206-249 | no window ends before the one it follows |
| ChunkWindows.EndsInSuffixes | src/intel/retrieval/chunker.py:239-248 | a gap: once a window ends with the last word, each that follows is a proper suffix of the one before, one word shorter as soon as the rest costs less than the overlap, down to the last word alone |
| ChunkWindows.PiecesShareWords | src/intel/retrieval/chunker.py:239-248 | the last words of a piece are the first words of the next: the fewest that cost the overlap, or all words of the piece but one |
| ChunkWindows.WindowSize | src/intel/retrieval/chunker.py:217-234 | a window is a single word or has at most TARGET_TOKENS * TOKEN_CHARS - 1 characters |
| ChunkTables.SplitTables | src/intel/retrieval/chunker.py:125-153 | a table becomes one unit for each row group, header repeated, just enough groups to hold every row |
| ChunkTables.GroupsPartition | src/intel/retrieval/chunker.py:143-153 | the groups laid end to end are the body rows in order |
| ChunkTables.GroupsFillTheTarget | src/intel/retrieval/chunker.py:138-143 | a group takes the most rows that fit 800 tokens beside the header, were each as dear as the dearest, and one row where not even two fit |
| ChunkTables.MultiRowGroupSize | src/intel/retrieval/chunker.py:140-153 | a group of two or more rows estimates below twice the target |
| ChunkTables.GroupEstimate | src/intel/retrieval/chunker.py:140-153 | a group estimates at most its header plus, row for row, the dearest row and one more token: what rounding drops adds up to no more |
| ChunkTables.GroupsFitExactlyWhen | src/intel/retrieval/chunker.py:140-153 | for a header estimate and a dearest row estimate of one or more, every group of every such table keeps the maximum if and only if header + rows per group * (row + 1) does |
| ChunkTables.ShortRowsPassTheMaximum | src/intel/retrieval/chunker.py:140-153 | a gap: with a header and rows of one token each a group takes 798 rows, and some such table has a group over the maximum |
| ChunkTables.TableKeepsWords | src/intel/retrieval/chunker.py:125-153 | every word of the table is in the text of one of its groups |
| ChunkFlow.ChunksAccount | src/intel/retrieval/chunker.py:252-330 | over any units: the chunks are made of exactly the units in order, each prose chunk had a reason to end where it does and none to end before, and an overlap is the tail of the chunk before |
| ChunkFlow.OverlapBoundaries | src/intel/retrieval/chunker.py:277-330 | overlap never touches a table, and opens a new section exactly when the chunk before was closed by the size guard |
| ChunkBoundaries.ClosedExactlyFor | src/intel/retrieval/chunker.py:312-330 | between two prose chunks the first was closed by a heading, by the maximum, or because it holds content and with the next unit passes 800 tokens; the second opens with its tail if and only if the maximum closed it, or the target with no heading at hand, and otherwise is its own units and no more |
| ChunkBoundaries.NotClosedLater | src/intel/retrieval/chunker.py:312-330 | before each unit a prose chunk goes on with, the text held is within the maximum, the unit is no heading, and it fits the target or nothing but headings is held |
| ChunkBoundaries.OpensFresh | src/intel/retrieval/chunker.py:294-311 | the first chunk and a prose chunk behind a table are their own units and no more |
| ChunkBoundaries.TablesStandAlone | src/intel/retrieval/chunker.py:294-311 | a table's group is a chunk alone, as it stands, and prose chunks hold no table |
| ChunkSizes.TailIsSuffix | src/intel/retrieval/chunker.py:185-203 | the overlap is a word suffix of the chunk it repeats: the fewest last words that cost the overlap budget, or all |
| ChunkSizes.TailIds | src/intel/retrieval/chunker.py:185-203 | the overlap lists, each once, exactly the blocks it takes words from |
| ChunkSizes.ChunksAreBounded | src/intel/retrieval/chunker.py:312-327 | if the units are small, every prose chunk estimates to at most 2 * MAX_TOKENS + 1 |
| ChunkSizes.UnitIsKept | src/intel/retrieval/chunker.py:252-330 | every unit is whole in some chunk, which lists its blocks |
| ChunkSizes.ChunkIdsFromUnits | src/intel/retrieval/chunker.py:176-183 | a chunk lists each block once and only blocks of the units |
| Chunker.OverlapTail | src/intel/retrieval/chunker.py:185-203 | the walk back over the words gives that suffix and its blocks |
| Chunker.Assembler.Flush | src/intel/retrieval/chunker.py:277-292 | the accumulator becomes a chunk and the pending overlap changes, or nothing at all happens when it is empty |
| Chunker.Assembler.AddUnit | src/intel/retrieval/chunker.py:294-327 | one unit of the loop, tables and size guard included, takes the state to the one next in the history whose chunks ChunkBoundaries describes |
| Chunker.ChunkBlocks | src/intel/retrieval/chunker.py:252-330 | the chunks are those of the history over the units cut from the blocks, block by block, all that is proved of it included |
| Chunker.UnitsOfKinds | src/intel/retrieval/chunker.py:252-275 | of a block's units only the first opens a section, and only if the block is a heading; they are tables exactly if the block is one |
| Chunker.HeadingOpensChunk | src/intel/retrieval/chunker.py:294-327 | a heading that fits one unit stands at the opening of a chunk that lists it, with at most the tail of a chunk over the maximum before it |
| Chunker.ChunkingLosesNothing | src/intel/retrieval/chunker.py:252-330 | ordinals are 0..n-1, every word of every block is in a chunk that lists the block, and a chunk lists only given blocks, each once |
| Chunker.EveryWordIsKept | src/intel/retrieval/chunker.py:252-330 | which chunk that is, for one word of one block |
| Chunker.ListedBlocksAreGiven | src/intel/retrieval/chunker.py:176-183 | listed ids are distinct and are ids of the input |
| Chunker.ProseChunksAreBounded | src/intel/retrieval/chunker.py:312-327 | if no prose word exceeds (MAX_TOKENS - OVERLAP_TOKENS) * TOKEN_CHARS characters, every prose chunk estimates to at most 2 * MAX_TOKENS + 1 |
| Recall.RankHits | src/intel/retrieval/recall.py:179-215 | the result is the one ranking of the hits: an entry for each document with a hit, its score and evidence accumulated over all hits, in the order the rows below say |
| Recall.ContribFalls | src/intel/retrieval/recall.py:62-64 | a hit contributes more than nothing, less with each rank, and times k + rank it is 1 |
| Recall.OutdoneStandsBehind | src/intel/retrieval/recall.py:179-215 | the law of the ranking: a document each of whose hits can be paired with one of another document, each with its own, ahead of it in the same channel, stands behind that one |
| Recall.AnotherHitHelps | src/intel/retrieval/recall.py:179-215 | another hit, taken in anywhere in its channel, never puts its document behind one it stood before |
| Recall.TiesGoById | src/intel/retrieval/recall.py:207-208 | scores never rise along the ranking, and on equal scores ids rise |
| Recall.RankingIsUnique | src/intel/retrieval/recall.py:207-208 | the same hits have only one ranking |
| Recall.RankingConserves | src/intel/retrieval/recall.py:179-215 | scores of the ranking sum to the contributions of all hits; evidence is kept hit for hit, none lost or invented |
| Recall.RanksAreConsecutive | src/intel/retrieval/recall.py:186-206 | within a channel of n hits the ranks are exactly 0..n-1, in input order |
| Recall.RecallPage | src/intel/retrieval/recall.py:376-419 | a page is the next unseen hits up to the batch size, and the cursor goes on exactly when unseen hits remain behind it |
| Recall.PagesAreTheRanking | src/intel/retrieval/recall.py:376-419 | following cursors over one ordering, the pages concatenate to it, all but the last full |
| Recall.RecallDeliversTheRanking | src/intel/retrieval/recall.py:356-419 | a recall over unchanged candidates delivers exactly the one ranking, and ends once the pages could hold it |
| Recall.NoDocumentTwice | src/intel/retrieval/recall.py:382-418 | with candidates changing arbitrarily between pages no document comes twice, and the cursor remembers exactly what was delivered |
| Recall.PagePassesOver | src/intel/retrieval/recall.py:382-400 | an unseen document is taken or kept ahead of the cursor if and only if it stands at or after the offset |
| Recall.SteadyDocumentIsDelivered | src/intel/retrieval/recall.py:376-419 | a document that never moves towards the front is delivered by every recall that ends |
| Recall.DeliveredExactlyWhen | src/intel/retrieval/recall.py:376-419 | a completed recall delivers a document if and only if the ordering of some page has it from that page's offset up to the next page's, or to the end for the last page |
| Recall.SwappedDocumentIsMissed | src/intel/retrieval/recall.py:376-419 | a gap: two documents swapping between two pages make one of them be missed |
| Recall.ZeroBatchNeverEnds | src/intel/retrieval/recall.py:388-391 | a gap: with a page size of zero the cursor never moves |
| Timeline.SortSorts | src/intel/services/timeline.py:127 | sorting by key and id gives the same entries, strictly ascending when positions differ |
| Timeline.PageIsInterval | src/intel/services/timeline.py:127-137 | a page is exactly the entries between its cursor and the next one it hands out |
| Timeline.PageReadsInOrder | src/intel/services/timeline.py:127-137 | a page reads by group, in a group by start and on one start by id, texts in code-point order |
| Lexicographic.LessMeans | src/intel/services/timeline.py:127 | one text is before another exactly when they part at some place where it has ended or has the smaller character |
| Timeline.DeliveryAscends | src/intel/services/timeline.py:115-137 | whatever is inserted or removed between requests, delivery strictly ascends and so never repeats |
| Timeline.EachPositionIsCoveredOnce | src/intel/services/timeline.py:115-137 | in a completed run every position belongs to exactly one request |
| Timeline.DeliveredExactlyWhen | src/intel/services/timeline.py:115-137 | an entry is delivered if and only if the store held it at a request that covers its position |
| Timeline.PresentThroughoutIsDelivered | src/intel/services/timeline.py:115-137 | an entry present throughout a completed run is delivered exactly once |
| Timeline.UnchangedStoreIsDelivered | src/intel/services/timeline.py:115-137 | a store that does not change is delivered whole and sorted |
| Timeline.PagesAreFull | src/intel/services/timeline.py:131-136 | every request that does not end the run hands out exactly the limit |
| Timeline.SortNeverDescends | src/intel/services/timeline.py:127 | sorting any entries, shared positions included, gives the same entries, never descending |
| Timeline.SharedPositionIsLost | src/intel/services/timeline.py:128-136 | for any store, cursor and limit of one or more: what was ahead is the page, then what is lost, then what is ahead of the next cursor; lost are exactly the entries behind the page at its last position, so none unless the page ends inside one |
| Timeline.AllDeliveredExactlyWhen | src/intel/services/timeline.py:115-137 | a completed run over any unchanged non-empty store delivers all of it in order if and only if the limit is at least one and the sorted store, cut at each multiple of the limit, has no position cut in two |
| Timeline.NoLimitNoDelivery | src/intel/services/timeline.py:131-136 | under a limit below one no run over any unchanged store delivers all that is ahead of its cursor |
| Timeline.RunEnds | src/intel/services/timeline.py:131-136 | a run over an unchanged store is complete once it has asked for as many entries as the store holds |
| Timeline.SelectedIsLatest | src/intel/services/timeline.py:89-96 | the selected revision is the latest recorded by the date, the largest id on a tie; none exactly when none was recorded |
| Timeline.CorrectionsKeepPastViews | src/intel/services/timeline.py:89-96 | corrections recorded after a date never change the view of that date |
| Identity.BuildIdentityKey | src/intel/domain/identity.py:100-122 | the loops give the key of the component table, none for `other` or a missing required component, an error for an unknown type |
| Identity.GateOnFields | src/intel/domain/identity.py:96-138 | two proposals pass the gate if and only if they are of one keyed type, fully evidenced, and agree on every component's normal form, absent counting as blank |
| Identity.MergesExactlyWhen | src/intel/domain/identity.py:53-76 | type by type, over the names listed: two proposals may merge if and only if they are of one type, give words for all it requires and agree on all it lists |
| Identity.KeyedExactlyWhen | src/intel/domain/identity.py:100-122 | a proposal has a key if and only if its type is listed and it gives words for all the type requires; an unlisted type other than `other` is an error |
| Identity.DifferencesBlock | src/intel/domain/identity.py:31-37 | versions and actions on a paper, products, phases and regions of a release, attributes of a product, parties of a deal, conditions of a result: proposals that differ there never merge |
| Identity.SpacingNeverBlocks | src/intel/domain/identity.py:96-97 | values with the same words have one normal form |
| Identity.TailIsJoin | src/intel/domain/identity.py:125-128 | the joined text is the components one after another, each behind its marker |
| Identity.ShiftedFit | src/intel/domain/identity.py:125-128 | components that fit into a text later than its start leave a value holding its own marker |
| Identity.PlainKeysAgreeWithGate | src/intel/domain/identity.py:125-138 | for values free of the bar character, equal text coincides with the merge gate |
| Identity.TwoReleasesOneText | src/intel/domain/identity.py:125-138 | a gap: two product releases, built from fields, that the gate keeps apart under one text |
| BuiltKeys.BuiltExactlyWhen | src/intel/domain/identity.py:96-122 | a key can be built from some fields if and only if it has the names of its type, every value is in normal form, and no required value is blank |
| BuiltKeys.BuiltTextIsFaithfulExactlyWhen | src/intel/domain/identity.py:96-138 | among all keys that can be built, a key's text stands for that key alone if and only if no value holds the next component's marker, or from the second component on its own, at a cut that leaves well spaced parts and no required component blank |
| BuiltKeys.BlankFrontIsNoCut | src/intel/domain/identity.py:96-138 | a marker at the very front of a required first value does no harm: such a correction key stands alone among the keys that can be built |
| BuiltKeys.CharactersFold | src/intel/domain/identity.py:96-97 | what these results ask of case folding holds of folding character by character that settles at once and leaves space and the characters of markers alone |
| Events.InMemoryKnowledgeStore.InsertEventWithRevision | src/intel/services/knowledge.py:577-635 | one event row, its first revision and, with a key, the key's entry are added; nothing else changes; rationale, manifest and time fields are not modelled |
| Events.InMemoryKnowledgeStore.LinkEventClaims | src/intel/services/knowledge.py:637-644 | the claims go to the end of the event's list |
| Events.InMemoryKnowledgeStore.RecordPossibleDuplicate | src/intel/services/knowledge.py:646-664 | the flag goes to the end of the list, without its reason and row id |
| Events.ResolveEvent | src/intel/services/knowledge.py:329-392 | one proposal joins the event of its key or opens one, with the whole new store and the outcome as one function of the old |
| Events.ResolutionGroupsByKey | src/intel/services/knowledge.py:329-392 | after any proposals the store is their grouping by key text: one event for each group, opened by its first proposal, holding the group's claims in order, and nothing else |
| Events.EventsAreCounted | src/intel/services/knowledge.py:329-392 | the events number the distinct keys plus the keyless proposals |
| Events.SameEventExactlyWhen | src/intel/services/knowledge.py:341-360 | two proposals resolve to one event if and only if they share a key's text |
| Events.MergedExactlyWhenGatePasses | src/intel/services/knowledge.py:341-360 | two proposals, the key text of one standing alone, resolve to one event if and only if both have strong keys that pass the merge gate |
| Events.ResolvedToLeader | src/intel/services/knowledge.py:341-392 | every proposal resolves to the event of the first of its group, and creates it exactly when it is that first |
| Events.ResolutionTells | src/intel/services/knowledge.py:356-400 | a revision is told of exactly with a new event, and a possible duplicate exactly for a keyless proposal that came with a candidate |
| Events.RefusedExactlyWhen | src/intel/services/knowledge.py:329-348 | only a proposal of an unlisted type is refused, and it changes nothing |
| Quotes.LocateQuote | src/intel/domain/validation.py:102-116 | the loop returns the greedy non-overlapping hits |
| Quotes.SpansAreGreedy | src/intel/domain/validation.py:102-116 | spans reproduce the quote, are sorted and disjoint, and every occurrence starts inside one |
| Quotes.SpansAreTheOnlyOnes | src/intel/domain/validation.py:102-116 | no other list of spans has these properties |
| Quotes.OneSpanIsUniqueExactlyWhen | src/intel/domain/validation.py:165-179 | in every text one span means one occurrence and one occurrence one span, if and only if the quote cannot overlap itself |
| Quotes.OverlapFools | src/intel/domain/validation.py:165-179 | a gap: for every quote that overlaps itself, a text with two occurrences and one span |
| Quotes.ValidateClaim | src/intel/domain/validation.py:137-203 | rejection carries the first fault in evidence order, or missing numeric support; acceptance means none, with each location reproducing its quote in its block |
| Quotes.JudgementMeans | src/intel/domain/validation.py:137-203 | over the texts: a claim is accepted if and only if it has evidence, every quote has the characters asked for once stripped and stands in its block in one place, and every number of the claim is in some quote; a rejection names the first quote that does not stand and why |
| Quotes.JudgedOneWay | src/intel/domain/validation.py:137-203 | that judgement leaves one outcome only |
| Quotes.AcceptedQuotesAreUnique | src/intel/domain/validation.py:137-203 | an accepted quote that cannot overlap itself occurs exactly once in its block |
| Quotes.ValidateProposal | src/intel/domain/validation.py:206-224 | the claims are split over the two lists in order |
| Quotes.EveryClaimIsSorted | src/intel/domain/validation.py:206-224 | every claim is in exactly one list: rejections carry rising indices, accepted claims keep their order around them |
| CanonicalText.CollapsedIsJoin | src/intel/parsing/textnorm.py:94-95 | collapsing white space and stripping gives the words one space apart |
| CanonicalText.CanonicalIsItsWords | src/intel/parsing/textnorm.py:84-95 | the canonical text of a document is its words, block after block, one space apart |
| CanonicalText.SameTextExactlyWhen | src/intel/parsing/textnorm.py:84-95 | two documents have one canonical text if and only if they read the same word for word |
| CanonicalText.WordsAtSeparator | src/intel/parsing/textnorm.py:56-60 | the words of a text are those before a white-space character that is not dropped and those after it, pairs of returns and feeds included |
| CanonicalText.SeparatesExactlyWhen | src/intel/parsing/textnorm.py:84-95 | for composed texts, splitting at a character leaves the words as they were in every text if and only if it is white space and not a dropped control character |
| CanonicalText.ResegmentingKeepsWords | src/intel/parsing/textnorm.py:84-95 | any series of splitting and merging blocks at such characters leaves the words as they were |
| CanonicalText.FormFeedIsNoSeparator | src/intel/parsing/textnorm.py:21-23 | a gap: a form feed is white space, yet splitting at it can change the words, as the character is dropped |
| CanonicalText.ResegmentingIsParserChange | src/intel/parsing/blocksdiff.py:166-191 | re-segmentation by another parser version always classifies as parser_change |
| CanonicalText.KindExactlyWhen | src/intel/parsing/blocksdiff.py:166-191 | without digest collision: the same words are a parser change, unless one parser version read changed fields, which is a content change; other words are mixed with changed fields and a content change without |
| CanonicalText.ChangedBlocks | src/intel/parsing/blocksdiff.py:105-149 | each block outside the equal stretches is in exactly one entry, both sides keep their order, and the pairs joined are exactly those alike at one offset of a replaced stretch |
| CanonicalText.ReplacedBlocks | src/intel/parsing/blocksdiff.py:122-149 | the pairing loop over one replaced stretch accounts for both of its sides in order and joins exactly the alike pairs at one offset |
| UrlQuery.FilterQuery | src/intel/domain/urlnorm.py:42-59 | the loop gives the kept segments joined again, which the next rows tell by name |
| UrlQuery.FilteredHasExactly | src/intel/domain/urlnorm.py:16-59 | for every name free of `=`, with or without a value: the segment, if not empty, is in the result if and only if it is in the query and its unquoted, lowered name is none of the ten listed and does not start with `utm_` |
| UrlQuery.FilteredHasNoBlank | src/intel/domain/urlnorm.py:50-52 | no segment of a result is empty, unless the result is |
| UrlQuery.FilterDeletesOnlyTracking | src/intel/domain/urlnorm.py:42-59 | the result's segments are exactly the query's that are neither empty nor tracking, in order; it is empty exactly when there are none |
| UrlQuery.KeptOfParts | src/intel/domain/urlnorm.py:42-59 | what is kept of a query is what is kept of its parts, in order |
| UrlQuery.FilterIsIdempotent | src/intel/domain/urlnorm.py:42-59 | filtering again changes nothing |
| UrlAuthority.CanonicalNetloc | src/intel/domain/urlnorm.py:75-90 | host lowered, empty and default ports dropped, an unreadable port refused, user information kept |
| UrlAuthority.HostPortSplit | src/intel/domain/urlnorm.py:62-72 | a plain host goes up to the first colon, a bracketed one up to its first closing bracket, and the port is all behind a colon right after it |
| UrlAuthority.NetlocJoins | src/intel/domain/urlnorm.py:77 | user information and host are the two sides of the last `@` |
| UrlAuthority.CanonicalMeans | src/intel/domain/urlnorm.py:75-90 | user information is kept, the host is lowered, the port is kept as written exactly when present and not 80 for http or 443 for https; refusal exactly on an unreadable port |
| UrlAuthority.CanonicalStays | src/intel/domain/urlnorm.py:62-90 | a canonical authority is its own canonical form, no longer than the given one and without a new delimiter |
| UrlNorm.SplitOfUnsplit | src/intel/domain/urlnorm.py:106-110 | clean parts put together, any fragment behind them, split back into the same parts |
| UrlNorm.HostNameStays | src/intel/domain/urlnorm.py:75-107 | canonicalizing keeps the host name up to case and the brackets in order |
| UrlNorm.NormalizeGives | src/intel/domain/urlnorm.py:93-110 | a normalized URL is put together from parts that are canonical and filtered, no longer than the input |
| UrlNorm.NormalizedReadsBack | src/intel/domain/urlnorm.py:93-110 | split again, a normalized URL has the given scheme and path, no fragment, the canonical authority, and of the query exactly the segments whose names are not tracking parameters |
| UrlNorm.NormalizesExactlyWhen | src/intel/domain/urlnorm.py:93-107 | accepted are exactly the http and https URLs with a host whose port, if any, can be read |
| UrlNorm.NormalizesOnceExactlyWhen | src/intel/domain/urlnorm.py:93-110 | normalizing again changes nothing if and only if the part of the given URL that is kept last (query without its tracking parameters, else path, else port or host) does not end in white space |
| UrlNorm.SpacelessIsIdempotent | src/intel/domain/urlnorm.py:93-110 | normalization is idempotent on every URL without white space inside |
| UrlNorm.SpaceBeforeFragmentIsLost | src/intel/domain/urlnorm.py:93-110 | a gap in the promised idempotence: a path that ends in a space before a fragment gives two different results in two passes |
| UrlNorm.TwoPassesDiffer | src/intel/domain/urlnorm.py:93-110 | one such URL, `http://h/a #x`, under plain ASCII handling |
| UrlNorm.AsciiLibrarySettles | src/intel/domain/urlnorm.py:13 | what the URL results ask of the language's library holds of plain ASCII handling |

## Left out

- SQL adapters, statements, migrations, row-level security, HTTP routes, front end, agents and settings: I/O and plumbing around the logic modelled here.
- Error details are texts under names, not arbitrary JSON.
- Transactions: the in-memory store is modelled, which does not roll back; what a database would undo after an error is not.
- Job columns that nothing reads back (industry, input) and the construction of idempotency keys from parts: easy members; the key is taken as given.
- The two reads of one SSE poll are one atomic read; read-committed effects between them are not modelled.
- Sleeping between polls, rendering of frames and parsing of the Last-Event-ID header.
- Evolution.DetectCycles: the insertion order of dictionaries is not modelled; the search for cycles visits start nodes in an arbitrary order, so which cycle is reported is not fixed, only that it is one.
- The functions should_rebuild, detect_language and normalize_terms: single expressions over library patterns.
- Recall statements, query building, coverage counts and the manifest.
- Recall.RecallPage: a cursor's offset is not negative, as the service only makes such cursors.
- Recall.RankHits: a fusion constant of zero, which divides by zero on the first hit, is excluded; scores are real numbers, so rounding does not reorder documents.
- Time precision, interval intersection and the encoding of timeline cursors, which is taken to be lossless.
- Merging and undoing events by review, evidence rows, source families and the time fields of an event.
- UrlQuery.Lower: lower-casing is taken character by character: lower-case forms of more than one character and the context-dependent final sigma are not modelled in hosts and parameter names.
- UrlNorm.UrlSplit: splitting follows the standard library for absolute http(s) URLs; the checks on a bracketed address and on compatibility characters of an authority are parameters that are assumed to accept the canonical form of what they accept.
- The sequence matcher: opcodes are given, and assumed to tile both documents.
- Chunker.ChunkBlocks: does not model the language and normalized terms of a chunk.
- Events.InMemoryKnowledgeStore.InsertEventWithRevision: does not model rationale, manifest and time fields, which nothing here reads back.
- Events.InMemoryKnowledgeStore.RecordPossibleDuplicate: does not model the reason and the row id.
- Sse.ReadDeliversExactlyWhen: the batch limit is at least one, as the configured one is; under a limit of zero nothing would ever be sent.
- Warnings and human-readable details of rejections, beyond their codes and the downgrade flag.
