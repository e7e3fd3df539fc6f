/** The queue's storage as a value, and every operation on it as a function of
    the value before: the specification the store and service classes meet. */
module JobSpec {
  import opened Options
  import opened JobRecords

  type IdemKey = (OwnerId, string, string)
  type StepKey = (JobId, string, string)

  datatype Db = Db(
    jobs: map<JobId, JobRow>,
    idem: map<IdemKey, JobId>,
    steps: map<StepKey, StepRow>,
    events: map<JobId, seq<Event>>,
    locks: map<JobId, Session>)

  const EMPTY_DB := Db(map[], map[], map[], map[], map[])

  // ---- row updates ----

  /** The columns one update writes; `None` leaves a column alone. */
  datatype Values = Values(
    state: Option<State>,
    availableAt: Option<Time>,
    dropLease: bool,
    leaseUntil: Option<Time>,
    heartbeatAt: Option<Time>,
    progress: Option<Progress>,
    error: Option<JobError>,
    outputRef: Option<string>)

  const NO_VALUES := Values(None, None, false, None, None, None, None, None)

  function Or<T>(written: Option<T>, kept: T): T {
    if written.Some? then written.value else kept
  }

  function Update(row: JobRow, v: Values): JobRow {
    row.(state := Or(v.state, row.state),
         availableAt := Or(v.availableAt, row.availableAt),
         leaseToken := if v.dropLease then None else row.leaseToken,
         leaseUntil := if v.dropLease then None
                       else if v.leaseUntil.Some? then v.leaseUntil else row.leaseUntil,
         heartbeatAt := if v.heartbeatAt.Some? then v.heartbeatAt else row.heartbeatAt,
         progress := Or(v.progress, row.progress),
         error := if v.error.Some? then v.error else row.error,
         outputRef := if v.outputRef.Some? then v.outputRef else row.outputRef)
  }

  function Put(db: Db, id: JobId, row: JobRow): Db {
    db.(jobs := db.jobs[id := row])
  }

  /** The fencing predicate: the token is the row's and the lease has not run out. */
  predicate FenceOk(row: JobRow, token: Token, now: Time) {
    row.leaseToken == Some(token) && row.leaseUntil.Some? && row.leaseUntil.value > now
  }

  predicate Current(db: Db, id: JobId, token: Token, now: Time) {
    id in db.jobs && FenceOk(db.jobs[id], token, now)
  }

  /** The holder of this snapshot passes the fence. */
  predicate Holds(db: Db, job: JobRow, now: Time) {
    job.leaseToken.Some? && Current(db, job.id, job.leaseToken.value, now)
  }

  function FencedUpdate(db: Db, id: JobId, token: Token, now: Time, v: Values): Db {
    if Current(db, id, token, now) then Put(db, id, Update(db.jobs[id], v)) else db
  }

  // ---- events ----

  function MaxNum(log: seq<Event>): nat {
    if log == [] then 0
    else var m := MaxNum(log[..|log| - 1]); if log[|log| - 1].num > m then log[|log| - 1].num else m
  }

  function Log(db: Db, id: JobId): seq<Event> {
    if id in db.events then db.events[id] else []
  }

  function Append(db: Db, id: JobId, body: EventBody, now: Time): Db {
    var log := Log(db, id);
    db.(events := db.events[id := log + [Event(MaxNum(log) + 1, body, now)]])
  }

  // ---- results ----

  datatype Failure = LeaseLost | InvalidTransition | ValidationFailed | KeyError

  datatype Outcome<+T> = Ok(value: T) | Raised(failure: Failure)

  // ---- enqueue ----

  function DefaultMaxAttempts(kind: string): int {
    if kind in {"discover", "fetch", "source_poll"} then 5 else 3
  }

  datatype EnqueueResult = Created(row: JobRow) | Existing(row: JobRow) | Broken

  function NewRow(id: JobId, owner: OwnerId, kind: string, key: string, maxAttempts: Option<int>, now: Time): JobRow {
    JobRow(id, owner, kind, key, Queued, now, 0, Or(maxAttempts, DefaultMaxAttempts(kind)),
           None, None, None, None, map[], None, None)
  }

  function InsertJob(db: Db, row: JobRow): Db {
    db.(jobs := db.jobs[row.id := row],
        idem := db.idem[(row.ownerId, row.kind, row.key) := row.id],
        events := if row.id in db.events then db.events else db.events[row.id := []])
  }

  function Enqueue(db: Db, owner: OwnerId, kind: string, key: string,
                   maxAttempts: Option<int>, freshId: JobId, now: Time): (Db, EnqueueResult)
  {
    if (owner, kind, key) in db.idem then
      var id := db.idem[(owner, kind, key)];
      (db, if id in db.jobs then Existing(db.jobs[id]) else Broken)
    else
      var row := NewRow(freshId, owner, kind, key, maxAttempts, now);
      (Append(InsertJob(db, row), freshId, EvQueued, now), Created(row))
  }

  // ---- claim: lock, then write ----

  predicate Before(a: JobRow, b: JobRow) {
    a.availableAt < b.availableAt || (a.availableAt == b.availableAt && a.id < b.id)
  }

  predicate Admits(kinds: set<string>, kind: string) {
    kinds == {} || kind in kinds
  }

  predicate Claimable(db: Db, session: Session, now: Time, kinds: set<string>, id: JobId) {
    && id in db.jobs
    && db.jobs[id].state == Queued
    && db.jobs[id].availableAt <= now
    && (id in db.locks ==> db.locks[id] == session)
    && Admits(kinds, db.jobs[id].kind)
  }

  /** `pick` is what the claim scan selects: the first claimable row by
      (available_at, id), or nothing when no row is claimable. */
  ghost predicate IsPick(db: Db, session: Session, now: Time, kinds: set<string>, pick: Option<JobId>) {
    match pick
    case None => forall id :: id in db.jobs ==> !Claimable(db, session, now, kinds, id)
    case Some(p) =>
      && Claimable(db, session, now, kinds, p)
      && forall id :: id in db.jobs && id != p && Claimable(db, session, now, kinds, id) ==> Before(db.jobs[p], db.jobs[id])
  }

  function Lock(db: Db, session: Session, pick: Option<JobId>): Db {
    if pick.Some? then db.(locks := db.locks[pick.value := session]) else db
  }

  function Claimed(row: JobRow, token: Token, now: Time): JobRow {
    row.(state := Running, attempt := row.attempt + 1, leaseToken := Some(token),
         leaseUntil := Some(now + LEASE_SECONDS), heartbeatAt := Some(now))
  }

  function ClaimWrite(db: Db, id: JobId, token: Token, now: Time): Db
    requires id in db.jobs
  {
    Put(db, id, Claimed(db.jobs[id], token, now)).(locks := db.locks - {id})
  }

  // ---- lease upkeep and steps ----

  function Heartbeat(db: Db, id: JobId, token: Token, now: Time): Db {
    FencedUpdate(db, id, token, now,
                 NO_VALUES.(leaseUntil := Some(now + LEASE_SECONDS), heartbeatAt := Some(now)))
  }

  function Beat(now: Time): Values {
    NO_VALUES.(heartbeatAt := Some(now))
  }

  function UpsertStep(db: Db, key: StepKey, step: StepRow): Db {
    var row := if key !in db.steps then step
               else db.steps[key].(state := step.state, outputRef := step.outputRef,
                                   completedAt := step.completedAt,
                                   startedAt := if step.startedAt.Some? then step.startedAt
                                                else db.steps[key].startedAt);
    db.(steps := db.steps[key := row])
  }

  function StartStep(db: Db, job: JobRow, stepKey: string, inputHash: string, now: Time): (Db, Outcome<StepRow>) {
    if !Holds(db, job, now) then (db, Raised(LeaseLost))
    else
      var key := (job.id, stepKey, inputHash);
      var beaten := Put(db, job.id, Update(db.jobs[job.id], Beat(now)));
      var db' := UpsertStep(beaten, key, StepRow(StepRunning, None, job.attempt, Some(now), None));
      (Append(db', job.id, EvStageStarted(stepKey), now), Ok(db'.steps[key]))
  }

  function FreshProgress(db: Db, job: JobRow): Progress {
    if job.id in db.jobs then db.jobs[job.id].progress else job.progress
  }

  /** The values a step commit or finish merges into the committed progress. */
  function Merged(db: Db, job: JobRow, progress: Option<Progress>): Option<Progress> {
    if progress.Some? then Some(FreshProgress(db, job) + progress.value) else None
  }

  function StepEvents(db: Db, id: JobId, stepKey: string, outputRef: Option<string>,
                      progress: Option<Progress>, now: Time): Db
  {
    var db' := if outputRef.Some? then Append(db, id, EvArtifactReady(stepKey, outputRef.value), now) else db;
    if progress.Some? then Append(db', id, EvProgress(progress.value), now) else db'
  }

  function CompleteStep(db: Db, job: JobRow, stepKey: string, inputHash: string, outputRef: Option<string>,
                        progress: Option<Progress>, now: Time): (Db, Outcome<StepRow>)
  {
    if !Holds(db, job, now) then (db, Raised(LeaseLost))
    else
      var key := (job.id, stepKey, inputHash);
      var beaten := Put(db, job.id, Update(db.jobs[job.id], Beat(now)));
      if key in db.steps && db.steps[key].state == StepSucceeded then (beaten, Ok(db.steps[key]))
      else
        var values := Beat(now).(progress := Merged(db, job, progress));
        var written := Put(db, job.id, Update(beaten.jobs[job.id], values));
        var step := StepRow(StepSucceeded, outputRef, job.attempt, Some(now), Some(now));
        var db' := UpsertStep(written, key, step);
        (StepEvents(db', job.id, stepKey, outputRef, progress, now), Ok(db'.steps[key]))
  }

  // ---- terminal transitions ----

  predicate LacksGaps(target: State, error: Option<JobError>) {
    target == Partial && (error.None? || error.value.gaps == [])
  }

  function Finish(db: Db, job: JobRow, target: State, outputRef: Option<string>, error: Option<JobError>,
                  progress: Option<Progress>, now: Time): (Db, Outcome<JobRow>)
  {
    if !Allowed(job.state, target) then (db, Raised(InvalidTransition))
    else if LacksGaps(target, error) then (db, Raised(ValidationFailed))
    else if !Holds(db, job, now) then (db, Raised(LeaseLost))
    else
      var values := NO_VALUES.(state := Some(target), dropLease := true, heartbeatAt := Some(now),
                               outputRef := outputRef, error := error, progress := Merged(db, job, progress));
      var written := Put(db, job.id, Update(db.jobs[job.id], values));
      var event := TerminalEvent(target, error);
      if event.None? then (written, Raised(KeyError))
      else (Append(written, job.id, event.value, now), Ok(written.jobs[job.id]))
  }

  /** Leave the job in retry_wait until `delay` has passed. */
  function Park(db: Db, job: JobRow, delay: real, error: JobError, now: Time): (Db, Outcome<JobRow>) {
    if !Holds(db, job, now) then (db, Raised(LeaseLost))
    else
      var values := NO_VALUES.(state := Some(RetryWait), availableAt := Some(now + delay), dropLease := true,
                               heartbeatAt := Some(now), error := Some(error));
      var written := Put(db, job.id, Update(db.jobs[job.id], values));
      (Append(written, job.id, EvRetry(delay, Some(error)), now), Ok(written.jobs[job.id]))
  }

  function Fail(db: Db, job: JobRow, cls: ErrorClass, report: Report, retryAfter: Option<real>,
                draw: real, now: Time): (Db, Outcome<JobRow>)
  {
    var error := JobError(ErrorCode(cls), report, [], false, None);
    match ClassifyFailure(cls, job.attempt, retryAfter, draw)
    case Handler(_) => (db, Raised(ValidationFailed))
    case Cancel => Finish(db, job, Cancelled, None, Some(error), None, now)
    case GiveUp(audit) => Finish(db, job, Failed, None, Some(error.(audit := audit)), None, now)
    case Retry(delay) => Park(db, job, delay, error, now)
  }

  // ---- cancellation and upkeep ----

  predicate Cancellable(s: State) {
    s == Queued || s == Running || s == RetryWait || s == WaitingReview
  }

  function RequestCancel(db: Db, id: JobId, at: Time): Db {
    if id in db.jobs && Cancellable(db.jobs[id].state) && db.jobs[id].cancelRequestedAt.None?
    then Put(db, id, db.jobs[id].(cancelRequestedAt := Some(at)))
    else db
  }

  predicate Due(row: JobRow, now: Time) {
    row.state == RetryWait && row.availableAt <= now
  }

  function RequeueRow(row: JobRow, now: Time): JobRow {
    if Due(row, now) then row.(state := Queued) else row
  }

  function RequeueDue(db: Db, now: Time): Db {
    db.(jobs := map id | id in db.jobs :: RequeueRow(db.jobs[id], now))
  }

  predicate Expired(row: JobRow, now: Time) {
    row.state == Running && row.leaseUntil.Some? && row.leaseUntil.value <= now
  }

  function Draw(draws: map<JobId, real>, id: JobId): real {
    if id in draws then draws[id] else 0.0
  }

  function ReapValues(row: JobRow, now: Time, draw: real): Values {
    var error := Some(JobError("lease_expired", NO_REPORT, [], false, Some(row.attempt)));
    if row.attempt >= row.maxAttempts then
      NO_VALUES.(state := Some(Failed), dropLease := true, error := error)
    else
      NO_VALUES.(state := Some(RetryWait),
                 availableAt := Some(now + MaxReal(JitteredBackoff(row.attempt, draw), BACKOFF_BASE)),
                 dropLease := true, error := error)
  }

  function ReapRow(row: JobRow, now: Time, draw: real): JobRow {
    if Expired(row, now) then Update(row, ReapValues(row, now, draw)) else row
  }

  function ReapExpired(db: Db, now: Time, draws: map<JobId, real>): Db {
    db.(jobs := map id | id in db.jobs :: ReapRow(db.jobs[id], now, Draw(draws, id)))
  }
}
