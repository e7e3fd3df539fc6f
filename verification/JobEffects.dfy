/** What each call of the queue leaves behind, column by column, and what of it
    lasts over runs. */
module JobEffects {
  import opened Options
  import opened JobRecords
  import opened JobSpec
  import opened JobRuns
  import opened JobSafety
  import opened JobAttempts
  import opened JobEnds
  import opened JobSteps

  // ---- steps ----

  /** Nothing but job `id`'s own row, log and step rows may differ. */
  ghost predicate OthersUntouched(db: Db, db': Db, id: JobId) {
    && db'.idem == db.idem && db'.locks == db.locks
    && (forall other :: other in db.jobs && other != id ==> other in db'.jobs && db'.jobs[other] == db.jobs[other])
    && (forall other :: other in db'.jobs ==> other in db.jobs)
    && (forall other :: other in db.events && other != id ==> other in db'.events && db'.events[other] == db.events[other])
  }

  /** The bodies of these events, in order. */
  function Bodies(log: seq<Event>): seq<EventBody> {
    seq(|log|, i requires 0 <= i < |log| => log[i].body)
  }

  /** The log goes on with exactly these events. */
  ghost predicate LogGoesOn(db: Db, db': Db, id: JobId, bodies: seq<EventBody>) {
    && id in db.events && id in db'.events
    && Bodies(db'.events[id]) == Bodies(db.events[id]) + bodies
  }

  lemma BodiesAppend(log: seq<Event>, e: Event)
    ensures Bodies(log + [e]) == Bodies(log) + [e.body]
  {}

  /** Starting a step: its row runs, without an output, under the attempt that
      first opened it; the heartbeat is now, and the log tells of it. */
  lemma StartLeaves(db: Db, job: JobRow, stepKey: string, inputHash: string, now: Time)
    requires Holds(db, job, now) && job.id in db.events
    ensures var (db', r) := StartStep(db, job, stepKey, inputHash, now); var key := (job.id, stepKey, inputHash);
      && key in db'.steps && r == Ok(db'.steps[key])
      && db'.steps[key].state == StepRunning && db'.steps[key].outputRef == None
      && db'.steps[key].startedAt == Some(now) && db'.steps[key].completedAt == None
      && db'.steps[key].attempt == (if key in db.steps then db.steps[key].attempt else job.attempt)
      && (forall k :: k in db.steps && k != key ==> k in db'.steps && db'.steps[k] == db.steps[k])
      && job.id in db'.jobs && db'.jobs[job.id] == db.jobs[job.id].(heartbeatAt := Some(now))
      && OthersUntouched(db, db', job.id)
      && LogGoesOn(db, db', job.id, [EvStageStarted(stepKey)])
  {
    BodiesAppend(db.events[job.id], Event(MaxNum(db.events[job.id]) + 1, EvStageStarted(stepKey), now));
  }

  /** The events a commit writes: the artifact, then the progress. */
  function CommitEvents(stepKey: string, outputRef: Option<string>, progress: Option<Progress>): seq<EventBody> {
    (if outputRef.Some? then [EvArtifactReady(stepKey, outputRef.value)] else [])
    + (if progress.Some? then [EvProgress(progress.value)] else [])
  }

  /** Every name has its new value, and where none was given its old one. */
  ghost predicate ProgressIs(old': Progress, given: Option<Progress>, new': Progress) {
    && (forall k :: k in new' <==> k in old' || (given.Some? && k in given.value))
    && (forall k :: k in new' ==> new'[k] == if given.Some? && k in given.value then given.value[k] else old'[k])
  }

  /** The round trip of a commit: what the holder gave is what the step row holds,
      with the attempt that opened it, and what the caller gets back. */
  lemma CommitStores(db: Db, job: JobRow, stepKey: string, inputHash: string, outputRef: Option<string>,
                     progress: Option<Progress>, now: Time)
    requires var key := (job.id, stepKey, inputHash); key in db.steps ==> db.steps[key].state != StepSucceeded
    requires Holds(db, job, now)
    ensures var (db', r) := CompleteStep(db, job, stepKey, inputHash, outputRef, progress, now);
            var key := (job.id, stepKey, inputHash);
      && key in db'.steps && r == Ok(db'.steps[key])
      && db'.steps[key].state == StepSucceeded && db'.steps[key].outputRef == outputRef
      && db'.steps[key].startedAt == Some(now) && db'.steps[key].completedAt == Some(now)
      && db'.steps[key].attempt == (if key in db.steps then db.steps[key].attempt else job.attempt)
      && (forall k :: k in db.steps && k != key ==> k in db'.steps && db'.steps[k] == db.steps[k])
  {}

  /** With the step the row's progress and heartbeat move, and nothing else. */
  lemma CommitMoves(db: Db, job: JobRow, stepKey: string, inputHash: string, outputRef: Option<string>,
                    progress: Option<Progress>, now: Time)
    requires var key := (job.id, stepKey, inputHash); key in db.steps ==> db.steps[key].state != StepSucceeded
    requires Holds(db, job, now)
    ensures var db' := CompleteStep(db, job, stepKey, inputHash, outputRef, progress, now).0;
      && job.id in db'.jobs
      && ProgressIs(db.jobs[job.id].progress, progress, db'.jobs[job.id].progress)
      && db'.jobs[job.id] == db.jobs[job.id].(heartbeatAt := Some(now), progress := db'.jobs[job.id].progress)
      && OthersUntouched(db, db', job.id)
  {}

  lemma CommitTells(db: Db, job: JobRow, stepKey: string, inputHash: string, outputRef: Option<string>,
                    progress: Option<Progress>, now: Time)
    requires var key := (job.id, stepKey, inputHash); key in db.steps ==> db.steps[key].state != StepSucceeded
    requires Holds(db, job, now) && job.id in db.events
    ensures LogGoesOn(db, CompleteStep(db, job, stepKey, inputHash, outputRef, progress, now).0, job.id,
                      CommitEvents(stepKey, outputRef, progress))
  {
    var log := db.events[job.id];
    var db' := CompleteStep(db, job, stepKey, inputHash, outputRef, progress, now).0;
    var mid := if outputRef.Some? then log + [Event(MaxNum(log) + 1, EvArtifactReady(stepKey, outputRef.value), now)] else log;
    var end := if progress.Some? then mid + [Event(MaxNum(mid) + 1, EvProgress(progress.value), now)] else mid;
    assert db'.events[job.id] == end;
    hide *;
    if outputRef.Some? { BodiesAppend(log, Event(MaxNum(log) + 1, EvArtifactReady(stepKey, outputRef.value), now)); }
    if progress.Some? { BodiesAppend(mid, Event(MaxNum(mid) + 1, EvProgress(progress.value), now)); }
    CommitBodies(Bodies(log), stepKey, outputRef, progress);
    GoesOn(db, db', job.id, CommitEvents(stepKey, outputRef, progress));
  }

  lemma CommitBodies(bodies: seq<EventBody>, stepKey: string, outputRef: Option<string>, progress: Option<Progress>)
    ensures bodies + CommitEvents(stepKey, outputRef, progress)
      == (bodies + if outputRef.Some? then [EvArtifactReady(stepKey, outputRef.value)] else [])
         + if progress.Some? then [EvProgress(progress.value)] else []
  {}

  lemma GoesOn(db: Db, db': Db, id: JobId, bodies: seq<EventBody>)
    requires id in db.events && id in db'.events && Bodies(db'.events[id]) == Bodies(db.events[id]) + bodies
    ensures LogGoesOn(db, db', id, bodies)
  {}

  /** Along any run that does not reopen the step, whoever completes it again
      gets the first output back, whatever output they bring. */
  lemma FirstOutputStands(w: World, a: Action, acts: seq<Action>, job: JobRow, outputRef: Option<string>,
                          progress: Option<Progress>, now: Time)
    requires a.DoCompleteStep? && Holds(w.db, a.job, a.now)
    requires var key := (a.job.id, a.stepKey, a.inputHash); key in w.db.steps ==> w.db.steps[key].state != StepSucceeded
    requires NeverReopened(Apply(w, a), acts, (a.job.id, a.stepKey, a.inputHash))
    requires var db := Run(Apply(w, a), acts).db; job.id == a.job.id && Holds(db, job, now)
    ensures var r := CompleteStep(Run(Apply(w, a), acts).db, job, a.stepKey, a.inputHash, outputRef, progress, now).1;
      r.Ok? && r.value.state == StepSucceeded && r.value.outputRef == a.outputRef
  {
    CommitStores(w.db, a.job, a.stepKey, a.inputHash, a.outputRef, a.progress, a.now);
    hide Holds, CompleteStep, NeverReopened, Run;
    RerunIsNoOp(Apply(w, a), acts, job, a.stepKey, a.inputHash, outputRef, progress, now);
  }

  // ---- the end of a job ----

  /** A row as `finish` or `fail` leaves it: what was given, and otherwise what
      it had; the lease is gone. */
  ghost predicate LeftAs(r: JobRow, r': JobRow, target: State, availableAt: Time, outputRef: Option<string>,
                         error: Option<JobError>, progress: Option<Progress>, now: Time) {
    && r'.state == target && r'.availableAt == availableAt
    && r'.leaseToken == None && r'.leaseUntil == None && r'.heartbeatAt == Some(now)
    && r'.outputRef == (if outputRef.Some? then outputRef else r.outputRef)
    && r'.error == (if error.Some? then error else r.error)
    && ProgressIs(r.progress, progress, r'.progress)
    && r'.id == r.id && r'.ownerId == r.ownerId && r'.kind == r.kind && r'.key == r.key
    && r'.attempt == r.attempt && r'.maxAttempts == r.maxAttempts && r'.cancelRequestedAt == r.cancelRequestedAt
  }

  /** The round trip of `finish` by a holder: the state and values given are
      stored and returned, and the log tells of exactly that state. */
  lemma FinishStores(db: Db, job: JobRow, target: State, outputRef: Option<string>, error: Option<JobError>,
                     progress: Option<Progress>, now: Time)
    requires Holds(db, job, now) && job.state == Running && job.id in db.events
    requires target in {Succeeded, Partial, Failed, Cancelled, WaitingReview}
    requires target == Partial ==> error.Some? && error.value.gaps != []
    ensures var (db', r) := Finish(db, job, target, outputRef, error, progress, now);
      && job.id in db'.jobs && r == Ok(db'.jobs[job.id])
      && LeftAs(db.jobs[job.id], db'.jobs[job.id], target, db.jobs[job.id].availableAt, outputRef, error, progress, now)
      && db'.steps == db.steps && OthersUntouched(db, db', job.id)
      && LogGoesOn(db, db', job.id,
                   [match target case Failed => EvFailed(error) case Cancelled => EvCancelled(error)
                    case WaitingReview => EvReviewRequired(error) case _ => EvCompleted(error)])
  {
    var db' := Finish(db, job, target, outputRef, error, progress, now).0;
    var body := TerminalEvent(target, error).value;
    FinishLeaves(db, job, target, outputRef, error, progress, now);
    assert db'.events == db.events[job.id := db.events[job.id] + [Event(MaxNum(db.events[job.id]) + 1, body, now)]];
    hide Finish, LeftAs, OthersUntouched, Holds;
    BodiesAppend(db.events[job.id], Event(MaxNum(db.events[job.id]) + 1, body, now));
  }

  /** The moves the queue's design lists. */
  ghost predicate Listed(from: State, to: State) {
    || (from == Queued && to in {Running, Cancelled})
    || (from == Running && to in {Succeeded, Partial, Failed, WaitingReview, RetryWait, Cancelled})
    || (from == RetryWait && to in {Queued, Cancelled})
    || (from == WaitingReview && to in {Running, Cancelled})
  }

  /** Whom `finish` turns away, and with what, the store as it was: first a move
      that is not listed, then a partial result that names no gaps, then a caller
      whose lease is gone. */
  lemma FinishRefuses(db: Db, job: JobRow, target: State, outputRef: Option<string>, error: Option<JobError>,
                      progress: Option<Progress>, now: Time)
    ensures var done := Finish(db, job, target, outputRef, error, progress, now);
      var gapless := target == Partial && (error == None || error.value.gaps == []);
      && (done.1 == Raised(InvalidTransition) <==> !Listed(job.state, target))
      && (done.1 == Raised(ValidationFailed) <==> Listed(job.state, target) && gapless)
      && (done.1 == Raised(LeaseLost) <==> Listed(job.state, target) && !gapless && !Holds(db, job, now))
      && (done.1 in {Raised(InvalidTransition), Raised(ValidationFailed), Raised(LeaseLost)} ==> done.0 == db)
  {
    hide Holds;
    assert Allowed(job.state, target) <==> Listed(job.state, target);
  }

  lemma FinishLeaves(db: Db, job: JobRow, target: State, outputRef: Option<string>, error: Option<JobError>,
                     progress: Option<Progress>, now: Time)
    requires Holds(db, job, now) && job.state == Running
    requires target in {Succeeded, Partial, Failed, Cancelled, WaitingReview}
    requires target == Partial ==> error.Some? && error.value.gaps != []
    ensures var (db', r) := Finish(db, job, target, outputRef, error, progress, now);
      && job.id in db'.jobs && r == Ok(db'.jobs[job.id])
      && LeftAs(db.jobs[job.id], db'.jobs[job.id], target, db.jobs[job.id].availableAt, outputRef, error, progress, now)
      && db'.steps == db.steps && OthersUntouched(db, db', job.id)
  {}

  /** What becomes of the job, class by class. */
  datatype Fate = HandedBack | Ended(state: State, code: string, audit: bool) | Parked(code: string, least: real, most: real)

  /** Transient failures retry four times, waiting what the caller asks for or 30
      seconds to 30 minutes; a parser error retries once, after 30 seconds; faulty
      output and failed validation go back to the handler; everything else ends. */
  function FateOf(cls: ErrorClass, attempt: nat, retryAfter: Option<real>): Fate {
    match cls
    case Transient =>
      if attempt >= 5 then Ended(Failed, "transient", false)
      else if retryAfter.Some? then Parked("transient", retryAfter.value, retryAfter.value)
      else Parked("transient", 30.0, 1800.0)
    case ParserError =>
      if attempt >= 2 then Ended(Failed, "parser_error", false) else Parked("parser_error", 30.0, 30.0)
    case SchemaOutput => HandedBack
    case ValidationError => HandedBack
    case AccessBlocked => Ended(Failed, "access_blocked", false)
    case ScopeViolation => Ended(Failed, "scope_violation", true)
    case UserCancelled => Ended(Cancelled, "cancelled", false)
    case Unclassified(name) => Ended(Failed, name, false)
  }

  lemma FateIsDecided(cls: ErrorClass, attempt: nat, retryAfter: Option<real>, draw: real)
    requires 0.0 <= draw < 1.0
    ensures match FateOf(cls, attempt, retryAfter)
      case HandedBack => ClassifyFailure(cls, attempt, retryAfter, draw).Handler?
      case Ended(state, code, audit) =>
        && ErrorCode(cls) == code
        && ClassifyFailure(cls, attempt, retryAfter, draw) == (if state == Cancelled then Cancel else GiveUp(audit))
        && (state == Cancelled ==> !audit) && (state == Cancelled || state == Failed)
      case Parked(code, least, most) =>
        && ErrorCode(cls) == code
        && ClassifyFailure(cls, attempt, retryAfter, draw).Retry?
        && least <= ClassifyFailure(cls, attempt, retryAfter, draw).delay <= most
  {
    BackoffBounds(attempt, attempt, draw);
    hide JitteredBackoff;
  }

  /** `fail` by a holder does that: it hands the failure back and touches nothing,
      or leaves the row ended or parked with the caller's report in its error. */
  lemma FailDoes(db: Db, job: JobRow, cls: ErrorClass, report: Report, retryAfter: Option<real>, draw: real, now: Time)
    requires Holds(db, job, now) && job.state == Running && job.id in db.events && 0.0 <= draw < 1.0
    ensures var (db', r) := Fail(db, job, cls, report, retryAfter, draw, now);
      match FateOf(cls, job.attempt, retryAfter)
      case HandedBack => db' == db && r == Raised(ValidationFailed)
      case Ended(state, code, audit) =>
        && job.id in db'.jobs && r == Ok(db'.jobs[job.id])
        && LeftAs(db.jobs[job.id], db'.jobs[job.id], state, db.jobs[job.id].availableAt, None,
                  Some(JobError(code, report, [], audit, None)), None, now)
      case Parked(code, least, most) =>
        && job.id in db'.jobs && r == Ok(db'.jobs[job.id])
        && now + least <= db'.jobs[job.id].availableAt <= now + most
        && LeftAs(db.jobs[job.id], db'.jobs[job.id], RetryWait, db'.jobs[job.id].availableAt, None,
                  Some(JobError(code, report, [], false, None)), None, now)
        && LogGoesOn(db, db', job.id,
                     [EvRetry(db'.jobs[job.id].availableAt - now, Some(JobError(code, report, [], false, None)))])
  {
    FateIsDecided(cls, job.attempt, retryAfter, draw);
    hide FateOf, ClassifyFailure, ErrorCode, Finish, Park, Holds, LeftAs, LogGoesOn;
    var error := JobError(ErrorCode(cls), report, [], false, None);
    match ClassifyFailure(cls, job.attempt, retryAfter, draw)
    case Handler(_) =>
    case Cancel => FinishStores(db, job, Cancelled, None, Some(error), None, now);
    case GiveUp(audit) => FinishStores(db, job, Failed, None, Some(error.(audit := audit)), None, now);
    case Retry(delay) => ParkLeaves(db, job, delay, error, now);
  }

  lemma ParkLeaves(db: Db, job: JobRow, delay: real, error: JobError, now: Time)
    requires Holds(db, job, now) && job.id in db.events
    ensures var (db', r) := Park(db, job, delay, error, now);
      && job.id in db'.jobs && r == Ok(db'.jobs[job.id])
      && db'.jobs[job.id].availableAt == now + delay
      && LeftAs(db.jobs[job.id], db'.jobs[job.id], RetryWait, now + delay, None, Some(error), None, now)
      && LogGoesOn(db, db', job.id, [EvRetry(delay, Some(error))])
  {
    BodiesAppend(db.events[job.id], Event(MaxNum(db.events[job.id]) + 1, EvRetry(delay, Some(error)), now));
  }

  // ---- upkeep ----

  /** An expired row on its last attempt fails, any other is parked for at least
      30 seconds and at most 30 minutes; a row with a live lease is left alone. */
  lemma ReapDoes(db: Db, now: Time, draws: map<JobId, real>, id: JobId)
    requires id in db.jobs && 0.0 <= Draw(draws, id) < 1.0
    ensures var r := db.jobs[id]; var r' := ReapExpired(db, now, draws).jobs[id];
      if r.state == Running && r.leaseUntil.Some? && r.leaseUntil.value <= now then
        && r'.leaseToken == None && r'.leaseUntil == None
        && r'.error == Some(JobError("lease_expired", NO_REPORT, [], false, Some(r.attempt)))
        && r' == r.(state := r'.state, availableAt := r'.availableAt, leaseToken := None, leaseUntil := None, error := r'.error)
        && (if r.attempt >= r.maxAttempts then r'.state == Failed && r'.availableAt == r.availableAt
            else r'.state == RetryWait && now + 30.0 <= r'.availableAt <= now + 1800.0)
      else r' == r
  {
    BackoffBounds(db.jobs[id].attempt, db.jobs[id].attempt, Draw(draws, id));
    hide JitteredBackoff;
  }

  /** A parked row is queued again exactly when its time has come, at the place it
      was parked for. */
  lemma RequeueDoes(db: Db, now: Time, id: JobId)
    requires id in db.jobs
    ensures var r := db.jobs[id]; var r' := RequeueDue(db, now).jobs[id];
      if r.state == RetryWait && r.availableAt <= now then r' == r.(state := Queued) else r' == r
  {}

  /** A heartbeat by the token's holder gives the lease 90 more seconds from now;
      any other does nothing. */
  lemma HeartbeatDoes(db: Db, id: JobId, token: Token, now: Time)
    ensures var db' := Heartbeat(db, id, token, now);
      if id in db.jobs && db.jobs[id].leaseToken == Some(token) && db.jobs[id].leaseUntil.Some? && db.jobs[id].leaseUntil.value > now
      then id in db'.jobs && db' == db.(jobs := db'.jobs) && OthersUntouched(db, db', id)
           && db'.jobs[id] == db.jobs[id].(leaseUntil := Some(now + 90.0), heartbeatAt := Some(now))
      else db' == db
  {}

  /** A claim picks a queued row that is due, of a kind the worker takes, and not
      locked by another session; no other such row stands before it. */
  lemma ClaimPicks(db: Db, session: Session, now: Time, kinds: set<string>, id: JobId)
    requires IsPick(db, session, now, kinds, Some(id))
    ensures id in db.jobs && db.jobs[id].state == Queued && db.jobs[id].availableAt <= now
    ensures kinds != {} ==> db.jobs[id].kind in kinds
    ensures id in db.locks ==> db.locks[id] == session
    ensures forall other | other in db.jobs && db.jobs[other].state == Queued && other !in db.locks ::
      (kinds == {} || db.jobs[other].kind in kinds) && db.jobs[other].availableAt <= now ==>
      && db.jobs[id].availableAt <= db.jobs[other].availableAt
      && (db.jobs[id].availableAt == db.jobs[other].availableAt ==> db.jobs[id].id <= db.jobs[other].id)
  {}

  /** A new job waits from now on, unclaimed, with the limit asked for or that of
      its kind. */
  lemma EnqueueStores(db: Db, owner: OwnerId, kind: string, key: string, maxAttempts: Option<int>, freshId: JobId, now: Time)
    requires (owner, kind, key) !in db.idem && freshId !in db.events
    ensures var (db', r) := Enqueue(db, owner, kind, key, maxAttempts, freshId, now);
      && freshId in db'.jobs && r == Created(db'.jobs[freshId])
      && (owner, kind, key) in db'.idem && db'.idem[(owner, kind, key)] == freshId
      && var row := db'.jobs[freshId];
        && row.id == freshId && row.ownerId == owner && row.kind == kind && row.key == key
        && row.state == Queued && row.availableAt == now && row.attempt == 0
        && row.maxAttempts == (match maxAttempts case Some(m) => m
                               case None => if kind == "discover" || kind == "fetch" || kind == "source_poll" then 5 else 3)
        && row.leaseToken == None && row.leaseUntil == None && row.cancelRequestedAt == None
        && row.progress == map[] && row.error == None && row.outputRef == None
  {}

  // ---- cancel requests ----

  /** A request stamps a job that is not done, the first one for good. */
  lemma CancelStamps(db: Db, id: JobId, now: Time)
    requires id in db.jobs
    ensures var r := db.jobs[id]; var db' := RequestCancel(db, id, now);
      && id in db'.jobs && db' == db.(jobs := db'.jobs) && OthersUntouched(db, db', id)
      && db'.jobs[id] == r.(cancelRequestedAt :=
           if r.cancelRequestedAt == None && r.state in {Queued, Running, RetryWait, WaitingReview} then Some(now) else r.cancelRequestedAt)
  {
    assert db.jobs[id := db.jobs[id]] == db.jobs;
  }

  lemma StampKept(w: World, a: Action, id: JobId)
    requires Enabled(w, a) && id in w.db.jobs && w.db.jobs[id].cancelRequestedAt.Some?
    ensures id in DbAfter(w, a).jobs && DbAfter(w, a).jobs[id].cancelRequestedAt == w.db.jobs[id].cancelRequestedAt
  {
    hide StartStep, CompleteStep, Finish, Fail, ReapExpired, ReapRow, Heartbeat;
    match a
    case DoStartStep(now, job, stepKey, inputHash) => StepStamp(w.db, job, stepKey, inputHash, None, None, now, id);
    case DoCompleteStep(now, job, stepKey, inputHash, outputRef, progress) =>
      StepStamp(w.db, job, stepKey, inputHash, outputRef, progress, now, id);
    case DoFinish(now, job, target, outputRef, error, progress) =>
      FinishStamp(w.db, job, target, outputRef, error, progress, now, id);
    case DoFail(now, job, cls, report, retryAfter, draw) => FailStamp(w.db, job, cls, report, retryAfter, draw, now, id);
    case DoReapExpired(now, draws) => ReapStamp(w.db, now, draws, id);
    case DoHeartbeat(now, other, token) => HeartbeatDoes(w.db, other, token, now);
    case _ =>
  }

  lemma StepStamp(db: Db, job: JobRow, stepKey: string, inputHash: string, outputRef: Option<string>,
                  progress: Option<Progress>, now: Time, id: JobId)
    requires id in db.jobs
    ensures id in StartStep(db, job, stepKey, inputHash, now).0.jobs
    ensures StartStep(db, job, stepKey, inputHash, now).0.jobs[id].cancelRequestedAt == db.jobs[id].cancelRequestedAt
    ensures id in CompleteStep(db, job, stepKey, inputHash, outputRef, progress, now).0.jobs
    ensures CompleteStep(db, job, stepKey, inputHash, outputRef, progress, now).0.jobs[id].cancelRequestedAt
         == db.jobs[id].cancelRequestedAt
  {}

  lemma FinishStamp(db: Db, job: JobRow, target: State, outputRef: Option<string>, error: Option<JobError>,
                    progress: Option<Progress>, now: Time, id: JobId)
    requires id in db.jobs
    ensures var db' := Finish(db, job, target, outputRef, error, progress, now).0;
      id in db'.jobs && db'.jobs[id].cancelRequestedAt == db.jobs[id].cancelRequestedAt
  {}

  lemma FailStamp(db: Db, job: JobRow, cls: ErrorClass, report: Report, retryAfter: Option<real>, draw: real, now: Time, id: JobId)
    requires id in db.jobs
    ensures var db' := Fail(db, job, cls, report, retryAfter, draw, now).0;
      id in db'.jobs && db'.jobs[id].cancelRequestedAt == db.jobs[id].cancelRequestedAt
  {
    hide ClassifyFailure, Finish, Park;
    var error := JobError(ErrorCode(cls), report, [], false, None);
    match ClassifyFailure(cls, job.attempt, retryAfter, draw)
    case Handler(_) =>
    case Cancel => FinishStamp(db, job, Cancelled, None, Some(error), None, now, id);
    case GiveUp(audit) => FinishStamp(db, job, Failed, None, Some(error.(audit := audit)), None, now, id);
    case Retry(delay) => ParkStamp(db, job, delay, error, now, id);
  }

  lemma ParkStamp(db: Db, job: JobRow, delay: real, error: JobError, now: Time, id: JobId)
    requires id in db.jobs
    ensures var db' := Park(db, job, delay, error, now).0;
      id in db'.jobs && db'.jobs[id].cancelRequestedAt == db.jobs[id].cancelRequestedAt
  {}

  lemma ReapStamp(db: Db, now: Time, draws: map<JobId, real>, id: JobId)
    requires id in db.jobs
    ensures id in ReapExpired(db, now, draws).jobs
    ensures ReapExpired(db, now, draws).jobs[id].cancelRequestedAt == db.jobs[id].cancelRequestedAt
  {
    hide JitteredBackoff;
  }

  /** The first cancel request of a job stands for good: no run moves it. */
  lemma {:induction false} CancelForever(w: World, acts: seq<Action>, id: JobId)
    requires Feasible(w, acts) && id in w.db.jobs && w.db.jobs[id].cancelRequestedAt.Some?
    ensures id in Run(w, acts).db.jobs && Run(w, acts).db.jobs[id].cancelRequestedAt == w.db.jobs[id].cancelRequestedAt
    decreases |acts|
  {
    hide Enabled, DbAfter;
    if acts != [] {
      StampKept(w, acts[0], id);
      CancelForever(Apply(w, acts[0]), acts[1..], id);
    }
  }

  // ---- a live lease is safe ----

  /** The holder of this lease ends its own work. */
  ghost predicate EndsOwn(a: Action, id: JobId, token: Token) {
    (a.DoFinish? || a.DoFail?) && a.job.id == id && a.job.leaseToken == Some(token)
  }

  /** A row that its holder does not write stays as it is. */
  lemma FinishOnlyOwn(db: Db, job: JobRow, target: State, outputRef: Option<string>, error: Option<JobError>,
                      progress: Option<Progress>, now: Time, id: JobId)
    requires id in db.jobs && !(job.id == id && Holds(db, job, now))
    ensures var db' := Finish(db, job, target, outputRef, error, progress, now).0; id in db'.jobs && db'.jobs[id] == db.jobs[id]
  {
    hide Update, Merged;
  }

  lemma FailOnlyOwn(db: Db, job: JobRow, cls: ErrorClass, report: Report, retryAfter: Option<real>, draw: real, now: Time, id: JobId)
    requires id in db.jobs && !(job.id == id && Holds(db, job, now))
    ensures var db' := Fail(db, job, cls, report, retryAfter, draw, now).0; id in db'.jobs && db'.jobs[id] == db.jobs[id]
  {
    hide ClassifyFailure, Finish, Update;
    var error := JobError(ErrorCode(cls), report, [], false, None);
    match ClassifyFailure(cls, job.attempt, retryAfter, draw)
    case Handler(_) =>
    case Cancel => FinishOnlyOwn(db, job, Cancelled, None, Some(error), None, now, id);
    case GiveUp(audit) => FinishOnlyOwn(db, job, Failed, None, Some(error.(audit := audit)), None, now, id);
    case Retry(delay) =>
  }

  lemma HeldMeansOwn(db: Db, job: JobRow, now: Time)
    requires Holds(db, job, now)
    ensures job.id in db.jobs && db.jobs[job.id].leaseToken == job.leaseToken && job.leaseToken.Some?
  {}

  lemma RewriteKeepsRunning(w: World, a: Action, id: JobId, token: Token)
    requires OnRows(a) && id in w.db.jobs && w.db.jobs[id].state == Running && w.db.jobs[id].leaseToken == Some(token)
    requires w.db.jobs[id].leaseUntil.Some? && w.db.jobs[id].leaseUntil.value > a.now && !EndsOwn(a, id, token)
    ensures id in DbAfter(w, a).jobs && DbAfter(w, a).jobs[id].state == Running
  {
    hide Holds, StartStep, CompleteStep, Finish, Fail, Heartbeat, RequestCancel, RequeueDue;
    match a
    case DoStartStep(now, job, stepKey, inputHash) => StepsDoNotPark(w.db, job, stepKey, inputHash, None, None, now, id);
    case DoCompleteStep(now, job, stepKey, inputHash, outputRef, progress) =>
      StepsDoNotPark(w.db, job, stepKey, inputHash, outputRef, progress, now, id);
    case DoFinish(now, job, target, outputRef, error, progress) =>
      if Holds(w.db, job, now) { HeldMeansOwn(w.db, job, now); }
      FinishOnlyOwn(w.db, job, target, outputRef, error, progress, now, id);
    case DoFail(now, job, cls, report, retryAfter, draw) =>
      if Holds(w.db, job, now) { HeldMeansOwn(w.db, job, now); }
      FailOnlyOwn(w.db, job, cls, report, retryAfter, draw, now, id);
    case DoReapExpired(now, draws) =>
    case DoHeartbeat(now, other, t) => UpkeepDoesNotPark(w.db, t, now, id, other);
    case DoRequestCancel(now, other) => UpkeepDoesNotPark(w.db, 0, now, id, other);
    case DoRequeueDue(now) => UpkeepDoesNotPark(w.db, 0, now, id, id);
  }

  lemma HolderKeeps(w: World, a: Action, id: JobId, token: Token)
    requires Inv(w) && Enabled(w, a) && id in w.db.jobs
    requires w.db.jobs[id].state == Running && w.db.jobs[id].leaseToken == Some(token)
    requires w.db.jobs[id].leaseUntil.Some? && w.db.jobs[id].leaseUntil.value > a.now && !EndsOwn(a, id, token)
    ensures id in DbAfter(w, a).jobs
    ensures DbAfter(w, a).jobs[id].state == Running && DbAfter(w, a).jobs[id].leaseToken == Some(token)
  {
    assert HeldInv(w) && Core(w) && RowsInv(w);
    hide Inv, Core, RowsInv, ClaimsInv, HeldInv, Next, DbAfter, Enabled;
    StepIsNext(w, a);
    if OnRows(a) { RewriteKeepsRunning(w, a, id, token); }
    KeptToken(w, a, id, token);
  }

  lemma KeptToken(w: World, a: Action, id: JobId, token: Token)
    requires HeldInv(w) && Next(w, Apply(w, a)) && id in w.db.jobs
    requires w.db.jobs[id].state == Running && w.db.jobs[id].leaseToken == Some(token)
    requires OnRows(a) ==> id in DbAfter(w, a).jobs && DbAfter(w, a).jobs[id].state == Running
    requires Enabled(w, a) && RowsInv(w)
    ensures id in DbAfter(w, a).jobs
    ensures DbAfter(w, a).jobs[id].state == Running && DbAfter(w, a).jobs[id].leaseToken == Some(token)
  {
    hide LogsGrow;
    if OnRows(a) {
      hide DbAfter;
      forall t ensures !ClaimedBy(w, t, id, Apply(w, a).db.jobs[id]) {}
      assert RowStep(w.db.jobs[id], DbAfter(w, a).jobs[id], a.now);
    }
  }

  /** The lease is live at every call of the run, and its holder does not end the
      work. */
  ghost predicate KeptAlive(w: World, acts: seq<Action>, id: JobId, token: Token)
    decreases |acts|
  {
    acts == []
    || (id in w.db.jobs && w.db.jobs[id].leaseUntil.Some? && w.db.jobs[id].leaseUntil.value > acts[0].now
        && !EndsOwn(acts[0], id, token) && KeptAlive(Apply(w, acts[0]), acts[1..], id, token))
  }

  /** A holder whose lease is live whenever anything happens is never dislodged:
      no reaper, claim or other worker takes the job from it. */
  lemma {:induction false} LiveLeaseIsSafe(w: World, acts: seq<Action>, id: JobId, token: Token)
    requires Inv(w) && Exclusive(w, acts) && KeptAlive(w, acts, id, token)
    requires id in w.db.jobs && w.db.jobs[id].state == Running && w.db.jobs[id].leaseToken == Some(token)
    ensures var db := Run(w, acts).db; id in db.jobs && db.jobs[id].state == Running && db.jobs[id].leaseToken == Some(token)
    decreases |acts|
  {
    hide Inv, Enabled, Collides, DbAfter;
    if acts != [] {
      HolderKeeps(w, acts[0], id, token);
      StepKeepsInv(w, acts[0]);
      LiveLeaseIsSafe(Apply(w, acts[0]), acts[1..], id, token);
    }
  }

  // ---- a parked job waits ----

  lemma ParkedStays(w: World, a: Action, id: JobId)
    requires Inv(w) && Enabled(w, a) && id in w.db.jobs && w.db.jobs[id].state == RetryWait && a.now < w.db.jobs[id].availableAt
    ensures id in DbAfter(w, a).jobs && DbAfter(w, a).jobs[id].state == RetryWait
    ensures DbAfter(w, a).jobs[id].availableAt == w.db.jobs[id].availableAt
  {
    assert HeldInv(w) && RowsInv(w);
    hide Inv, Core, ClaimsInv, RowsInv, HeldInv, DbAfter, Enabled;
    if OnRows(a) { ParkedRewrite(w, a, id); } else { ParkedPassed(w, a, id); }
  }

  lemma ParkedPassed(w: World, a: Action, id: JobId)
    requires HeldInv(w) && Enabled(w, a) && !OnRows(a) && id in w.db.jobs && w.db.jobs[id].state == RetryWait
    ensures id in DbAfter(w, a).jobs && DbAfter(w, a).jobs[id] == w.db.jobs[id]
  {}

  lemma ParkedRewrite(w: World, a: Action, id: JobId)
    requires RowsInv(w) && OnRows(a) && id in w.db.jobs && w.db.jobs[id].state == RetryWait && a.now < w.db.jobs[id].availableAt
    ensures id in DbAfter(w, a).jobs && DbAfter(w, a).jobs[id].state == RetryWait
    ensures DbAfter(w, a).jobs[id].availableAt == w.db.jobs[id].availableAt
  {
    NoLease(w, id);
    hide RowsInv, Holds, Finish, Fail, StartStep, CompleteStep, Heartbeat, RequestCancel, RequeueDue, ReapExpired;
    match a
    case DoFinish(now, job, target, outputRef, error, progress) =>
      if Holds(w.db, job, now) { HeldMeansOwn(w.db, job, now); }
      FinishOnlyOwn(w.db, job, target, outputRef, error, progress, now, id);
    case DoFail(now, job, cls, report, retryAfter, draw) =>
      if Holds(w.db, job, now) { HeldMeansOwn(w.db, job, now); }
      FailOnlyOwn(w.db, job, cls, report, retryAfter, draw, now, id);
    case DoStartStep(now, job, stepKey, inputHash) =>
      if Holds(w.db, job, now) { HeldMeansOwn(w.db, job, now); }
      StepOnlyOwn(w.db, job, stepKey, inputHash, None, None, now, id);
    case DoCompleteStep(now, job, stepKey, inputHash, outputRef, progress) =>
      if Holds(w.db, job, now) { HeldMeansOwn(w.db, job, now); }
      StepOnlyOwn(w.db, job, stepKey, inputHash, outputRef, progress, now, id);
    case DoHeartbeat(now, other, token) => HeartbeatDoes(w.db, other, token, now);
    case DoRequestCancel(now, other) => CancelLeaves(w.db, other, now, id);
    case DoRequeueDue(now) =>
      RequeueKeys(w.db, now);
      RequeueDoes(w.db, now, id);
    case DoReapExpired(now, draws) => ReapLeaves(w.db, now, draws, id);
  }

  lemma StepOnlyOwn(db: Db, job: JobRow, stepKey: string, inputHash: string, outputRef: Option<string>,
                    progress: Option<Progress>, now: Time, id: JobId)
    requires id in db.jobs && !(job.id == id && Holds(db, job, now))
    ensures var db' := StartStep(db, job, stepKey, inputHash, now).0; id in db'.jobs && db'.jobs[id] == db.jobs[id]
    ensures var db' := CompleteStep(db, job, stepKey, inputHash, outputRef, progress, now).0;
      id in db'.jobs && db'.jobs[id] == db.jobs[id]
  {
    hide Update, Merged;
  }

  lemma CancelLeaves(db: Db, other: JobId, now: Time, id: JobId)
    requires id in db.jobs
    ensures var db' := RequestCancel(db, other, now);
      id in db'.jobs && db'.jobs[id] == db.jobs[id].(cancelRequestedAt := db'.jobs[id].cancelRequestedAt)
  {}

  lemma RequeueKeys(db: Db, now: Time)
    ensures RequeueDue(db, now).jobs.Keys == db.jobs.Keys
  {}

  lemma ReapLeaves(db: Db, now: Time, draws: map<JobId, real>, id: JobId)
    requires id in db.jobs && db.jobs[id].state != Running
    ensures id in ReapExpired(db, now, draws).jobs && ReapExpired(db, now, draws).jobs[id] == db.jobs[id]
  {}

  lemma NoLease(w: World, id: JobId)
    requires RowsInv(w) && id in w.db.jobs && w.db.jobs[id].state != Running
    ensures w.db.jobs[id].leaseToken == None
  {
    assert w.db.jobs[id] in w.seen;
  }

  /** A parked job is not claimed, requeued or moved before its time. */
  lemma {:induction false} ParkedUntilDue(w: World, acts: seq<Action>, id: JobId)
    requires Inv(w) && Exclusive(w, acts) && id in w.db.jobs && w.db.jobs[id].state == RetryWait
    requires forall a :: a in acts ==> a.now < w.db.jobs[id].availableAt
    ensures var db := Run(w, acts).db;
      id in db.jobs && db.jobs[id].state == RetryWait && db.jobs[id].availableAt == w.db.jobs[id].availableAt
    decreases |acts|
  {
    hide Inv, Enabled, Collides, DbAfter;
    if acts != [] {
      ParkedStays(w, acts[0], id);
      StepKeepsInv(w, acts[0]);
      ParkedUntilDue(Apply(w, acts[0]), acts[1..], id);
    }
  }

  // ---- partial results name their gaps ----

  ghost predicate GapsNamed(db: Db) {
    forall id :: id in db.jobs && db.jobs[id].state == Partial ==> NamesGaps(db.jobs[id])
  }

  predicate NamesGaps(r: JobRow) { r.error.Some? && r.error.value.gaps != [] }

  lemma FinishNamesGaps(db: Db, job: JobRow, target: State, outputRef: Option<string>, error: Option<JobError>,
                        progress: Option<Progress>, now: Time, id: JobId)
    requires id in db.jobs && db.jobs[id].state == Running
    requires var db' := Finish(db, job, target, outputRef, error, progress, now).0; id in db'.jobs && db'.jobs[id].state == Partial
    ensures NamesGaps(Finish(db, job, target, outputRef, error, progress, now).0.jobs[id])
  {}

  lemma FailIsNotPartial(db: Db, job: JobRow, cls: ErrorClass, report: Report, retryAfter: Option<real>, draw: real, now: Time, id: JobId)
    requires id in db.jobs && db.jobs[id].state == Running
    ensures var db' := Fail(db, job, cls, report, retryAfter, draw, now).0; id in db'.jobs && db'.jobs[id].state != Partial
  {
    hide ClassifyFailure, Finish, Park;
    var error := JobError(ErrorCode(cls), report, [], false, None);
    match ClassifyFailure(cls, job.attempt, retryAfter, draw)
    case Handler(_) =>
    case Cancel => FinishIsNotPartial(db, job, Cancelled, None, Some(error), None, now, id);
    case GiveUp(audit) => FinishIsNotPartial(db, job, Failed, None, Some(error.(audit := audit)), None, now, id);
    case Retry(delay) => ParkIsNotPartial(db, job, delay, error, now, id);
  }

  lemma FinishIsNotPartial(db: Db, job: JobRow, target: State, outputRef: Option<string>, error: Option<JobError>,
                           progress: Option<Progress>, now: Time, id: JobId)
    requires id in db.jobs && db.jobs[id].state == Running && target != Partial
    ensures var db' := Finish(db, job, target, outputRef, error, progress, now).0; id in db'.jobs && db'.jobs[id].state != Partial
  {
    hide Allowed, Merged;
  }

  lemma ParkIsNotPartial(db: Db, job: JobRow, delay: real, error: JobError, now: Time, id: JobId)
    requires id in db.jobs && db.jobs[id].state == Running
    ensures var db' := Park(db, job, delay, error, now).0; id in db'.jobs && db'.jobs[id].state != Partial
  {}

  lemma ReapIsNotPartial(db: Db, now: Time, draws: map<JobId, real>, id: JobId)
    requires id in db.jobs && db.jobs[id].state == Running
    ensures ReapExpired(db, now, draws).jobs[id].state != Partial
  {
    hide JitteredBackoff;
  }

  lemma EndNamesGaps(w: World, a: Action, id: JobId)
    requires Core(w) && Enabled(w, a) && Ends(w, a, id) && DbAfter(w, a).jobs[id].state == Partial
    ensures NamesGaps(DbAfter(w, a).jobs[id])
  {
    assert PendingInv(w);
    hide Core, RowsInv, TokensInv, PendingInv, KeysInv, EventsInv, Enabled, NamesGaps;
    hide StartStep, CompleteStep, Heartbeat, RequestCancel, RequeueDue, ReapExpired, Finish, Fail;
    OthersEndNothing(w, a, id);
    match a
    case DoFinish(now, job, target, outputRef, error, progress) =>
      FinishNamesGaps(w.db, job, target, outputRef, error, progress, now, id);
    case DoFail(now, job, cls, report, retryAfter, draw) =>
      FailIsNotPartial(w.db, job, cls, report, retryAfter, draw, now, id);
    case DoReapExpired(now, draws) => ReapIsNotPartial(w.db, now, draws, id);
    case _ =>
  }

  lemma PartialKept(w: World, w': World, id: JobId)
    requires Next(w, w') && id in w.db.jobs && id in w'.db.jobs && w'.db.jobs[id].state == Partial && Finished(w.db.jobs[id].state)
    ensures w'.db.jobs[id] == w.db.jobs[id]
  {
    hide LogsGrow;
    forall t ensures !ClaimedBy(w, t, id, w'.db.jobs[id]) {}
    assert RowStep(w.db.jobs[id], w'.db.jobs[id], w'.clock);
  }

  lemma StepNamesGaps(w: World, a: Action)
    requires Core(w) && Enabled(w, a) && GapsNamed(w.db)
    ensures GapsNamed(DbAfter(w, a))
  {
    hide Core, Enabled, DbAfter, Next, NamesGaps;
    StepIsNext(w, a);
    var db' := DbAfter(w, a);
    forall id | id in db'.jobs && db'.jobs[id].state == Partial ensures NamesGaps(db'.jobs[id]) {
      OnlyRunningEnds(w, a, id);
      if Finished(w.db.jobs[id].state) { PartialKept(w, Apply(w, a), id); } else { EndNamesGaps(w, a, id); }
    }
  }

  /** In no run from the empty queue, colliding claims or not, is a job partial
      without naming its gaps. */
  lemma PartialNamesGaps(w: World, acts: seq<Action>, id: JobId)
    requires Initial(w) && Feasible(w, acts) && id in Run(w, acts).db.jobs && Run(w, acts).db.jobs[id].state == Partial
    ensures NamesGaps(Run(w, acts).db.jobs[id])
  {
    InitialInv(w);
    hide Core, ClaimsInv, LogsInv, Feasible, Run;
    RunNamesGaps(w, acts);
  }

  lemma {:induction false} RunNamesGaps(w: World, acts: seq<Action>)
    requires Core(w) && Feasible(w, acts) && GapsNamed(w.db)
    ensures GapsNamed(Run(w, acts).db)
    decreases |acts|
  {
    hide Core, Enabled, DbAfter, GapsNamed;
    if acts != [] {
      StepNamesGaps(w, acts[0]);
      StepKeepsCore(w, acts[0]);
      RunNamesGaps(Apply(w, acts[0]), acts[1..]);
    }
  }
}
