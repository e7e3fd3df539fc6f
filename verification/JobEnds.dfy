/** Which jobs end without a word: every step that finishes a job writes its
    finish event, but for the reaper. */
module JobEnds {
  import opened Options
  import opened JobRecords
  import opened JobSpec
  import opened JobRuns
  import opened JobSafety
  import opened JobFencing
  import opened JobAttempts

  /** The step takes the running row to a finished state. */
  ghost predicate Ends(w: World, a: Action, id: JobId) {
    && id in w.db.jobs && w.db.jobs[id].state == Running
    && id in DbAfter(w, a).jobs && Finished(DbAfter(w, a).jobs[id].state)
  }

  /** The event that tells of this state. */
  ghost predicate TellsOf(body: EventBody, state: State) {
    exists error :: TerminalEvent(state, error) == Some(body)
  }

  /** One event goes to the end of this job's log, telling of its state; no other
      log changes. */
  ghost predicate LogsEnd(db: Db, db': Db, id: JobId, now: Time) {
    && id in db.events && id in db'.jobs
    && exists body :: TellsOf(body, db'.jobs[id].state) && FinishEvent(body)
         && db'.events == db.events[id := db.events[id] + [Event(|db.events[id]| + 1, body, now)]]
  }

  lemma TellingFinishes(body: EventBody, state: State)
    requires TellsOf(body, state)
    ensures FinishEvent(body) && Finished(state)
  {}

  lemma FinishLogs(db: Db, job: JobRow, target: State, outputRef: Option<string>, error: Option<JobError>,
                   progress: Option<Progress>, now: Time, id: JobId)
    requires RowsFine(db) && EventsInv(db) && id in db.jobs && db.jobs[id].state == Running
    requires id in Finish(db, job, target, outputRef, error, progress, now).0.jobs
    requires Finished(Finish(db, job, target, outputRef, error, progress, now).0.jobs[id].state)
    ensures LogsEnd(db, Finish(db, job, target, outputRef, error, progress, now).0, id, now)
  {
    hide RowOk, Numbered, LacksGaps, Merged, TellsOf, FinishEvent, MaxNum;
    var db' := Finish(db, job, target, outputRef, error, progress, now).0;
    FinishedByTarget(db, job, target, outputRef, error, progress, now, id);
    var body := TerminalEvent(target, error).value;
    TargetTells(target, error);
    TellingFinishes(body, target);
    LengthIsMax(db, id);
    assert db'.events == db.events[id := db.events[id] + [Event(|db.events[id]| + 1, body, now)]];
  }

  lemma FinishedByTarget(db: Db, job: JobRow, target: State, outputRef: Option<string>, error: Option<JobError>,
                         progress: Option<Progress>, now: Time, id: JobId)
    requires RowsFine(db) && id in db.jobs && db.jobs[id].state == Running
    requires id in Finish(db, job, target, outputRef, error, progress, now).0.jobs
    requires Finished(Finish(db, job, target, outputRef, error, progress, now).0.jobs[id].state)
    ensures job.id == id && Holds(db, job, now) && Allowed(job.state, target) && !LacksGaps(target, error)
    ensures Finish(db, job, target, outputRef, error, progress, now).0.jobs[id].state == target
    ensures Finished(target) && TerminalEvent(target, error).Some?
  {
    hide RowOk, LacksGaps, Merged, Allowed;
  }

  lemma TargetTells(target: State, error: Option<JobError>)
    requires TerminalEvent(target, error).Some?
    ensures TellsOf(TerminalEvent(target, error).value, target)
  {}

  lemma LengthIsMax(db: Db, id: JobId)
    requires EventsInv(db) && id in db.jobs
    ensures id in db.events && MaxNum(db.events[id]) == |db.events[id]|
  {
    MaxNumIsLength(db.events[id]);
  }

  lemma ParkStaysOpen(db: Db, job: JobRow, delay: real, error: JobError, now: Time, id: JobId)
    requires id in db.jobs && db.jobs[id].state == Running && id in Park(db, job, delay, error, now).0.jobs
    ensures !Finished(Park(db, job, delay, error, now).0.jobs[id].state)
  {}

  lemma FailLogs(db: Db, job: JobRow, cls: ErrorClass, report: Report, retryAfter: Option<real>,
                 draw: real, now: Time, id: JobId)
    requires RowsFine(db) && EventsInv(db) && id in db.jobs && db.jobs[id].state == Running
    requires id in Fail(db, job, cls, report, retryAfter, draw, now).0.jobs
    requires Finished(Fail(db, job, cls, report, retryAfter, draw, now).0.jobs[id].state)
    ensures LogsEnd(db, Fail(db, job, cls, report, retryAfter, draw, now).0, id, now)
  {
    hide Finish, Park, ClassifyFailure, RowsFine, EventsInv, LogsEnd;
    var error := JobError(ErrorCode(cls), report, [], false, None);
    match ClassifyFailure(cls, job.attempt, retryAfter, draw)
    case Handler(_) =>
    case Cancel => FinishLogs(db, job, Cancelled, None, Some(error), None, now, id);
    case GiveUp(audit) => FinishLogs(db, job, Failed, None, Some(error.(audit := audit)), None, now, id);
    case Retry(delay) => ParkStaysOpen(db, job, delay, error, now, id);
  }

  lemma OthersEndNothing(w: World, a: Action, id: JobId)
    requires PendingInv(w) && Enabled(w, a) && Ends(w, a, id)
    ensures a.DoFinish? || a.DoFail? || a.DoReapExpired?
  {
    hide StartStep, CompleteStep, Heartbeat, RequestCancel, RequeueDue, Finish, Fail, ReapExpired;
    match a
    case DoStartStep(now, job, stepKey, inputHash) => StepsDoNotPark(w.db, job, stepKey, inputHash, None, None, now, id);
    case DoCompleteStep(now, job, stepKey, inputHash, outputRef, progress) =>
      StepsDoNotPark(w.db, job, stepKey, inputHash, outputRef, progress, now, id);
    case DoHeartbeat(now, other, token) => UpkeepDoesNotPark(w.db, token, now, id, other);
    case DoRequestCancel(now, other) => UpkeepDoesNotPark(w.db, 0, now, id, other);
    case DoRequeueDue(now) => UpkeepDoesNotPark(w.db, 0, now, id, id);
    case _ =>
  }

  /** A step that finishes a running job tells of it in that job's log, exactly
      once and at the end, unless it is the reaper, which touches no log. */
  lemma EndIsLogged(w: World, a: Action, id: JobId)
    requires Core(w) && Enabled(w, a) && Ends(w, a, id)
    ensures a.DoReapExpired? ==> DbAfter(w, a).events == w.db.events
    ensures !a.DoReapExpired? ==> LogsEnd(w.db, DbAfter(w, a), id, a.now)
  {
    FineRows(w);
    hide RowsInv, TokensInv, PendingInv, KeysInv, EventsInv, RowsFine, Finish, Fail, LogsEnd;
    OthersEndNothing(w, a, id);
    match a
    case DoFinish(now, job, target, outputRef, error, progress) =>
      FinishLogs(w.db, job, target, outputRef, error, progress, now, id);
    case DoFail(now, job, cls, report, retryAfter, draw) =>
      FailLogs(w.db, job, cls, report, retryAfter, draw, now, id);
    case _ => UpkeepLogs(w, a);
  }

  /** The reaper finishes exactly the jobs whose lease ran out on their last
      attempt. */
  lemma ReaperEndsExactlyWhen(w: World, a: Action, id: JobId)
    requires a.DoReapExpired?
    ensures Ends(w, a, id) <==>
      id in w.db.jobs && Expired(w.db.jobs[id], a.now) && w.db.jobs[id].attempt >= w.db.jobs[id].maxAttempts
  {
    if id in w.db.jobs && w.db.jobs[id].state == Running { ReapedRow(w.db.jobs[id], a.now, Draw(a.draws, id)); }
    hide ReapRow, Finished;
  }

  lemma ReapedRow(r: JobRow, now: Time, draw: real)
    requires r.state == Running
    ensures Finished(ReapRow(r, now, draw).state) <==> Expired(r, now) && r.attempt >= r.maxAttempts
  {
    hide JitteredBackoff;
  }

  // ---- the logs of finished jobs ----

  /** Some step of the run is the reaper finishing this job. */
  ghost predicate ReapedIn(w: World, acts: seq<Action>, id: JobId)
    decreases |acts|
  {
    acts != [] && (ReapsNow(w, acts[0], id) || ReapedIn(Apply(w, acts[0]), acts[1..], id))
  }

  ghost predicate ReapsNow(w: World, a: Action, id: JobId) {
    a.DoReapExpired? && Ends(w, a, id)
  }

  /** The job's log tells of its end, unless it ended silently. */
  ghost predicate Told(db: Db, id: JobId, silent: bool) {
    && (silent ==> id in db.jobs && Finished(db.jobs[id].state))
    && (id in db.jobs ==> id in db.events && (HasFinish(db.events[id]) <==> Finished(db.jobs[id].state) && !silent))
  }

  lemma OpenHasNoFinish(w: World, id: JobId)
    requires LogsInv(w.db) && id in w.db.jobs && !Finished(w.db.jobs[id].state)
    ensures id in w.db.events && !HasFinish(w.db.events[id])
  {
    assert LogOk(w.db.events[id], w.db.jobs[id].state);
  }

  lemma LogsEndIsFinish(db: Db, db': Db, id: JobId, now: Time)
    requires LogsEnd(db, db', id, now)
    ensures id in db'.events && HasFinish(db'.events[id])
  {
    var body :| TellsOf(body, db'.jobs[id].state) && FinishEvent(body)
         && db'.events == db.events[id := db.events[id] + [Event(|db.events[id]| + 1, body, now)]];
    assert FinishEvent(db'.events[id][|db.events[id]|].body);
  }

  lemma NewIsQueued(w: World, a: Action, id: JobId)
    requires Core(w) && Enabled(w, a) && id !in w.db.jobs && id in DbAfter(w, a).jobs
    ensures DbAfter(w, a).jobs[id].state == Queued
  {
    hide Enqueue, StartStep, CompleteStep, Finish, Fail, Heartbeat, RequestCancel, RequeueDue, ReapExpired;
    hide TokensInv, KeysInv, EventsInv, RowStep;
    if OnRows(a) {
      StepRows(w, a);
    } else if a.DoEnqueue? {
      assert Apply(w, a).db == DbAfter(w, a);
      if (a.owner, a.kind, a.key) in w.db.idem {
        EnqueueRepeats(w, a);
      } else {
        var row := EnqueueAdds(w, a);
      }
    }
  }

  lemma NextEndsRunning(w: World, w': World, id: JobId)
    requires Next(w, w') && id in w.db.jobs && id in w'.db.jobs && Finished(w'.db.jobs[id].state)
    ensures Finished(w.db.jobs[id].state) || w.db.jobs[id].state == Running
  {
    hide LogsGrow;
    forall t ensures ClaimedBy(w, t, id, w'.db.jobs[id]) ==> w'.db.jobs[id].state == Running {}
  }

  /** Only running jobs become finished. */
  lemma OnlyRunningEnds(w: World, a: Action, id: JobId)
    requires Core(w) && Enabled(w, a) && id in DbAfter(w, a).jobs && Finished(DbAfter(w, a).jobs[id].state)
    ensures id in w.db.jobs && (Finished(w.db.jobs[id].state) || w.db.jobs[id].state == Running)
  {
    hide Core, Enabled, Next, DbAfter;
    if id in w.db.jobs {
      StepIsNext(w, a);
      NextEndsRunning(w, Apply(w, a), id);
    } else {
      NewIsQueued(w, a, id);
    }
  }

  lemma InvParts(w: World)
    requires Inv(w)
    ensures Core(w) && LogsInv(w.db)
  {}

  lemma JobsStay(w: World, a: Action, id: JobId)
    requires Core(w) && Enabled(w, a) && id in w.db.jobs
    ensures id in DbAfter(w, a).jobs
  {
    hide Core, Enabled, DbAfter;
    StepIsNext(w, a);
  }

  lemma ToldStep(w: World, a: Action, id: JobId, silent: bool)
    requires Inv(w) && Enabled(w, a) && !Collides(w, a) && Told(w.db, id, silent)
    ensures Told(DbAfter(w, a), id, silent || ReapsNow(w, a, id))
  {
    hide Inv, Core, LogsInv, Enabled, Collides, HasFinish, DbAfter, LogsEnd;
    StepKeepsInv(w, a);
    InvParts(w);
    InvParts(Apply(w, a));
    var db' := DbAfter(w, a);
    if id in w.db.jobs { JobsStay(w, a, id); }
    if id in db'.jobs {
      if Finished(db'.jobs[id].state) {
        OnlyRunningEnds(w, a, id);
        if Finished(w.db.jobs[id].state) {
          FinishedStays(w, a, id);
        } else {
          EndIsTold(w, a, id);
        }
      } else {
        OpenHasNoFinish(Apply(w, a), id);
        if id in w.db.jobs && Finished(w.db.jobs[id].state) { FinishedStays(w, a, id); }
      }
    }
  }

  lemma EndIsTold(w: World, a: Action, id: JobId)
    requires Core(w) && LogsInv(w.db) && Enabled(w, a) && Ends(w, a, id)
    ensures id in DbAfter(w, a).events && (HasFinish(DbAfter(w, a).events[id]) <==> !a.DoReapExpired?)
  {
    hide Core, LogsInv, Enabled, HasFinish, DbAfter, LogsEnd;
    EndIsLogged(w, a, id);
    OpenHasNoFinish(w, id);
    if !a.DoReapExpired? { LogsEndIsFinish(w.db, DbAfter(w, a), id, a.now); }
  }

  lemma {:induction false} ToldAlong(w: World, acts: seq<Action>, id: JobId, silent: bool)
    requires Inv(w) && Exclusive(w, acts) && Told(w.db, id, silent)
    ensures Told(Run(w, acts).db, id, silent || ReapedIn(w, acts, id))
    decreases |acts|
  {
    hide Inv, Enabled, Collides, DbAfter, Told, ReapsNow;
    if acts != [] {
      ToldStep(w, acts[0], id, silent);
      StepKeepsInv(w, acts[0]);
      ToldAlong(Apply(w, acts[0]), acts[1..], id, silent || ReapsNow(w, acts[0], id));
    }
  }

  /** In a run from the empty queue without collisions, a job's log tells of its
      end if and only if the job is finished and it was not the reaper that
      finished it. */
  lemma EndIsToldExactlyWhen(w: World, acts: seq<Action>, id: JobId)
    requires Initial(w) && Exclusive(w, acts) && id in Run(w, acts).db.jobs
    ensures var db := Run(w, acts).db;
      id in db.events && (HasFinish(db.events[id]) <==> Finished(db.jobs[id].state) && !ReapedIn(w, acts, id))
  {
    InitialInv(w);
    hide Inv, HasFinish, Exclusive, Run, ReapedIn;
    ToldAlong(w, acts, id, false);
  }
}
