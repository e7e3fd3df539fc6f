/** Claims over whole runs: who wins a row, what a win does, and how often a
    job can be claimed. */
module JobAttempts {
  import opened Options
  import opened JobRecords
  import opened JobSpec
  import opened JobRuns
  import opened JobSafety

  // ---- interleaved claims ----

  /** Without collisions two claims in flight never hold the same row, and a row
      they hold is still queued and locked by its session. */
  lemma ClaimsAreExclusive(w: World, t: Token, u: Token)
    requires Inv(w) && t in w.pending && u in w.pending && t != u
    ensures w.pending[t].id != w.pending[u].id
    ensures var p := w.pending[t];
      && p.id in w.db.jobs && w.db.jobs[p.id].state == Queued
      && p.id in w.db.locks && w.db.locks[p.id] == p.session
  {
    hide Core, LogsInv, LocksInv;
  }

  /** The claim with token `t` wins its row: attempt goes up by exactly one, the
      token becomes the row's and nobody else's, and no other row changes. */
  ghost predicate WinsRow(w: World, w': World, t: Token, id: JobId) {
    && id in w.db.jobs && w.db.jobs[id].state == Queued
    && w'.db.jobs.Keys == w.db.jobs.Keys && w'.db.jobs[id].state == Running
    && w'.db.jobs[id].attempt == w.db.jobs[id].attempt + 1
    && w'.db.jobs[id].leaseToken == Some(t)
    && id !in w'.db.locks
    && (forall other :: other in w.db.jobs && other != id ==>
          w'.db.jobs[other] == w.db.jobs[other] && w'.db.jobs[other].leaseToken != w'.db.jobs[id].leaseToken)
  }

  lemma ClaimWins(w: World, a: Action)
    requires Inv(w) && Enabled(w, a) && a.DoClaimWrite?
    ensures a.token in w.pending && WinsRow(w, Apply(w, a), a.token, w.pending[a.token].id)
  {
    hide TokensInv, KeysInv, EventsInv, LogsInv, LocksInv;
    WriteWins(w, Apply(w, a), a.token);
  }

  lemma WriteWins(w: World, w': World, t: Token)
    requires RowsInv(w) && PendingInv(w) && HeldInv(w) && t in w.pending
    requires w'.db == ClaimWrite(w.db, w.pending[t].id, t, w.pending[t].now)
    ensures WinsRow(w, w', t, w.pending[t].id)
  {
    var id := w.pending[t].id;
    forall other | other in w.db.jobs && other != id
      ensures w.db.jobs[other].leaseToken != Some(t)
    {
      assert w.db.jobs[other] in w.seen;
    }
  }

  ghost predicate WritesOf(a: Action, t: Token) {
    a.DoClaimWrite? && a.token == t
  }

  lemma PendingStays(w: World, a: Action, t: Token)
    requires PendingInv(w) && Enabled(w, a) && t in w.pending && !WritesOf(a, t)
    ensures t in Apply(w, a).pending && Apply(w, a).pending[t] == w.pending[t]
  {
    hide DbAfter;
  }

  /** The row that claim `t` locked in `w` is still locked by its session,
      queued, and but for a cancel request has every column it had. */
  ghost predicate Waits(w: World, w': World, t: Token)
    requires t in w.pending
  {
    var p := w.pending[t];
    && t in w'.pending && w'.pending[t] == p
    && p.id in w.db.jobs && p.id in w'.db.jobs && w'.db.jobs[p.id].state == Queued
    && p.id in w'.db.locks && w'.db.locks[p.id] == p.session
    && w'.db.jobs[p.id] == w.db.jobs[p.id].(cancelRequestedAt := w'.db.jobs[p.id].cancelRequestedAt)
  }

  lemma LockedRowKept(w: World, w': World, t: Token)
    requires HeldInv(w) && HeldInv(w') && Next(w, w')
    requires t in w.pending && t in w'.pending && w'.pending[t] == w.pending[t]
    ensures Waits(w, w', t)
  {
    hide LogsGrow;
    var id := w.pending[t].id;
    forall u ensures !ClaimedBy(w, u, id, w'.db.jobs[id]) {}
    assert RowStep(w.db.jobs[id], w'.db.jobs[id], w'.clock);
  }

  lemma HeldNow(w: World)
    requires Inv(w)
    ensures HeldInv(w) && PendingInv(w)
  {}

  lemma OneStepWaits(w: World, a: Action, t: Token)
    requires Inv(w) && Enabled(w, a) && !Collides(w, a) && t in w.pending && !WritesOf(a, t)
    ensures Waits(w, Apply(w, a), t)
  {
    HeldNow(w);
    StepKeepsInv(w, a);
    HeldNow(Apply(w, a));
    hide ClaimsInv, LogsInv, HeldInv, PendingInv, Next, Enabled, Apply;
    StepIsNext(w, a);
    PendingStays(w, a, t);
    LockedRowKept(w, Apply(w, a), t);
  }

  lemma WaitsChains(w: World, mid: World, w': World, t: Token)
    requires t in w.pending && Waits(w, mid, t) && Waits(mid, w', t)
    ensures Waits(w, w', t)
  {}

  lemma WaitsAtOnce(w: World, t: Token)
    requires HeldInv(w) && t in w.pending
    ensures Waits(w, w, t)
  {}

  /** A locked row waits for its writer, whatever other steps run before the
      claim writes. */
  lemma {:induction false} LockedRowWaits(w: World, acts: seq<Action>, t: Token)
    requires Inv(w) && Exclusive(w, acts) && t in w.pending
    requires forall a :: a in acts ==> !WritesOf(a, t)
    ensures Waits(w, Run(w, acts), t)
    decreases |acts|
  {
    hide Inv, Enabled, Collides, Apply, Waits;
    if acts == [] {
      HeldNow(w);
      WaitsAtOnce(w, t);
    } else {
      var mid := Apply(w, acts[0]);
      OneStepWaits(w, acts[0], t);
      WaitsPending(w, mid, t);
      StepKeepsInv(w, acts[0]);
      LockedRowWaits(mid, acts[1..], t);
      WaitsChains(w, mid, Run(w, acts), t);
    }
  }

  lemma WaitsPending(w: World, w': World, t: Token)
    requires t in w.pending && Waits(w, w', t)
    ensures t in w'.pending
  {}

  // ---- how often a job is claimed ----

  function Budget(r: JobRow): int {
    if r.maxAttempts > 5 then r.maxAttempts else 5
  }

  ghost predicate RowBounded(r: JobRow) {
    && r.attempt <= Budget(r)
    && (r.state == Queued || r.state == RetryWait ==> r.attempt < Budget(r))
  }

  ghost predicate Bounded(db: Db) {
    forall id :: id in db.jobs ==> RowBounded(db.jobs[id])
  }

  /** `finish` called with `retry_wait` by the lease's holder on its last
      attempt: the transition table lets it pass. */
  ghost predicate ParksOverBudget(w: World, a: Action) {
    a.DoFinish? && a.target == RetryWait && Holds(w.db, a.job, a.now) && a.job.attempt >= Budget(a.job)
  }

  lemma FinishParks(db: Db, job: JobRow, target: State, outputRef: Option<string>, error: Option<JobError>,
                    progress: Option<Progress>, now: Time, id: JobId)
    requires RowsFine(db) && id in db.jobs && db.jobs[id].state == Running
    requires id in Finish(db, job, target, outputRef, error, progress, now).0.jobs
    requires Finish(db, job, target, outputRef, error, progress, now).0.jobs[id].state == RetryWait
    ensures job.id == id && Holds(db, job, now) && target == RetryWait
  {
    hide RowOk, LacksGaps, Merged, Allowed;
  }

  lemma ParkParks(db: Db, job: JobRow, delay: real, error: JobError, now: Time, id: JobId)
    requires RowsFine(db) && id in db.jobs && db.jobs[id].state == Running
    requires id in Park(db, job, delay, error, now).0.jobs
    requires Park(db, job, delay, error, now).0.jobs[id].state == RetryWait
    ensures job.id == id && Holds(db, job, now)
    ensures Park(db, job, delay, error, now).0.jobs[id].availableAt == now + delay
  {
    hide RowOk;
  }

  /** `fail` sends a running row to retry_wait only by parking it, and it parks
      only a holder that has attempts left. */
  lemma FailParks(db: Db, job: JobRow, cls: ErrorClass, report: Report, retryAfter: Option<real>,
                  draw: real, now: Time, id: JobId)
    requires RowsFine(db) && id in db.jobs && db.jobs[id].state == Running
    requires id in Fail(db, job, cls, report, retryAfter, draw, now).0.jobs
    requires Fail(db, job, cls, report, retryAfter, draw, now).0.jobs[id].state == RetryWait
    ensures job.id == id && Holds(db, job, now) && job.attempt < 5
    ensures ClassifyFailure(cls, job.attempt, retryAfter, draw).Retry?
    ensures Fail(db, job, cls, report, retryAfter, draw, now).0.jobs[id].availableAt
         == now + ClassifyFailure(cls, job.attempt, retryAfter, draw).delay
  {
    RetryHasAttempts(cls, job.attempt, retryAfter, draw);
    hide Finish, Park, ClassifyFailure, Holds, RowsFine;
    var error := JobError(ErrorCode(cls), report, [], false, None);
    match ClassifyFailure(cls, job.attempt, retryAfter, draw)
    case Handler(_) =>
    case Cancel => FinishParks(db, job, Cancelled, None, Some(error), None, now, id);
    case GiveUp(audit) => FinishParks(db, job, Failed, None, Some(error.(audit := audit)), None, now, id);
    case Retry(delay) => ParkParks(db, job, delay, error, now, id);
  }

  lemma RetryHasAttempts(cls: ErrorClass, attempt: nat, retryAfter: Option<real>, draw: real)
    ensures ClassifyFailure(cls, attempt, retryAfter, draw).Retry? ==> attempt < 5
  {}

  lemma StepsDoNotPark(db: Db, job: JobRow, stepKey: string, inputHash: string, outputRef: Option<string>,
                       progress: Option<Progress>, now: Time, id: JobId)
    requires id in db.jobs && db.jobs[id].state == Running
    ensures id in StartStep(db, job, stepKey, inputHash, now).0.jobs
    ensures StartStep(db, job, stepKey, inputHash, now).0.jobs[id].state == Running
    ensures id in CompleteStep(db, job, stepKey, inputHash, outputRef, progress, now).0.jobs
    ensures CompleteStep(db, job, stepKey, inputHash, outputRef, progress, now).0.jobs[id].state == Running
  {}

  lemma UpkeepDoesNotPark(db: Db, token: Token, now: Time, id: JobId, other: JobId)
    requires id in db.jobs && db.jobs[id].state == Running
    ensures id in Heartbeat(db, other, token, now).jobs && Heartbeat(db, other, token, now).jobs[id].state == Running
    ensures id in RequestCancel(db, other, now).jobs && RequestCancel(db, other, now).jobs[id].state == Running
    ensures id in RequeueDue(db, now).jobs && RequeueDue(db, now).jobs[id].state == Running
  {}

  lemma ReapParks(r: JobRow, now: Time, draw: real)
    requires r.state == Running && ReapRow(r, now, draw).state == RetryWait
    ensures r.attempt < r.maxAttempts
    ensures ReapRow(r, now, draw).availableAt == ReapedTo(r, now, draw)
  {}

  function ReapedTo(r: JobRow, now: Time, draw: real): Time {
    now + MaxReal(JitteredBackoff(r.attempt, draw), BACKOFF_BASE)
  }

  /** The step parks this running row until `at`. */
  ghost predicate ParkedBy(w: World, a: Action, id: JobId, at: Time)
    requires id in w.db.jobs
  {
    match a
    case DoFinish(now, job, target, _, _, _) =>
      target == RetryWait && job.id == id && Holds(w.db, job, now) && at == w.db.jobs[id].availableAt
    case DoFail(now, job, cls, _, retryAfter, draw) =>
      job.id == id && Holds(w.db, job, now) && ClassifyFailure(cls, job.attempt, retryAfter, draw) == Retry(at - now)
    case DoReapExpired(now, draws) =>
      w.db.jobs[id].attempt < w.db.jobs[id].maxAttempts && at == ReapedTo(w.db.jobs[id], now, Draw(draws, id))
    case _ => false
  }

  /** The only ways from running to retry_wait. */
  lemma WhoParks(w: World, a: Action, id: JobId)
    requires RowsInv(w) && Enabled(w, a) && OnRows(a)
    requires id in w.db.jobs && w.db.jobs[id].state == Running
    requires id in DbAfter(w, a).jobs && DbAfter(w, a).jobs[id].state == RetryWait
    ensures ParkedBy(w, a, id, DbAfter(w, a).jobs[id].availableAt)
  {
    FineRows(w);
    hide RowsInv, RowsFine, Holds, Finish, Fail, StartStep, CompleteStep, Heartbeat, RequestCancel, RequeueDue;
    hide ClassifyFailure, ReapedTo, ReapRow, Enabled;
    match a
    case DoStartStep(now, job, stepKey, inputHash) => StepsDoNotPark(w.db, job, stepKey, inputHash, None, None, now, id);
    case DoCompleteStep(now, job, stepKey, inputHash, outputRef, progress) =>
      StepsDoNotPark(w.db, job, stepKey, inputHash, outputRef, progress, now, id);
    case DoFinish(now, job, target, outputRef, error, progress) =>
      FinishParks(w.db, job, target, outputRef, error, progress, now, id);
    case DoFail(now, job, cls, report, retryAfter, draw) =>
      FailParks(w.db, job, cls, report, retryAfter, draw, now, id);
    case DoReapExpired(now, draws) => ReapParks(w.db.jobs[id], now, Draw(draws, id));
    case DoHeartbeat(now, other, token) => UpkeepDoesNotPark(w.db, token, now, id, other);
    case DoRequestCancel(now, other) => UpkeepDoesNotPark(w.db, 0, now, id, other);
    case DoRequeueDue(now) => UpkeepDoesNotPark(w.db, 0, now, id, id);
  }

  /** The two calls of a holder that park its row do so. */
  lemma HolderParks(w: World, a: Action, at: Time)
    requires RowsInv(w) && Enabled(w, a) && (a.DoFinish? || a.DoFail?) && a.job.id in w.db.jobs && ParkedBy(w, a, a.job.id, at)
    ensures a.job.id in DbAfter(w, a).jobs
    ensures var row, row' := w.db.jobs[a.job.id], DbAfter(w, a).jobs[a.job.id];
      row'.state == RetryWait && row'.availableAt == at
      && row'.id == row.id && row'.attempt == row.attempt && row'.maxAttempts == row.maxAttempts
  {
    if a.DoFinish? {
      FineSnapshot(w, a.job);
      ParkedRow(w.db, a.job, a.outputRef, a.error, a.progress, a.now);
    } else {
      FailedRow(w.db, a.job, a.cls, a.report, a.retryAfter, a.draw, a.now, at);
    }
  }

  lemma FailedRow(db: Db, job: JobRow, cls: ErrorClass, report: Report, retryAfter: Option<real>,
                  draw: real, now: Time, at: Time)
    requires Holds(db, job, now) && ClassifyFailure(cls, job.attempt, retryAfter, draw) == Retry(at - now)
    ensures var db' := Fail(db, job, cls, report, retryAfter, draw, now).0;
      && job.id in db'.jobs && db'.jobs.Keys == db.jobs.Keys && db'.locks == db.locks
      && db'.jobs[job.id].state == RetryWait && db'.jobs[job.id].availableAt == at
      && db'.jobs[job.id].id == db.jobs[job.id].id
      && db'.jobs[job.id].attempt == db.jobs[job.id].attempt
      && db'.jobs[job.id].maxAttempts == db.jobs[job.id].maxAttempts
  {
    hide ClassifyFailure, Finish;
    var error := JobError(ErrorCode(cls), report, [], false, None);
    assert Fail(db, job, cls, report, retryAfter, draw, now) == Park(db, job, at - now, error, now);
    hide Fail;
  }

  // Rows of a bounded queue, action by action.

  lemma HoldersBudget(w: World, job: JobRow, now: Time)
    requires RowsInv(w) && TokensInv(w) && job in w.seen && Holds(w.db, job, now)
    ensures job.id in w.db.jobs && job.attempt == w.db.jobs[job.id].attempt && job.maxAttempts == w.db.jobs[job.id].maxAttempts
    ensures Budget(job) == Budget(w.db.jobs[job.id])
  {}

  lemma RowKeepsBound(r: JobRow, r': JobRow, now: Time)
    requires RowStep(r, r', now) && RowBounded(r)
    requires r.state == Running && r'.state == RetryWait ==> r.attempt < Budget(r)
    ensures RowBounded(r')
  {}

  lemma ParksInBudget(w: World, a: Action, id: JobId, at: Time)
    requires RowsInv(w) && TokensInv(w) && Enabled(w, a) && !ParksOverBudget(w, a)
    requires id in w.db.jobs && ParkedBy(w, a, id, at)
    ensures w.db.jobs[id].attempt < Budget(w.db.jobs[id])
  {
    hide RowsInv, TokensInv, Holds, ClassifyFailure, ReapedTo;
    if a.DoFinish? {
      HoldersBudget(w, a.job, a.now);
    } else if a.DoFail? {
      HoldersBudget(w, a.job, a.now);
      RetryHasAttempts(a.cls, a.job.attempt, a.retryAfter, a.draw);
    }
  }

  lemma RewriteKeepsBound(w: World, a: Action)
    requires RowsInv(w) && TokensInv(w) && Enabled(w, a) && OnRows(a) && Bounded(w.db) && !ParksOverBudget(w, a)
    ensures Bounded(DbAfter(w, a))
  {
    hide DbAfter, RowsInv, TokensInv, Enabled, ParksOverBudget, ParkedBy;
    StepRows(w, a);
    var db' := DbAfter(w, a);
    forall id | id in w.db.jobs ensures RowBounded(db'.jobs[id]) {
      assert RowStep(w.db.jobs[id], db'.jobs[id], a.now);
      if w.db.jobs[id].state == Running && db'.jobs[id].state == RetryWait {
        WhoParks(w, a, id);
        ParksInBudget(w, a, id, db'.jobs[id].availableAt);
      }
      RowKeepsBound(w.db.jobs[id], db'.jobs[id], a.now);
    }
  }

  lemma OneRowKeepsBound(db: Db, db': Db, id: JobId, row: JobRow)
    requires Bounded(db) && db'.jobs == db.jobs[id := row] && RowBounded(row)
    ensures Bounded(db')
  {}

  lemma EnqueueKeepsBound(w: World, a: Action)
    requires Inv(w) && Enabled(w, a) && Bounded(w.db) && a.DoEnqueue?
    ensures Bounded(DbAfter(w, a))
  {
    if (a.owner, a.kind, a.key) !in w.db.idem {
      var row := NewRow(a.freshId, a.owner, a.kind, a.key, a.maxAttempts, a.now);
      EnqueueEffect(w.db, row, a.maxAttempts, a.now);
      OneRowKeepsBound(w.db, DbAfter(w, a), a.freshId, row);
    }
  }

  lemma WriteKeepsBound(w: World, a: Action)
    requires HeldInv(w) && Enabled(w, a) && Bounded(w.db) && a.DoClaimWrite?
    ensures Bounded(DbAfter(w, a))
  {
    var p := w.pending[a.token];
    OneRowKeepsBound(w.db, DbAfter(w, a), p.id, Claimed(w.db.jobs[p.id], a.token, p.now));
  }

  lemma StepKeepsBound(w: World, a: Action)
    requires Inv(w) && Enabled(w, a) && Bounded(w.db) && !ParksOverBudget(w, a)
    ensures Bounded(DbAfter(w, a))
  {
    match a
    case DoEnqueue(_, _, _, _, _, _) => EnqueueKeepsBound(w, a);
    case DoClaimLock(_, _, _, _, _) =>
    case DoClaimWrite(_, _) => WriteKeepsBound(w, a);
    case _ => RewriteKeepsBound(w, a);
  }

  lemma OverBudgetParkBreaks(w: World, a: Action)
    requires Inv(w) && Enabled(w, a) && ParksOverBudget(w, a)
    ensures !Bounded(DbAfter(w, a))
  {
    HoldersBudget(w, a.job, a.now);
    assert a.job.state == Running;
    ParkedRow(w.db, a.job, a.outputRef, a.error, a.progress, a.now);
  }

  lemma ParkedRow(db: Db, job: JobRow, outputRef: Option<string>, error: Option<JobError>,
                  progress: Option<Progress>, now: Time)
    requires job.state == Running && Holds(db, job, now)
    ensures var db' := Finish(db, job, RetryWait, outputRef, error, progress, now).0;
      && db' == Put(db, job.id, db'.jobs[job.id])
      && db'.jobs[job.id].state == RetryWait
      && db'.jobs[job.id].id == db.jobs[job.id].id
      && db'.jobs[job.id].attempt == db.jobs[job.id].attempt
      && db'.jobs[job.id].maxAttempts == db.jobs[job.id].maxAttempts
      && db'.jobs[job.id].availableAt == db.jobs[job.id].availableAt
      && Finish(db, job, RetryWait, outputRef, error, progress, now).1 == Raised(KeyError)
  {}

  /** Exactly one call can break the attempt bound: `finish` asked to park a
      job in `retry_wait` on its last attempt. */
  lemma BoundBreaksExactlyWhen(w: World, a: Action)
    requires Inv(w) && Enabled(w, a) && Bounded(w.db)
    ensures Bounded(DbAfter(w, a)) <==> !ParksOverBudget(w, a)
  {
    if ParksOverBudget(w, a) { OverBudgetParkBreaks(w, a); } else { StepKeepsBound(w, a); }
  }

  // ---- counting wins over a run ----

  ghost predicate WinsNow(w: World, a: Action, id: JobId) {
    a.DoClaimWrite? && a.token in w.pending && w.pending[a.token].id == id
  }

  ghost function Wins(w: World, acts: seq<Action>, id: JobId): nat
    decreases |acts|
  {
    if acts == [] then 0
    else (if WinsNow(w, acts[0], id) then 1 else 0) + Wins(Apply(w, acts[0]), acts[1..], id)
  }

  ghost function AttemptOf(db: Db, id: JobId): nat {
    if id in db.jobs then db.jobs[id].attempt else 0
  }

  lemma RewriteKeepsAttempt(db: Db, db': Db, id: JobId, now: Time)
    requires RowsStep(db, db', now)
    ensures AttemptOf(db', id) == AttemptOf(db, id)
  {
    if id in db.jobs { assert RowStep(db.jobs[id], db'.jobs[id], now); }
  }

  lemma EnqueueAttempt(w: World, a: Action, id: JobId)
    requires w.db.events.Keys == w.db.jobs.Keys && Enabled(w, a) && a.DoEnqueue?
    ensures AttemptOf(DbAfter(w, a), id) == AttemptOf(w.db, id)
  {
    if (a.owner, a.kind, a.key) !in w.db.idem {
      EnqueueEffect(w.db, NewRow(a.freshId, a.owner, a.kind, a.key, a.maxAttempts, a.now), a.maxAttempts, a.now);
    }
  }

  lemma AttemptStep(w: World, a: Action, id: JobId)
    requires Core(w) && Enabled(w, a)
    ensures AttemptOf(DbAfter(w, a), id) == AttemptOf(w.db, id) + if WinsNow(w, a, id) then 1 else 0
  {
    match a
    case DoEnqueue(_, _, _, _, _, _) => EnqueueAttempt(w, a, id);
    case DoClaimLock(_, _, _, _, _) =>
    case DoClaimWrite(_, _) => WriteAttempt(w, a, id);
    case _ =>
      StepRows(w, a);
      RewriteKeepsAttempt(w.db, DbAfter(w, a), id, a.now);
  }

  lemma WriteAttempt(w: World, a: Action, id: JobId)
    requires PendingInv(w) && Enabled(w, a) && a.DoClaimWrite?
    ensures AttemptOf(DbAfter(w, a), id) == AttemptOf(w.db, id) + if WinsNow(w, a, id) then 1 else 0
  {}

  /** A job's attempt counts exactly the claims that won it, colliding ones
      included. */
  lemma {:induction false} AttemptCountsWins(w: World, acts: seq<Action>, id: JobId)
    requires Core(w) && Feasible(w, acts)
    ensures AttemptOf(Run(w, acts).db, id) == AttemptOf(w.db, id) + Wins(w, acts, id)
    decreases |acts|
  {
    hide Core, Enabled, DbAfter, AttemptOf, WinsNow;
    if acts != [] {
      AttemptStep(w, acts[0], id);
      StepKeepsCore(w, acts[0]);
      AttemptCountsWins(Apply(w, acts[0]), acts[1..], id);
    }
  }

  ghost predicate Disciplined(w: World, acts: seq<Action>)
    decreases |acts|
  {
    acts == [] || (!ParksOverBudget(w, acts[0]) && Disciplined(Apply(w, acts[0]), acts[1..]))
  }

  lemma {:induction false} RunKeepsBound(w: World, acts: seq<Action>)
    requires Inv(w) && Exclusive(w, acts) && Bounded(w.db) && Disciplined(w, acts)
    ensures Bounded(Run(w, acts).db)
    decreases |acts|
  {
    hide Inv, Enabled, Collides, DbAfter, Bounded, ParksOverBudget;
    if acts != [] {
      StepKeepsBound(w, acts[0]);
      StepKeepsInv(w, acts[0]);
      RunKeepsBound(Apply(w, acts[0]), acts[1..]);
    }
  }

  /** In a run without such a call and without collisions no job is ever claimed more than
      max(5, max_attempts) times, and a waiting job has a claim left. */
  lemma ClaimsAreBounded(w: World, acts: seq<Action>, id: JobId)
    requires Initial(w) && Exclusive(w, acts) && Disciplined(w, acts)
    requires id in Run(w, acts).db.jobs
    ensures var row := Run(w, acts).db.jobs[id];
      && Wins(w, acts, id) == row.attempt <= Budget(row)
      && (row.state == Queued || row.state == RetryWait ==> Wins(w, acts, id) < Budget(row))
  {
    InitialInv(w);
    ExclusiveIsFeasible(w, acts);
    hide Core, ClaimsInv, LogsInv, Exclusive, Feasible, Run, Wins;
    RunKeepsBound(w, acts);
    AttemptCountsWins(w, acts, id);
  }

  // ---- and without that discipline there is no bound ----

  /** One job, nobody at work on it. */
  ghost predicate Idle(w: World, state: State) {
    && w.pending == map[] && w.db.locks == map[] && w.db.jobs.Keys == {0}
    && w.db.jobs[0].state == state && w.db.jobs[0].availableAt <= w.clock
  }

  /** Job 0 has been claimed as often as before, under the same limit. */
  ghost predicate SameCount(w: World, w': World) {
    && 0 in w.db.jobs && 0 in w'.db.jobs
    && w'.db.jobs[0].attempt == w.db.jobs[0].attempt && w'.db.jobs[0].maxAttempts == w.db.jobs[0].maxAttempts
  }

  lemma CycleLock(w: World, token: Token) returns (a: Action)
    requires RowsInv(w) && Idle(w, Queued) && token !in w.issued
    ensures a == DoClaimLock(w.clock, 0, {}, token, Some(0))
    ensures Enabled(w, a) && !Collides(w, a) && !WinsNow(w, a, 0)
    ensures var w' := Apply(w, a);
      && w'.pending == map[token := Pending(0, 0, w'.clock)] && w'.db.locks == map[0 := 0]
      && w'.db.jobs == w.db.jobs && w'.db.jobs[0].availableAt <= w'.clock
  {
    a := DoClaimLock(w.clock, 0, {}, token, Some(0));
  }

  lemma CycleWrite(w: World, token: Token) returns (a: Action)
    requires RowsInv(w) && w.pending == map[token := Pending(0, 0, w.clock)]
    requires w.db.jobs.Keys == {0} && w.db.locks == map[0 := 0] && w.db.jobs[0].availableAt <= w.clock
    ensures !a.DoFinish? && Enabled(w, a) && !Collides(w, a) && WinsNow(w, a, 0)
    ensures var w' := Apply(w, a);
      && Idle(w', Running) && w'.db.jobs[0].leaseUntil == Some(w'.clock + LEASE_SECONDS)
      && w'.db.jobs[0].attempt == w.db.jobs[0].attempt + 1 && w'.db.jobs[0].maxAttempts == w.db.jobs[0].maxAttempts
  {
    a := DoClaimWrite(w.clock, token);
    assert Apply(w, a).db.jobs[0] in Apply(w, a).db.jobs.Values;
  }

  lemma CyclePark(w: World) returns (a: Action)
    requires RowsInv(w) && Idle(w, Running)
    requires w.db.jobs[0].leaseUntil == Some(w.clock + LEASE_SECONDS)
    ensures Enabled(w, a) && !Collides(w, a) && !WinsNow(w, a, 0)
    ensures Idle(Apply(w, a), RetryWait) && Apply(w, a).clock == w.clock
  {
    a := DoFinish(w.clock, w.db.jobs[0], RetryWait, None, None, None);
    ParkedRow(w.db, w.db.jobs[0], None, None, None, w.clock);
  }

  lemma CycleRequeue(w: World) returns (a: Action)
    requires Idle(w, RetryWait)
    ensures !a.DoFinish? && Enabled(w, a) && !Collides(w, a) && !WinsNow(w, a, 0)
    ensures Idle(Apply(w, a), Queued) && SameCount(w, Apply(w, a))
  {
    a := DoRequeueDue(w.clock);
    assert Apply(w, a).db.jobs[0] == RequeueRow(w.db.jobs[0], w.clock);
  }

  lemma {:induction false} RunAppend(w: World, acts: seq<Action>, more: seq<Action>, id: JobId)
    ensures Run(w, acts + more) == Run(Run(w, acts), more)
    ensures Exclusive(w, acts + more) <==> Exclusive(w, acts) && Exclusive(Run(w, acts), more)
    ensures Wins(w, acts + more, id) == Wins(w, acts, id) + Wins(Run(w, acts), more, id)
    decreases |acts|
  {
    hide Enabled, Collides, Apply, WinsNow;
    if acts == [] {
      assert acts + more == more;
    } else {
      assert (acts + more)[1..] == acts[1..] + more;
      RunAppend(Apply(w, acts[0]), acts[1..], more, id);
    }
  }

  /** `acts` is a run without collisions from `w` to `w'` in which job 0 is won
      `n` times. */
  ghost predicate Leads(w: World, acts: seq<Action>, w': World, n: nat) {
    Exclusive(w, acts) && Run(w, acts) == w' && Wins(w, acts, 0) == n
  }

  lemma OneLeads(w: World, a: Action, n: nat)
    requires Enabled(w, a) && !Collides(w, a) && n == (if WinsNow(w, a, 0) then 1 else 0)
    ensures Leads(w, [a], Apply(w, a), n)
  {
    assert [a][1..] == [];
    assert Run(Apply(w, a), []) == Apply(w, a);
    assert Wins(Apply(w, a), [], 0) == 0;
  }

  lemma LeadsChain(w: World, acts: seq<Action>, mid: World, m: nat, more: seq<Action>, w': World, n: nat)
    requires Leads(w, acts, mid, m) && Leads(mid, more, w', n)
    ensures Leads(w, acts + more, w', m + n)
  {
    RunAppend(w, acts, more, 0);
  }

  lemma TwoLead(w: World, a1: Action, a2: Action, n: nat)
    requires Inv(w) && Enabled(w, a1) && !Collides(w, a1) && !WinsNow(w, a1, 0)
    requires Enabled(Apply(w, a1), a2) && !Collides(Apply(w, a1), a2) && n == (if WinsNow(Apply(w, a1), a2, 0) then 1 else 0)
    ensures Leads(w, [a1] + [a2], Apply(Apply(w, a1), a2), n)
    ensures Inv(Apply(Apply(w, a1), a2))
  {
    hide Inv, Enabled, Collides, Apply, Leads, WinsNow;
    StepKeepsInv(w, a1);
    StepKeepsInv(Apply(w, a1), a2);
    OneLeads(w, a1, 0);
    OneLeads(Apply(w, a1), a2, n);
    LeadsChain(w, [a1], Apply(w, a1), 0, [a2], Apply(Apply(w, a1), a2), n);
  }

  lemma InvRows(w: World)
    requires Inv(w)
    ensures RowsInv(w)
  {}

  lemma ClaimOnce(w: World, token: Token) returns (acts: seq<Action>, w': World)
    requires Inv(w) && Idle(w, Queued) && token !in w.issued
    ensures Leads(w, acts, w', 1) && Inv(w') && Idle(w', Running)
    ensures w'.db.jobs[0].leaseUntil == Some(w'.clock + LEASE_SECONDS)
    ensures 0 in w.db.jobs
    ensures w'.db.jobs[0].attempt == w.db.jobs[0].attempt + 1 && w'.db.jobs[0].maxAttempts == w.db.jobs[0].maxAttempts
    ensures forall a :: a in acts ==> !a.DoFinish?
  {
    hide Inv;
    InvRows(w);
    var a1 := CycleLock(w, token);
    var w1 := Apply(w, a1);
    StepKeepsInv(w, a1);
    InvRows(w1);
    var a2 := CycleWrite(w1, token);
    TwoLead(w, a1, a2, 1);
    acts, w' := [a1] + [a2], Apply(w1, a2);
  }

  lemma ReturnOnce(w: World) returns (acts: seq<Action>, w': World)
    requires Inv(w) && Idle(w, Running)
    requires w.db.jobs[0].leaseUntil == Some(w.clock + LEASE_SECONDS)
    ensures Leads(w, acts, w', 0) && Inv(w') && Idle(w', Queued)
  {
    var a1 := CyclePark(w);
    var a2 := CycleRequeue(Apply(w, a1));
    TwoLead(w, a1, a2, 0);
    acts, w' := [a1] + [a2], Apply(Apply(w, a1), a2);
  }

  /** Lock, write, park with `finish`, requeue: the job is where it was, with
      one more win. */
  lemma CycleOnce(w: World) returns (acts: seq<Action>, w': World)
    requires Inv(w) && Idle(w, Queued)
    ensures Leads(w, acts, w', 1) && Inv(w') && Idle(w', Queued)
  {
    hide Inv;
    var token := FreshToken(w.issued);
    var go, w1 := ClaimOnce(w, token);
    var back, w2 := ReturnOnce(w1);
    LeadsChain(w, go, w1, 1, back, w2, 0);
    acts, w' := go + back, w2;
  }

  lemma FreshToken(issued: set<Token>) returns (token: Token)
    ensures token !in issued
  {
    if issued == {} { token := 0; } else { token := MaxOf(issued) + 1; }
  }

  ghost function MaxOf(s: set<Token>): (m: Token)
    requires s != {}
    ensures forall t :: t in s ==> t <= m
  {
    var t :| t in s;
    if s == {t} then t
    else
      assert s - {t} != {};
      var m := MaxOf(s - {t});
      assert forall u :: u in s ==> u == t || u in s - {t};
      if t > m then t else m
  }

  /** Were `finish` used to park jobs, a job could be claimed any number of
      times: from any world with one idle job, for every n there is a run that
      claims it n times. */
  lemma {:induction false} ParkingByFinishIsUnbounded(w: World, n: nat) returns (acts: seq<Action>, w': World)
    requires Inv(w) && Idle(w, Queued)
    ensures Leads(w, acts, w', n)
    decreases n
  {
    hide Inv;
    if n == 0 {
      acts, w' := [], w;
    } else {
      var once, mid := CycleOnce(w);
      var rest, end := ParkingByFinishIsUnbounded(mid, n - 1);
      LeadsChain(w, once, mid, 1, rest, end, n - 1);
      acts, w' := once + rest, end;
    }
  }

  /** One enqueue makes such a world of the empty queue. */
  lemma EnqueueIsIdle(w: World) returns (a: Action)
    requires Initial(w)
    ensures a.DoEnqueue? && Enabled(w, a) && !Collides(w, a) && !WinsNow(w, a, 0) && Idle(Apply(w, a), Queued)
  {
    a := DoEnqueue(w.clock, 0, "fetch", "", None, 0);
    var row := NewRow(0, 0, "fetch", "", None, w.clock);
    assert InsertJob(w.db, row).jobs == map[0 := row];
  }

  /** So from the empty queue, for every n, there is a run that claims one job n
      times. */
  lemma UnboundedFromTheStart(w: World, n: nat) returns (acts: seq<Action>, w': World)
    requires Initial(w)
    ensures Leads(w, acts, w', n)
  {
    hide Inv, Enabled, Collides, Apply, Idle, WinsNow, Leads;
    var a := EnqueueIsIdle(w);
    InitialInv(w);
    StepKeepsInv(w, a);
    OneLeads(w, a, 0);
    var more, end := ParkingByFinishIsUnbounded(Apply(w, a), n);
    LeadsChain(w, [a], Apply(w, a), 0, more, end, n);
    acts, w' := [a] + more, end;
  }
}
