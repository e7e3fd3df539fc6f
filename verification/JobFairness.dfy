/** Bounded bypass: how many claims can pass over a due job. */
module JobFairness {
  import opened Options
  import opened JobRecords
  import opened JobSpec
  import opened JobRuns
  import opened JobSafety
  import opened JobAttempts

  predicate Waiting(r: JobRow) {
    r.state == Queued || r.state == RetryWait
  }

  /** The waiting rows the scan orders before `j`. */
  ghost function Ahead(db: Db, j: JobId): set<JobId>
    requires j in db.jobs
  {
    set id | id in db.jobs && Waiting(db.jobs[id]) && Before(db.jobs[id], db.jobs[j])
  }

  /** Those of them no claim in flight has locked. */
  ghost function FreeAhead(db: Db, j: JobId): set<JobId>
    requires j in db.jobs
  {
    set id | id in Ahead(db, j) && id !in db.locks
  }

  /** A row parked until `at` stands before `j` in the claim order. */
  predicate ParksBefore(db: Db, id: JobId, at: Time, j: JobId)
    requires id in db.jobs && j in db.jobs
  {
    Before(db.jobs[id].(availableAt := at), db.jobs[j])
  }

  /** A lease's holder parks its job before `j`: by `finish`, which keeps the old
      position, or by a failure whose delay reaches back far enough. */
  ghost predicate Overtakes(w: World, a: Action, j: JobId)
    requires j in w.db.jobs
  {
    match a
    case DoFinish(now, job, target, _, _, _) =>
      target == RetryWait && Holds(w.db, job, now) && ParksBefore(w.db, job.id, w.db.jobs[job.id].availableAt, j)
    case DoFail(now, job, cls, _, retryAfter, draw) =>
      Holds(w.db, job, now) &&
      (match ClassifyFailure(cls, job.attempt, retryAfter, draw)
       case Retry(delay) => ParksBefore(w.db, job.id, now + delay, j)
       case _ => false)
    case _ => false
  }

  /** `j` is queued, free, and has been due for some time. */
  ghost predicate Overdue(w: World, j: JobId) {
    && j in w.db.jobs && w.db.jobs[j].state == Queued && j !in w.db.locks
    && w.db.jobs[j].availableAt < w.clock
  }

  // ---- a row that starts waiting goes to the back ----

  lemma ReapedLater(r: JobRow, now: Time, draw: real)
    requires 0.0 <= draw < 1.0
    ensures ReapedTo(r, now, draw) >= now
  {
    BackoffBounds(r.attempt, r.attempt, draw);
  }

  /** A row that a step parks without overtaking goes behind `j`. */
  lemma ParksBehind(w: World, a: Action, id: JobId, at: Time, j: JobId)
    requires Enabled(w, a) && Overdue(w, j) && id in w.db.jobs && ParkedBy(w, a, id, at) && !Overtakes(w, a, j)
    ensures !ParksBefore(w.db, id, at, j)
  {
    hide ClassifyFailure, ReapedTo, Holds;
    if a.DoReapExpired? { ReapedLater(w.db.jobs[id], a.now, Draw(a.draws, id)); }
  }

  /** A row waiting ahead of `j` after the step was waiting ahead of it before. */
  ghost predicate NoOvertaking(db: Db, db': Db, j: JobId)
    requires j in db.jobs
  {
    j in db'.jobs && Ahead(db', j) <= Ahead(db, j)
  }

  lemma RowsDoNotOvertake(db: Db, db': Db, now: Time, j: JobId)
    requires RowsFine(db) && RowsStep(db, db', now)
    requires j in db.jobs && db.jobs[j].state == Queued
    requires forall id :: id in db.jobs && db.jobs[id].state == Running && db'.jobs[id].state == RetryWait ==>
      !ParksBefore(db, id, db'.jobs[id].availableAt, j)
    ensures NoOvertaking(db, db', j)
  {
    assert RowStep(db.jobs[j], db'.jobs[j], now);
    forall id | id in Ahead(db', j) ensures id in Ahead(db, j) {
      assert RowStep(db.jobs[id], db'.jobs[id], now);
    }
  }

  lemma RewriteDoesNotOvertake(w: World, a: Action, j: JobId)
    requires RowsInv(w) && Enabled(w, a) && OnRows(a) && Overdue(w, j) && !Overtakes(w, a, j)
    ensures NoOvertaking(w.db, DbAfter(w, a), j)
  {
    hide DbAfter, Enabled, Overtakes, ParkedBy, ParksBefore, NoOvertaking, RowStep;
    FineRows(w);
    StepRows(w, a);
    hide RowsInv;
    var db' := DbAfter(w, a);
    forall id | id in w.db.jobs && w.db.jobs[id].state == Running && db'.jobs[id].state == RetryWait
      ensures !ParksBefore(w.db, id, db'.jobs[id].availableAt, j)
    {
      WhoParks(w, a, id);
      ParksBehind(w, a, id, db'.jobs[id].availableAt, j);
    }
    RowsDoNotOvertake(w.db, db', a.now, j);
  }

  lemma OvertakerIsAhead(w: World, a: Action, j: JobId)
    requires RowsInv(w) && Enabled(w, a) && Overdue(w, j) && Overtakes(w, a, j)
    ensures !NoOvertaking(w.db, DbAfter(w, a), j)
  {
    var id := a.job.id;
    HolderRuns(w, a);
    assert a.DoFinish? || a.DoFail?;
    var at := if a.DoFinish? then w.db.jobs[id].availableAt
              else a.now + ClassifyFailure(a.cls, a.job.attempt, a.retryAfter, a.draw).delay;
    hide RowsInv, DbAfter, ClassifyFailure, Holds;
    assert ParkedBy(w, a, id, at);
    HolderParks(w, a, at);
    QueuedStays(w, a, j);
    assert id in Ahead(DbAfter(w, a), j);
  }

  lemma HolderRuns(w: World, a: Action)
    requires RowsInv(w) && (a.DoFinish? || a.DoFail?) && Holds(w.db, a.job, a.now)
    ensures a.job.id in w.db.jobs && w.db.jobs[a.job.id].state == Running
  {}

  lemma QueuedStays(w: World, a: Action, j: JobId)
    requires RowsInv(w) && Enabled(w, a) && OnRows(a) && j in w.db.jobs && w.db.jobs[j].state == Queued
    ensures j in DbAfter(w, a).jobs
    ensures DbAfter(w, a).jobs[j] == w.db.jobs[j].(cancelRequestedAt := DbAfter(w, a).jobs[j].cancelRequestedAt)
  {
    hide DbAfter, Enabled;
    StepRows(w, a);
    assert RowStep(w.db.jobs[j], DbAfter(w, a).jobs[j], a.now);
  }

  lemma EnqueueDoesNotOvertake(w: World, a: Action, j: JobId)
    requires Core(w) && Enabled(w, a) && a.DoEnqueue? && Overdue(w, j)
    ensures NoOvertaking(w.db, DbAfter(w, a), j)
    ensures DbAfter(w, a).locks == w.db.locks
  {
    hide DbAfter, RowsInv, TokensInv, PendingInv, KeysInv, EventsInv, NoOvertaking, AddsRow, NewRow;
    if (a.owner, a.kind, a.key) in w.db.idem {
      EnqueueRepeats(w, a);
      SameAhead(w.db, DbAfter(w, a), j);
    } else {
      var row := EnqueueAdds(w, a);
      NewIsLast(row, a);
      AddedIsBehind(w, Apply(w, a), row, a.now, j);
    }
  }

  lemma NewIsLast(row: JobRow, a: Action)
    requires a.DoEnqueue? && row == NewRow(a.freshId, a.owner, a.kind, a.key, a.maxAttempts, a.now)
    ensures row.availableAt == a.now
  {}

  lemma SameAhead(db: Db, db': Db, j: JobId)
    requires j in db.jobs && db' == db
    ensures NoOvertaking(db, db', j)
  {}

  lemma AddedIsBehind(w: World, w': World, row: JobRow, now: Time, j: JobId)
    requires AddsRow(w, w', row, now) && Overdue(w, j) && row.availableAt == now >= w.clock
    ensures NoOvertaking(w.db, w'.db, j) && w'.db.locks == w.db.locks
  {}

  lemma LockDoesNotOvertake(w: World, a: Action, j: JobId)
    requires Enabled(w, a) && a.DoClaimLock? && j in w.db.jobs
    ensures NoOvertaking(w.db, DbAfter(w, a), j)
  {}

  lemma WriteDoesNotOvertake(w: World, a: Action, j: JobId)
    requires HeldInv(w) && Enabled(w, a) && a.DoClaimWrite? && Overdue(w, j)
    ensures var p := w.pending[a.token].id;
      NoOvertaking(w.db, DbAfter(w, a), j) && p != j && p !in Ahead(DbAfter(w, a), j)
  {}

  /** A step puts a row before a due job if and only if it is such a call, whatever
      is enqueued, requeued, failed or reaped. */
  lemma OvertakesExactlyWhen(w: World, a: Action, j: JobId)
    requires Inv(w) && Enabled(w, a) && Overdue(w, j)
    ensures NoOvertaking(w.db, DbAfter(w, a), j) <==> !Overtakes(w, a, j)
  {
    hide RowsInv, TokensInv, PendingInv, KeysInv, EventsInv, HeldInv, LocksInv, LogsInv, DbAfter, NoOvertaking, Enabled;
    match a
    case DoEnqueue(_, _, _, _, _, _) => EnqueueDoesNotOvertake(w, a, j);
    case DoClaimLock(_, _, _, _, _) => LockDoesNotOvertake(w, a, j);
    case DoClaimWrite(_, _) => WriteDoesNotOvertake(w, a, j);
    case _ =>
      hide Overtakes;
      if Overtakes(w, a, j) { OvertakerIsAhead(w, a, j); } else { RewriteDoesNotOvertake(w, a, j); }
  }

  /** Retry delays that are not negative, and leaving `retry_wait` to `fail` and the
      reaper, keep everyone from overtaking. */
  lemma OrderlyNeverOvertakes(w: World, a: Action, j: JobId)
    requires Enabled(w, a) && Overdue(w, j)
    requires a.DoFail? && a.retryAfter.Some? ==> a.retryAfter.value >= 0.0
    requires a.DoFinish? ==> a.target != RetryWait
    ensures !Overtakes(w, a, j)
  {
    if a.DoFail? {
      BackoffBounds(a.job.attempt, a.job.attempt, a.draw);
      hide JitteredBackoff, Holds;
    }
  }

  // ---- claims that pass over a due job ----

  /** A claim that admits `j`'s kind starts here. */
  ghost predicate Matching(w: World, a: Action, j: JobId)
    requires j in w.db.jobs
  {
    a.DoClaimLock? && Admits(a.kinds, w.db.jobs[j].kind)
  }

  ghost predicate Picks(a: Action, j: JobId) {
    a.DoClaimLock? && a.pick == Some(j)
  }

  /** Such a claim either picks `j` or takes a free row ordered before it. */
  lemma ClaimTakesOrShrinks(w: World, a: Action, j: JobId)
    requires ClaimsInv(w) && Enabled(w, a) && !Collides(w, a) && Overdue(w, j) && Matching(w, a, j)
    ensures a.pick.Some?
    ensures a.pick.value == j || (a.pick.value in FreeAhead(w.db, j) && a.pick.value !in FreeAhead(DbAfter(w, a), j))
  {
    assert Claimable(w.db, a.session, a.now, a.kinds, j);
    CollidesOnLock(w, a);
    hide ClaimsInv, Collides;
  }

  lemma LocksGrowOrWrite(w: World, a: Action)
    requires Core(w) && Enabled(w, a) && !a.DoClaimWrite?
    ensures w.db.locks.Keys <= DbAfter(w, a).locks.Keys
    ensures forall id :: id in DbAfter(w, a).locks && id !in w.db.locks ==> Picks(a, id)
  {
    hide RowsInv, TokensInv, PendingInv, KeysInv, EventsInv, RowStep;
    hide StartStep, CompleteStep, Finish, Fail, Heartbeat, RequestCancel, RequeueDue, ReapExpired;
    match a
    case DoEnqueue(_, _, _, _, _, _) =>
    case DoClaimLock(_, _, _, _, _) =>
    case _ => StepRows(w, a);
  }

  lemma InvHeld(w: World)
    requires Inv(w)
    ensures Core(w) && HeldInv(w) && ClaimsInv(w)
  {}

  lemma FreeAheadShrinks(w: World, a: Action, j: JobId)
    requires Inv(w) && Enabled(w, a) && Overdue(w, j) && !Overtakes(w, a, j)
    ensures j in DbAfter(w, a).jobs && FreeAhead(DbAfter(w, a), j) <= FreeAhead(w.db, j)
  {
    hide DbAfter, Inv, Core, HeldInv, ClaimsInv, Enabled, Overtakes;
    InvHeld(w);
    OvertakesExactlyWhen(w, a, j);
    if a.DoClaimWrite? { WriteIsFree(w, a, j); } else { LocksGrowOrWrite(w, a); }
  }

  lemma WriteIsFree(w: World, a: Action, j: JobId)
    requires HeldInv(w) && Enabled(w, a) && a.DoClaimWrite? && Overdue(w, j)
    ensures j in DbAfter(w, a).jobs && FreeAhead(DbAfter(w, a), j) <= FreeAhead(w.db, j)
  {
    WriteDoesNotOvertake(w, a, j);
  }

  lemma NextKeepsDue(w: World, w': World, j: JobId)
    requires HeldInv(w) && Next(w, w') && Overdue(w, j)
    ensures j in w'.db.jobs && w'.db.jobs[j].state == Queued && w'.db.jobs[j].availableAt < w'.clock
    ensures w'.db.jobs[j].kind == w.db.jobs[j].kind && w'.db.jobs[j].availableAt == w.db.jobs[j].availableAt
  {
    hide LogsGrow;
    forall t ensures !ClaimedBy(w, t, j, w'.db.jobs[j]) {}
    assert RowStep(w.db.jobs[j], w'.db.jobs[j], w'.clock);
  }

  lemma LockNotTaken(w: World, a: Action, j: JobId)
    requires Core(w) && HeldInv(w) && Enabled(w, a) && Overdue(w, j) && !Picks(a, j)
    ensures j !in DbAfter(w, a).locks
  {
    hide Core, HeldInv;
    if !a.DoClaimWrite? {
      hide DbAfter;
      LocksGrowOrWrite(w, a);
    }
  }

  lemma DueStays(w: World, a: Action, j: JobId)
    requires Inv(w) && Enabled(w, a) && Overdue(w, j) && !Picks(a, j)
    ensures Overdue(Apply(w, a), j) && Apply(w, a).db.jobs[j].kind == w.db.jobs[j].kind
  {
    hide Inv, Core, HeldInv, Enabled, Next, DbAfter, ClaimsInv;
    InvHeld(w);
    StepIsNext(w, a);
    NextKeepsDue(w, Apply(w, a), j);
    LockNotTaken(w, a, j);
  }

  /** The claims of a run that admit `j`'s kind. */
  ghost function Passes(w: World, acts: seq<Action>, kind: string): nat
    decreases |acts|
  {
    if acts == [] then 0
    else (if acts[0].DoClaimLock? && Admits(acts[0].kinds, kind) then 1 else 0)
         + Passes(Apply(w, acts[0]), acts[1..], kind)
  }

  lemma ProperSubset(a: set<JobId>, b: set<JobId>, x: JobId)
    requires a <= b && x in b && x !in a
    ensures |a| < |b|
  {
    assert a <= b - {x};
    SubsetSize(a, b - {x});
  }

  lemma SubsetSize(a: set<JobId>, b: set<JobId>)
    requires a <= b
    ensures |a| <= |b|
  {
    if a != {} {
      var x :| x in a;
      SubsetSize(a - {x}, b - {x});
    }
  }

  lemma PassStep(w: World, a: Action, j: JobId)
    requires Inv(w) && Enabled(w, a) && !Collides(w, a) && Overdue(w, j) && !Overtakes(w, a, j) && !Picks(a, j)
    ensures j in Apply(w, a).db.jobs
    ensures |FreeAhead(Apply(w, a).db, j)| + (if Matching(w, a, j) then 1 else 0) <= |FreeAhead(w.db, j)|
  {
    hide DbAfter, Inv, Core, HeldInv, ClaimsInv, Enabled, Collides, Overtakes, FreeAhead;
    InvHeld(w);
    FreeAheadShrinks(w, a, j);
    if Matching(w, a, j) {
      ClaimTakesOrShrinks(w, a, j);
      ProperSubset(FreeAhead(DbAfter(w, a), j), FreeAhead(w.db, j), a.pick.value);
    } else {
      SubsetSize(FreeAhead(DbAfter(w, a), j), FreeAhead(w.db, j));
    }
  }

  /** The run never picks `j` and never overtakes it. */
  ghost predicate Bypasses(w: World, acts: seq<Action>, j: JobId)
    decreases |acts|
  {
    acts == [] || (j in w.db.jobs && !Overtakes(w, acts[0], j) && !Picks(acts[0], j) && Bypasses(Apply(w, acts[0]), acts[1..], j))
  }

  /** Bounded bypass: while `j` waits unpicked and nobody overtakes it, the claims
      that could have taken it number at most the free rows ordered before it at
      the start. */
  lemma {:induction false} BoundedBypass(w: World, acts: seq<Action>, j: JobId)
    requires Inv(w) && Exclusive(w, acts) && Overdue(w, j) && Bypasses(w, acts, j)
    ensures j in Run(w, acts).db.jobs
    ensures Passes(w, acts, w.db.jobs[j].kind) + |FreeAhead(Run(w, acts).db, j)| <= |FreeAhead(w.db, j)|
    decreases |acts|
  {
    hide Inv, Apply, Enabled, Collides, Overtakes, FreeAhead;
    if acts != [] {
      PassStep(w, acts[0], j);
      DueStays(w, acts[0], j);
      StepKeepsInv(w, acts[0]);
      BoundedBypass(Apply(w, acts[0]), acts[1..], j);
    }
  }

  /** Nobody overtakes `j` for as long as the run lets it wait. */
  ghost predicate Respects(w: World, acts: seq<Action>, j: JobId)
    decreases |acts|
  {
    acts == [] || j !in w.db.jobs || Picks(acts[0], j)
    || (!Overtakes(w, acts[0], j) && Respects(Apply(w, acts[0]), acts[1..], j))
  }

  lemma {:induction false} RespectsBypasses(w: World, acts: seq<Action>, j: JobId)
    requires Inv(w) && Exclusive(w, acts) && Overdue(w, j)
    requires Respects(w, acts, j) && forall a :: a in acts ==> !Picks(a, j)
    ensures Bypasses(w, acts, j)
    decreases |acts|
  {
    hide Inv, Apply, Enabled, Collides, Overtakes;
    if acts != [] {
      DueStays(w, acts[0], j);
      StepKeepsInv(w, acts[0]);
      RespectsBypasses(Apply(w, acts[0]), acts[1..], j);
    }
  }

  /** So a due job is picked by the time one more matching claim has started. */
  lemma EventuallyPicked(w: World, acts: seq<Action>, j: JobId)
    requires Inv(w) && Exclusive(w, acts) && Overdue(w, j) && Respects(w, acts, j)
    requires Passes(w, acts, w.db.jobs[j].kind) > |FreeAhead(w.db, j)|
    ensures exists a :: a in acts && Picks(a, j)
  {
    hide Inv, Exclusive, Respects, Run, Passes, FreeAhead;
    if forall a :: a in acts ==> !Picks(a, j) {
      RespectsBypasses(w, acts, j);
      BoundedBypass(w, acts, j);
    }
  }
}
