/** Idempotence over runs: one job per key, and a committed step stays
    committed until somebody starts it again. */
module JobSteps {
  import opened Options
  import opened JobRecords
  import opened JobSpec
  import opened JobRuns
  import opened JobSafety

  // ---- enqueue ----

  lemma KeyStep(w: World, a: Action, k: IdemKey)
    requires RowsInv(w) && Enabled(w, a) && k in w.db.idem
    ensures k in DbAfter(w, a).idem && DbAfter(w, a).idem[k] == w.db.idem[k]
  {
    match a
    case DoEnqueue(_, owner, kind, key, _, _) =>
    case DoClaimLock(_, _, _, _, _) =>
    case DoClaimWrite(_, _) =>
    case _ =>
      hide DbAfter;
      StepRows(w, a);
  }

  lemma CoreRows(w: World)
    requires Core(w)
    ensures RowsInv(w)
  {}

  lemma {:induction false} KeyForever(w: World, acts: seq<Action>, k: IdemKey)
    requires Core(w) && Feasible(w, acts) && k in w.db.idem
    ensures k in Run(w, acts).db.idem && Run(w, acts).db.idem[k] == w.db.idem[k]
    decreases |acts|
  {
    if acts != [] {
      hide DbAfter, Core, Enabled;
      CoreRows(w);
      KeyStep(w, acts[0], k);
      StepKeepsCore(w, acts[0]);
      KeyForever(Apply(w, acts[0]), acts[1..], k);
    }
  }

  /** Replaying an enqueue at any later point of any run returns the job the
      first one made, whatever state it is in, and changes nothing. */
  lemma EnqueueOnce(w: World, acts: seq<Action>, id: JobId, maxAttempts: Option<int>, freshId: JobId, now: Time)
    requires Core(w) && Feasible(w, acts) && id in w.db.jobs
    ensures var later := Run(w, acts).db; var row := w.db.jobs[id];
      id in later.jobs
      && Enqueue(later, row.ownerId, row.kind, row.key, maxAttempts, freshId, now) == (later, Existing(later.jobs[id]))
      && KeyOf(later.jobs[id]) == KeyOf(row)
  {
    hide Feasible, Run, RowsInv, TokensInv, PendingInv, EventsInv;
    KeyForever(w, acts, KeyOf(w.db.jobs[id]));
    RunKeepsCore(w, acts);
  }

  /** No two jobs share owner, kind and idempotency key. */
  lemma OneJobPerKey(w: World, acts: seq<Action>, i: JobId, j: JobId)
    requires Initial(w) && Feasible(w, acts)
    requires i in Run(w, acts).db.jobs && j in Run(w, acts).db.jobs
    requires KeyOf(Run(w, acts).db.jobs[i]) == KeyOf(Run(w, acts).db.jobs[j])
    ensures i == j
  {
    InitialInv(w);
    RunKeepsCore(w, acts);
    hide Feasible, Run, RowsInv, TokensInv, PendingInv, EventsInv, ClaimsInv, LogsInv;
  }

  // ---- steps ----

  /** The call reopens the step: its holder starts it again, behind the fence. */
  ghost predicate Reopens(w: World, a: Action, key: StepKey) {
    a.DoStartStep? && (a.job.id, a.stepKey, a.inputHash) == key && Holds(w.db, a.job, a.now)
  }

  /** One call leaves a committed step row as it is if and only if it does not
      reopen it; a start that the fence rejects does no harm. */
  lemma CommittedExactlyWhen(w: World, a: Action, key: StepKey)
    requires key in w.db.steps && w.db.steps[key].state == StepSucceeded
    ensures key in DbAfter(w, a).steps
    ensures DbAfter(w, a).steps[key] == w.db.steps[key] <==> !Reopens(w, a, key)
    ensures Reopens(w, a, key) ==> DbAfter(w, a).steps[key].state == StepRunning
  {
    match a
    case DoStartStep(now, job, stepKey, inputHash) =>
      StartReopens(w.db, job, stepKey, inputHash, now, key);
    case DoCompleteStep(now, job, stepKey, inputHash, outputRef, progress) =>
      CompleteKeepsCommitted(w.db, job, stepKey, inputHash, outputRef, progress, now, key);
    case DoFinish(now, job, target, outputRef, error, progress) =>
      hide Holds;
      assert Finish(w.db, job, target, outputRef, error, progress, now).0.steps == w.db.steps;
    case DoFail(now, job, cls, report, retryAfter, draw) =>
      FailKeepsSteps(w.db, job, cls, report, retryAfter, draw, now);
      hide Fail;
    case _ =>
      hide Holds;
  }

  lemma StartReopens(db: Db, job: JobRow, stepKey: string, inputHash: string, now: Time, key: StepKey)
    requires key in db.steps && db.steps[key].state == StepSucceeded
    ensures var steps := StartStep(db, job, stepKey, inputHash, now).0.steps;
      && key in steps
      && if (job.id, stepKey, inputHash) == key && Holds(db, job, now) then steps[key].state == StepRunning
         else steps[key] == db.steps[key]
  {}

  lemma CompleteKeepsCommitted(db: Db, job: JobRow, stepKey: string, inputHash: string, outputRef: Option<string>,
                               progress: Option<Progress>, now: Time, key: StepKey)
    requires key in db.steps && db.steps[key].state == StepSucceeded
    ensures var steps := CompleteStep(db, job, stepKey, inputHash, outputRef, progress, now).0.steps;
      key in steps && steps[key] == db.steps[key]
  {}

  lemma FailKeepsSteps(db: Db, job: JobRow, cls: ErrorClass, report: Report, retryAfter: Option<real>,
                       draw: real, now: Time)
    ensures Fail(db, job, cls, report, retryAfter, draw, now).0.steps == db.steps
  {
    match ClassifyFailure(cls, job.attempt, retryAfter, draw)
    case _ =>
  }

  /** No call of the run reopens the step. */
  ghost predicate NeverReopened(w: World, acts: seq<Action>, key: StepKey)
    decreases |acts|
  {
    acts == [] || (!Reopens(w, acts[0], key) && NeverReopened(Apply(w, acts[0]), acts[1..], key))
  }

  /** The committed row after the first `k` calls of the run. */
  ghost predicate Committed(w: World, acts: seq<Action>, key: StepKey, k: nat)
    requires key in w.db.steps && k <= |acts|
  {
    var steps := Run(w, acts[..k]).db.steps;
    key in steps && steps[key] == w.db.steps[key]
  }

  /** A committed row stands at every point of a run if and only if the run never
      reopens its step. */
  lemma {:induction false} CommittedForeverExactlyWhen(w: World, acts: seq<Action>, key: StepKey)
    requires key in w.db.steps && w.db.steps[key].state == StepSucceeded
    ensures (forall k :: 0 <= k <= |acts| ==> Committed(w, acts, key, k)) <==> NeverReopened(w, acts, key)
    decreases |acts|
  {
    if acts == [] {
      assert acts[..0] == [];
    } else {
      hide DbAfter, Reopens;
      var w' := Apply(w, acts[0]);
      CommittedExactlyWhen(w, acts[0], key);
      assert forall k :: 0 < k <= |acts| ==> acts[..k][0] == acts[0] && acts[..k][1..] == acts[1..][..k - 1];
      assert acts[..1][1..] == [];
      if !Reopens(w, acts[0], key) {
        CommittedForeverExactlyWhen(w', acts[1..], key);
        LaterCommitted(w, acts, key);
      } else {
        RunOne(w, acts);
        assert !Committed(w, acts, key, 1);
      }
    }
  }

  lemma RunOne(w: World, acts: seq<Action>)
    requires acts != []
    ensures Run(w, acts[..1]) == Apply(w, acts[0])
  {
    assert acts[..1][0] == acts[0] && acts[..1][1..] == [];
  }

  lemma LaterCommitted(w: World, acts: seq<Action>, key: StepKey)
    requires key in w.db.steps && acts != []
    requires key in Apply(w, acts[0]).db.steps && Apply(w, acts[0]).db.steps[key] == w.db.steps[key]
    ensures (forall k :: 0 <= k <= |acts| ==> Committed(w, acts, key, k))
       <==> (forall k :: 0 <= k <= |acts[1..]| ==> Committed(Apply(w, acts[0]), acts[1..], key, k))
  {
    hide Apply;
    var w', rest := Apply(w, acts[0]), acts[1..];
    forall k | 0 <= k <= |rest| ensures Committed(w', rest, key, k) == Committed(w, acts, key, k + 1) {
      assert acts[..k + 1][0] == acts[0] && acts[..k + 1][1..] == rest[..k];
    }
    assert acts[..0] == [];
    if forall k :: 0 <= k <= |rest| ==> Committed(w', rest, key, k) {
      forall k | 0 <= k <= |acts| ensures Committed(w, acts, key, k) {
        if k > 0 { assert Committed(w', rest, key, k - 1); }
      }
    }
  }

  lemma CommittedForever(w: World, acts: seq<Action>, key: StepKey)
    requires key in w.db.steps && w.db.steps[key].state == StepSucceeded
    requires NeverReopened(w, acts, key)
    ensures key in Run(w, acts).db.steps && Run(w, acts).db.steps[key] == w.db.steps[key]
  {
    CommittedForeverExactlyWhen(w, acts, key);
    hide NeverReopened, Run;
    assert Committed(w, acts, key, |acts|);
    assert acts[..|acts|] == acts;
  }

  /** Completing a committed step again, by any worker at any later point of a
      run that did not reopen it, returns the committed row and writes no step,
      no event and no progress; only the heartbeat of its own row moves. */
  lemma RerunIsNoOp(w: World, acts: seq<Action>, job: JobRow, stepKey: string, inputHash: string,
                    outputRef: Option<string>, progress: Option<Progress>, now: Time)
    requires (job.id, stepKey, inputHash) in w.db.steps
    requires w.db.steps[(job.id, stepKey, inputHash)].state == StepSucceeded
    requires NeverReopened(w, acts, (job.id, stepKey, inputHash))
    ensures var db := Run(w, acts).db;
      var (db', r) := CompleteStep(db, job, stepKey, inputHash, outputRef, progress, now);
      if Holds(db, job, now)
      then r == Ok(w.db.steps[(job.id, stepKey, inputHash)])
           && db' == db.(jobs := db.jobs[job.id := db.jobs[job.id].(heartbeatAt := Some(now))])
      else r == Raised(LeaseLost) && db' == db
  {
    CommittedForever(w, acts, (job.id, stepKey, inputHash));
  }

  /** Completing a committed step is a no-op, but not after the holder starts it
      once more: the step runs again, and the commit that follows writes its
      event a second time. */
  lemma RestartReopens(db: Db, job: JobRow, stepKey: string, inputHash: string, ref: string, now: Time)
    requires (job.id, stepKey, inputHash) in db.steps
    requires db.steps[(job.id, stepKey, inputHash)].state == StepSucceeded
    requires Holds(db, job, now) && job.id in db.events
    ensures CompleteStep(db, job, stepKey, inputHash, Some(ref), None, now).0.events == db.events
    ensures var key := (job.id, stepKey, inputHash);
      var (started, r) := StartStep(db, job, stepKey, inputHash, now);
      var (done, r') := CompleteStep(started, job, stepKey, inputHash, Some(ref), None, now);
      && r.Ok? && started.steps[key].state == StepRunning
      && r'.Ok? && done.steps[key].state == StepSucceeded
      && |done.events[job.id]| == |db.events[job.id]| + 2
  {}
}
