/** Safety of the queue over whole runs: fencing, which holds whatever claims
    collide, the state machine and the event logs. */
module JobFencing {
  import opened Options
  import opened JobRecords
  import opened JobSpec
  import opened JobRuns
  import opened JobSafety

  /** Everything a run reaches from the empty queue satisfies the core of the
      invariant, and all of it if no claim of the run collides. */
  lemma ReachableInv(w: World, acts: seq<Action>)
    requires Initial(w) && Feasible(w, acts)
    ensures Core(Run(w, acts))
    ensures Exclusive(w, acts) ==> Inv(Run(w, acts))
  {
    InitialInv(w);
    RunKeepsCore(w, acts);
    hide Core, ClaimsInv, LogsInv;
    if Exclusive(w, acts) { RunKeepsInv(w, acts); }
  }

  // ---- fencing ----

  /** The token was handed out, no claim is about to write it, and it does not
      pass the fence of this job now. */
  ghost predicate Dead(w: World, id: JobId, token: Token) {
    token in w.issued && token !in w.pending && !Current(w.db, id, token, w.clock)
  }

  /** A snapshot whose lease ran out, was reaped, finished or claimed again
      holds a dead token. */
  lemma StaleSnapshotIsDead(w: World, job: JobRow)
    requires Core(w) && job in w.seen && job.leaseToken.Some?
    requires var row := w.db.jobs[job.id];
      || row.state != Running
      || row.leaseToken != job.leaseToken
      || (row.leaseUntil.Some? && row.leaseUntil.value <= w.clock)
    ensures Dead(w, job.id, job.leaseToken.value)
  {
    hide KeysInv, EventsInv;
  }

  ghost predicate UsesToken(a: Action, id: JobId, token: Token) {
    match a
    case DoHeartbeat(_, i, t) => i == id && t == token
    case DoStartStep(_, job, _, _) => job.id == id && job.leaseToken == Some(token)
    case DoCompleteStep(_, job, _, _, _, _) => job.id == id && job.leaseToken == Some(token)
    case DoFinish(_, job, _, _, _, _) => job.id == id && job.leaseToken == Some(token)
    case DoFail(_, job, _, _, _, _) => job.id == id && job.leaseToken == Some(token)
    case _ => false
  }

  /** What the fenced call tells its caller. */
  ghost predicate Succeeds(w: World, a: Action) {
    match a
    case DoHeartbeat(now, id, token) => Current(w.db, id, token, now)
    case DoStartStep(now, job, stepKey, inputHash) => StartStep(w.db, job, stepKey, inputHash, now).1.Ok?
    case DoCompleteStep(now, job, stepKey, inputHash, outputRef, progress) =>
      CompleteStep(w.db, job, stepKey, inputHash, outputRef, progress, now).1.Ok?
    case DoFinish(now, job, target, outputRef, error, progress) =>
      Finish(w.db, job, target, outputRef, error, progress, now).1.Ok?
    case DoFail(now, job, cls, report, retryAfter, draw) =>
      Fail(w.db, job, cls, report, retryAfter, draw, now).1.Ok?
    case _ => true
  }

  lemma DeadStays(w: World, w': World, id: JobId, token: Token)
    requires Next(w, w') && Dead(w, id, token)
    ensures Dead(w', id, token)
  {
    hide LogsGrow;
    if id in w.db.jobs && !RowStep(w.db.jobs[id], w'.db.jobs[id], w'.clock) {
      var t :| ClaimedBy(w, t, id, w'.db.jobs[id]);
    }
  }

  lemma DeadCallFails(w: World, a: Action, id: JobId, token: Token)
    requires Enabled(w, a) && Dead(w, id, token) && UsesToken(a, id, token)
    ensures DbAfter(w, a) == w.db && !Succeeds(w, a)
  {}

  lemma {:induction false} DeadAlongRuns(w: World, acts: seq<Action>, id: JobId, token: Token, k: nat)
    requires Core(w) && Feasible(w, acts) && Dead(w, id, token) && k < |acts|
    ensures Dead(Run(w, acts[..k]), id, token) && Enabled(Run(w, acts[..k]), acts[k])
    decreases k
  {
    hide Core, Enabled, Dead, Apply;
    if k > 0 {
      DeadStep(w, acts[0], id, token);
      DeadAlongRuns(Apply(w, acts[0]), acts[1..], id, token, k - 1);
      assert acts[..k][1..] == acts[1..][..k - 1];
    }
  }

  lemma DeadStep(w: World, a: Action, id: JobId, token: Token)
    requires Core(w) && Enabled(w, a) && Dead(w, id, token)
    ensures Core(Apply(w, a)) && Dead(Apply(w, a), id, token)
  {
    hide Core, Enabled, Dead, Next, Apply;
    StepKeepsCore(w, a);
    StepIsNext(w, a);
    DeadStays(w, Apply(w, a), id, token);
  }

  /** Fencing over whole runs, colliding claims or not: once a token is dead for
      its job, every later call made with it fails and changes no row, step or
      event. */
  lemma FencedForever(w: World, acts: seq<Action>, id: JobId, token: Token, k: nat)
    requires Core(w) && Feasible(w, acts) && Dead(w, id, token)
    requires k < |acts| && UsesToken(acts[k], id, token)
    ensures var wk := Run(w, acts[..k]); DbAfter(wk, acts[k]) == wk.db && !Succeeds(wk, acts[k])
  {
    hide Core, Enabled, Dead, Apply, Succeeds, UsesToken;
    DeadAlongRuns(w, acts, id, token, k);
    DeadCallFails(Run(w, acts[..k]), acts[k], id, token);
  }

  /** No two jobs hold the same lease token, and a row, its holder's snapshot
      and the attempt they stand for agree while the lease is the row's. */
  lemma LiveTokensUnique(w: World, i: JobId, j: JobId, job: JobRow)
    requires Core(w) && i in w.db.jobs && j in w.db.jobs && job in w.seen
    ensures w.db.jobs[i].leaseToken.Some? && w.db.jobs[i].leaseToken == w.db.jobs[j].leaseToken ==> i == j
    ensures job.leaseToken.Some? && w.db.jobs[i].leaseToken == job.leaseToken ==>
      job.id == i && job.attempt == w.db.jobs[i].attempt && job.state == w.db.jobs[i].state == Running
  {
    hide PendingInv, KeysInv, EventsInv;
  }

  // ---- the state machine ----

  /** Every stored state change is one the table allows, a row carries a lease
      exactly while it runs, and a terminal row is never written again. */
  ghost predicate LegalChange(r: JobRow, r': JobRow) {
    && (r'.state == r.state || Allowed(r.state, r'.state))
    && (r'.leaseToken.Some? <==> r'.state == Running)
    && (Terminal(r.state) ==> r' == r)
    && (r.state == WaitingReview ==> r' == r.(cancelRequestedAt := r'.cancelRequestedAt))
    && r.progress.Keys <= r'.progress.Keys
  }

  lemma NextIsLegal(w: World, w': World, id: JobId)
    requires HeldInv(w) && Next(w, w') && id in w.db.jobs
    ensures id in w'.db.jobs && LegalChange(w.db.jobs[id], w'.db.jobs[id])
  {
    hide LogsGrow;
    if !RowStep(w.db.jobs[id], w'.db.jobs[id], w'.clock) {
      var t :| ClaimedBy(w, t, id, w'.db.jobs[id]);
    }
  }

  lemma StateMachine(w: World, a: Action, id: JobId)
    requires Inv(w) && Enabled(w, a) && id in w.db.jobs
    ensures id in Apply(w, a).db.jobs && LegalChange(w.db.jobs[id], Apply(w, a).db.jobs[id])
  {
    hide Core, LogsInv, HeldInv, LocksInv, Apply, Enabled, Next, LegalChange;
    StepIsNext(w, a);
    NextIsLegal(w, Apply(w, a), id);
  }

  /** Finished jobs stay as they are, whatever the rest of the run does; a
      terminal row does not change at all. */
  lemma {:induction false} FinishedForever(w: World, acts: seq<Action>, id: JobId)
    requires Inv(w) && Exclusive(w, acts) && id in w.db.jobs && Finished(w.db.jobs[id].state)
    ensures id in Run(w, acts).db.jobs
    ensures Run(w, acts).db.jobs[id].state == w.db.jobs[id].state
    ensures Terminal(w.db.jobs[id].state) ==> Run(w, acts).db.jobs[id] == w.db.jobs[id]
    decreases |acts|
  {
    hide Inv, Apply, Enabled, Collides;
    if acts != [] {
      StateMachine(w, acts[0], id);
      StepKeepsInv(w, acts[0]);
      FinishedForever(Apply(w, acts[0]), acts[1..], id);
    }
  }

  // ---- event logs ----

  lemma NextGrowsLog(w: World, w': World, id: JobId)
    requires Next(w, w') && id in w.db.jobs
    ensures id in w'.db.jobs && id in w.db.events && id in w'.db.events && w.db.events[id] <= w'.db.events[id]
  {}

  lemma LogNow(w: World, id: JobId)
    requires Core(w) && id in w.db.jobs
    ensures id in w.db.events && Numbered(w.db.events[id])
  {}

  /** Over any run, colliding claims or not, a job's log only grows at its end,
      is numbered 1..n and opens with `queued`. */
  lemma {:induction false} LogsOverRuns(w: World, acts: seq<Action>, id: JobId)
    requires Core(w) && Feasible(w, acts) && id in w.db.jobs
    ensures id in Run(w, acts).db.jobs && id in Run(w, acts).db.events
    ensures id in w.db.events && w.db.events[id] <= Run(w, acts).db.events[id]
    ensures Numbered(Run(w, acts).db.events[id])
    decreases |acts|
  {
    hide Core, Enabled, Apply, Next, Numbered;
    if acts != [] {
      StepIsNext(w, acts[0]);
      NextGrowsLog(w, Apply(w, acts[0]), id);
      StepKeepsCore(w, acts[0]);
      LogsOverRuns(Apply(w, acts[0]), acts[1..], id);
    } else {
      LogNow(w, id);
    }
  }

  ghost predicate HasFinish(log: seq<Event>) {
    exists i :: 0 <= i < |log| && FinishEvent(log[i].body)
  }

  /** Without collisions a finish event can only be the last of a finished job's
      log. */
  lemma FinishIsLast(w: World, acts: seq<Action>, id: JobId)
    requires Inv(w) && Exclusive(w, acts) && id in Run(w, acts).db.jobs
    ensures var w' := Run(w, acts);
      id in w'.db.events && LogOk(w'.db.events[id], w'.db.jobs[id].state)
  {
    RunKeepsInv(w, acts);
    hide Core, ClaimsInv, LogOk, Exclusive, Run;
  }

  lemma LogClosed(w: World, id: JobId)
    requires LogsInv(w.db) && id in w.db.jobs && HasFinish(w.db.events[id])
    ensures Finished(w.db.jobs[id].state)
  {
    assert LogOk(w.db.events[id], w.db.jobs[id].state);
  }

  lemma FinishedStep(w: World, w': World, id: JobId)
    requires HeldInv(w) && Next(w, w') && id in w.db.jobs && Finished(w.db.jobs[id].state)
    ensures id in w'.db.jobs && Finished(w'.db.jobs[id].state)
    ensures id in w.db.events && id in w'.db.events && w'.db.events[id] == w.db.events[id]
  {
    NextIsLegal(w, w', id);
  }

  lemma FinishedStays(w: World, a: Action, id: JobId)
    requires Inv(w) && Enabled(w, a) && id in w.db.jobs && Finished(w.db.jobs[id].state)
    ensures var w' := Apply(w, a);
      && id in w'.db.jobs && Finished(w'.db.jobs[id].state)
      && id in w.db.events && id in w'.db.events && w'.db.events[id] == w.db.events[id]
  {
    hide Core, LogsInv, HeldInv, LocksInv, Apply, Enabled, Next;
    StepIsNext(w, a);
    FinishedStep(w, Apply(w, a), id);
  }

  lemma {:induction false} FinishedLogFrozen(w: World, acts: seq<Action>, id: JobId)
    requires Inv(w) && Exclusive(w, acts) && id in w.db.jobs && Finished(w.db.jobs[id].state)
    ensures id in w.db.events && id in Run(w, acts).db.events && Run(w, acts).db.events[id] == w.db.events[id]
    decreases |acts|
  {
    hide Apply, Enabled, Collides, Core, ClaimsInv, LogOk;
    if acts != [] {
      FinishedStays(w, acts[0], id);
      StepKeepsInv(w, acts[0]);
      hide Inv;
      FinishedLogFrozen(Apply(w, acts[0]), acts[1..], id);
    }
  }

  /** Once a job's log holds a finish event, or its row is finished, no run
      without collisions ever appends to that log again. */
  lemma NothingAfterFinish(w: World, acts: seq<Action>, id: JobId)
    requires Inv(w) && Exclusive(w, acts) && id in w.db.jobs
    requires Finished(w.db.jobs[id].state) || HasFinish(w.db.events[id])
    ensures id in w.db.events && id in Run(w, acts).db.events && Run(w, acts).db.events[id] == w.db.events[id]
  {
    hide Core, ClaimsInv, LogsInv, Exclusive, Run;
    if !Finished(w.db.jobs[id].state) { LogClosed(w, id); }
    FinishedLogFrozen(w, acts, id);
  }
}
