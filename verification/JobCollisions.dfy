/** What a claim breaks that collides with another of its own session. */
module JobCollisions {
  import opened Options
  import opened JobRecords
  import opened JobSpec
  import opened JobRuns
  import opened JobSafety
  import opened JobFencing
  import opened JobAttempts

  /** A session with no claim in flight cannot collide. */
  lemma OneAtATimeIsExclusive(w: World, a: Action)
    requires a.DoClaimLock? && forall t :: t in w.pending ==> w.pending[t].session != a.session
    ensures !Collides(w, a)
  {}

  /** Row `id` as a write with token `t` leaves it. */
  ghost predicate JustWon(db: Db, id: JobId, t: Token, attempt: nat) {
    && id in db.jobs && id in db.events
    && db.jobs[id].id == id && db.jobs[id].state == Running && db.jobs[id].attempt == attempt
    && db.jobs[id].leaseToken == Some(t)
  }

  lemma WriteWinsRow(w: World, t: Token, id: JobId)
    requires Core(w) && t in w.pending && w.pending[t].id == id
    ensures id in w.db.jobs
    ensures var w' := Apply(w, DoClaimWrite(w.clock, t));
      && id in w'.db.jobs && JustWon(w'.db, id, t, w.db.jobs[id].attempt + 1)
      && w'.db.events == w.db.events && w'.pending == w.pending - {t} && w'.clock == w.clock
      && w'.db.jobs[id] in w'.seen
      && w'.db.jobs[id].leaseUntil == Some(w.pending[t].now + LEASE_SECONDS)
      && w'.db.jobs[id].maxAttempts == w.db.jobs[id].maxAttempts
  {
    hide TokensInv, KeysInv;
    var w' := Apply(w, DoClaimWrite(w.clock, t));
    assert w'.db.jobs[id] in w'.db.jobs.Values;
  }

  /** The holder finishes its job: done, and logged as done. */
  ghost predicate Done(db: Db, id: JobId, attempt: nat) {
    && id in db.jobs && id in db.events
    && db.jobs[id].id == id && db.jobs[id].state == Succeeded && db.jobs[id].attempt == attempt
    && HasFinish(db.events[id])
  }

  lemma WinnerFinishes(w: World, id: JobId, t: Token, attempt: nat) returns (a: Action)
    requires id in w.db.jobs && JustWon(w.db, id, t, attempt) && w.db.jobs[id] in w.seen
    requires w.db.jobs[id].leaseUntil == Some(w.clock + LEASE_SECONDS)
    ensures Enabled(w, a) && a.now == w.clock
    ensures var w' := Apply(w, a);
      && id in w'.db.jobs && Done(w'.db, id, attempt) && w'.pending == w.pending && w'.clock == w.clock
      && w'.db.jobs[id].maxAttempts == w.db.jobs[id].maxAttempts
  {
    var row := w.db.jobs[id];
    a := DoFinish(w.clock, row, Succeeded, None, None, None);
    assert Holds(w.db, row, w.clock);
    var log := Apply(w, a).db.events[id];
    assert FinishEvent(log[|log| - 1].body);
  }

  /** The run that a colliding claim opens: it writes and finishes the job, and
      then the earlier claim writes. */
  ghost predicate RunsOn(w: World, a: Action, acts: seq<Action>, id: JobId) {
    && |acts| == 4 && acts[0] == a && Feasible(w, acts)
    && a.DoClaimLock? && a.pick == Some(id) && id in w.db.jobs
  }

  /** A collision breaks the state machine, the end of logs and the attempt
      bound: a job that succeeded is set running again, with its log already
      closed and its attempt up by two, whatever the rest of the queue holds. */
  lemma CollisionBreaks(w: World, a: Action) returns (acts: seq<Action>, id: JobId)
    requires Inv(w) && Enabled(w, a) && Collides(w, a)
    ensures RunsOn(w, a, acts, id)
    ensures var done, end := Run(w, acts[..3]).db, Run(w, acts).db;
      && id in done.jobs && done.jobs[id].state == Succeeded
      && id in end.jobs && end.jobs[id].state == Running && !LegalChange(done.jobs[id], end.jobs[id])
      && id in end.events && HasFinish(end.events[id]) && !LogOk(end.events[id], end.jobs[id].state)
      && end.jobs[id].attempt == w.db.jobs[id].attempt + 2
      && (w.db.jobs[id].attempt + 1 == Budget(w.db.jobs[id]) ==> !RowBounded(end.jobs[id]))
  {
    hide Inv, Core, Enabled, Apply, Collides, JustWon, Done, LegalChange, LogOk, HasFinish, RowBounded;
    var t := CollidingClaim(w, a);
    TokenIsNew(w, a);
    PickIsStored(w, a);
    id := a.pick.value;
    StepKeepsCore(w, a);
    var w1 := Apply(w, a);
    LockOnly(w, a);
    WriteWinsRow(w1, a.token, id);
    var first := DoClaimWrite(w1.clock, a.token);
    WriteIsEnabled(w1, a.token);
    StepKeepsCore(w1, first);
    var w2 := Apply(w1, first);
    var finish := WinnerFinishes(w2, id, a.token, w.db.jobs[id].attempt + 1);
    StepKeepsCore(w2, finish);
    var w3 := Apply(w2, finish);
    WriteIsEnabled(w3, t);
    WriteWinsRow(w3, t, id);
    var second := DoClaimWrite(w3.clock, t);
    acts := [a, first, finish, second];
    FourSteps(w, acts);
    DoneThenWon(w3.db, Apply(w3, second).db, id, t, w.db.jobs[id]);
  }

  lemma DoneThenWon(done: Db, end: Db, id: JobId, t: Token, row: JobRow)
    requires id in done.jobs && id in end.jobs && Done(done, id, row.attempt + 1) && JustWon(end, id, t, row.attempt + 2)
    requires end.events == done.events && end.jobs[id].maxAttempts == row.maxAttempts
    ensures id in end.events && done.jobs[id].state == Succeeded && end.jobs[id].state == Running && !LegalChange(done.jobs[id], end.jobs[id])
    ensures HasFinish(end.events[id]) && !LogOk(end.events[id], end.jobs[id].state)
    ensures end.jobs[id].attempt == row.attempt + 2
    ensures row.attempt + 1 == Budget(row) ==> !RowBounded(end.jobs[id])
  {}

  lemma TokenIsNew(w: World, a: Action)
    requires Inv(w) && Enabled(w, a) && a.DoClaimLock?
    ensures Core(w) && a.token !in w.pending
  {}

  lemma LockOnly(w: World, a: Action)
    requires a.DoClaimLock? && a.pick.Some?
    ensures var w' := Apply(w, a);
      && w'.db.jobs == w.db.jobs && w'.clock == a.now
      && w'.pending == w.pending[a.token := Pending(a.session, a.pick.value, a.now)]
  {}

  lemma WriteIsEnabled(w: World, t: Token)
    requires t in w.pending
    ensures Enabled(w, DoClaimWrite(w.clock, t))
  {}

  lemma FourSteps(w: World, acts: seq<Action>)
    requires |acts| == 4
    ensures var w1 := Apply(w, acts[0]); var w2 := Apply(w1, acts[1]); var w3 := Apply(w2, acts[2]);
      && Run(w, acts[..3]) == w3 && Run(w, acts) == Apply(w3, acts[3])
      && (Enabled(w, acts[0]) && Enabled(w1, acts[1]) && Enabled(w2, acts[2]) && Enabled(w3, acts[3]) ==> Feasible(w, acts))
  {
    hide Apply, Enabled;
    var w1 := Apply(w, acts[0]);
    var w2 := Apply(w1, acts[1]);
    var w3 := Apply(w2, acts[2]);
    var w4 := Apply(w3, acts[3]);
    assert acts == [acts[0]] + ([acts[1]] + ([acts[2]] + ([acts[3]] + [])));
    assert acts[..3] == [acts[0]] + ([acts[1]] + ([acts[2]] + []));
    Opens(w, acts[0], [acts[1]] + ([acts[2]] + ([acts[3]] + [])));
    Opens(w, acts[0], [acts[1]] + ([acts[2]] + []));
    Opens(w1, acts[1], [acts[2]] + ([acts[3]] + []));
    Opens(w1, acts[1], [acts[2]] + []);
    Opens(w2, acts[2], [acts[3]] + []);
    Opens(w2, acts[2], []);
    Opens(w3, acts[3], []);
  }

  lemma Opens(w: World, a: Action, rest: seq<Action>)
    ensures Run(w, [a] + rest) == Run(Apply(w, a), rest)
    ensures Feasible(w, [a] + rest) <==> Enabled(w, a) && Feasible(Apply(w, a), rest)
  {
    hide Apply, Enabled;
    assert ([a] + rest)[1..] == rest;
  }

  /** Collisions are real: two claims one after the other by one session, on a
      queue with one job. */
  lemma CollisionIsReachable(w: World) returns (acts: seq<Action>, a: Action)
    requires Initial(w)
    ensures Exclusive(w, acts)
    ensures Inv(Run(w, acts)) && Enabled(Run(w, acts), a) && Collides(Run(w, acts), a)
  {
    hide Inv, Enabled, Collides, Idle, Apply;
    var enqueue := EnqueueIsIdle(w);
    InitialInv(w);
    StepKeepsInv(w, enqueue);
    var w1 := Apply(w, enqueue);
    InvRows(w1);
    FirstToken(w, enqueue);
    var lock := CycleLock(w1, 0);
    var w2 := Apply(w1, lock);
    StepKeepsInv(w1, lock);
    acts := [enqueue] + ([lock] + []);
    OpensExclusive(w, enqueue, [lock] + []);
    OpensExclusive(w1, lock, []);
    a := SecondLock(w1, lock);
  }

  lemma FirstToken(w: World, a: Action)
    requires Initial(w) && a.DoEnqueue?
    ensures Apply(w, a).issued == {}
  {}

  lemma OpensExclusive(w: World, a: Action, rest: seq<Action>)
    ensures Run(w, [a] + rest) == Run(Apply(w, a), rest)
    ensures Exclusive(w, [a] + rest) <==> Enabled(w, a) && !Collides(w, a) && Exclusive(Apply(w, a), rest)
  {
    hide Apply, Enabled, Collides;
    assert ([a] + rest)[1..] == rest;
  }

  lemma SecondLock(w: World, lock: Action) returns (a: Action)
    requires RowsInv(w) && Idle(w, Queued) && 0 !in w.issued && 1 !in w.issued
    requires lock == DoClaimLock(w.clock, 0, {}, 0, Some(0))
    ensures Enabled(Apply(w, lock), a) && Collides(Apply(w, lock), a)
  {
    a := DoClaimLock(w.clock, 0, {}, 1, Some(0));
    var w' := Apply(w, lock);
    assert 0 in w'.pending && CollidesWith(w', a, 0);
  }
}
