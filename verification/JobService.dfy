/** The queue service: each public method is one short transaction over a
    store, proved to have exactly the effect JobSpec gives it. The clock
    reading and the random draw are parameters. */
module JobService {
  import opened Options
  import opened JobRecords
  import opened JobSpec
  import opened JobStore

  ghost predicate IdsMatch(db: Db) {
    forall id :: id in db.jobs ==> db.jobs[id].id == id
  }

  ghost function ExpiredIds(db: Db, now: Time): set<JobId> {
    set id | id in db.jobs && Expired(db.jobs[id], now)
  }

  /** The storage once the rows of `ids` have been reaped. */
  ghost function ReapSome(db: Db, ids: set<JobId>, now: Time, draws: map<JobId, real>): Db {
    db.(jobs := map id | id in db.jobs ::
          if id in ids then ReapRow(db.jobs[id], now, Draw(draws, id)) else db.jobs[id])
  }

  lemma ReapOneMore(db: Db, ids: set<JobId>, id: JobId, now: Time, draws: map<JobId, real>)
    requires id in db.jobs && id !in ids && Expired(db.jobs[id], now)
    ensures ReapSome(db, ids + {id}, now, draws)
         == Put(ReapSome(db, ids, now, draws), id, Update(db.jobs[id], ReapValues(db.jobs[id], now, Draw(draws, id))))
  {
    assert ReapSome(db, ids + {id}, now, draws).jobs
        == ReapSome(db, ids, now, draws).jobs[id := ReapRow(db.jobs[id], now, Draw(draws, id))];
  }

  lemma ReapNone(db: Db, now: Time, draws: map<JobId, real>)
    ensures ReapSome(db, {}, now, draws) == db
  {
    assert ReapSome(db, {}, now, draws).jobs == db.jobs;
  }

  lemma ReapAll(db: Db, expired: seq<JobRow>, reaped: set<JobId>, now: Time, draws: map<JobId, real>)
    requires IdsMatch(db) && reaped <= ExpiredIds(db, now)
    requires forall id :: id in db.jobs && Expired(db.jobs[id], now) ==> db.jobs[id] in expired
    requires forall k :: 0 <= k < |expired| ==> expired[k].id in reaped
    ensures reaped == ExpiredIds(db, now)
    ensures ReapSome(db, reaped, now, draws) == JobSpec.ReapExpired(db, now, draws)
  {
    forall id | id in ExpiredIds(db, now) ensures id in reaped {
      var k :| 0 <= k < |expired| && expired[k] == db.jobs[id];
    }
    assert ReapSome(db, reaped, now, draws).jobs == JobSpec.ReapExpired(db, now, draws).jobs;
  }

  class JobService {
    constructor () {}

    method Enqueue(store: InMemoryJobsStore, owner: OwnerId, kind: string, key: string,
                   maxAttempts: Option<int>, freshId: JobId, now: Time) returns (r: EnqueueResult)
      modifies store.db
      ensures (store.db.View(), r) == JobSpec.Enqueue(old(store.db.View()), owner, kind, key, maxAttempts, freshId, now)
    {
      var row := NewRow(freshId, owner, kind, key, maxAttempts, now);
      var inserted := store.InsertJob(row);
      if !inserted {
        var existing := store.FindIdempotentJob(owner, kind, key);
        if existing.None? {
          return Broken;
        }
        return Existing(existing.value);
      }
      AppendEvent(store, freshId, EvQueued, now);
      return Created(row);
    }

    method ClaimLock(store: InMemoryJobsStore, now: Time, kinds: set<string>) returns (pick: Option<JobId>)
      requires IdsMatch(store.db.View())
      modifies store.db
      ensures IsPick(old(store.db.View()), store.sessionId, now, kinds, pick)
      ensures store.db.View() == Lock(old(store.db.View()), store.sessionId, pick)
    {
      pick := store.ClaimLock(now, kinds);
    }

    method ClaimWrite(store: InMemoryJobsStore, id: JobId, token: Token, now: Time) returns (row: JobRow)
      requires id in store.db.jobs
      modifies store.db
      ensures store.db.View() == JobSpec.ClaimWrite(old(store.db.View()), id, token, now)
      ensures row == store.db.jobs[id]
    {
      row := store.ClaimWrite(id, token, now);
    }

    method Heartbeat(store: InMemoryJobsStore, id: JobId, token: Token, now: Time) returns (kept: bool)
      modifies store.db
      ensures store.db.View() == JobSpec.Heartbeat(old(store.db.View()), id, token, now)
      ensures kept == Current(old(store.db.View()), id, token, now)
    {
      var count := store.FencedUpdate(id, token, now,
        NO_VALUES.(leaseUntil := Some(now + LEASE_SECONDS), heartbeatAt := Some(now)));
      kept := count > 0;
    }

    /** The fence: an update that must match the caller's lease. */
    method Fenced(store: InMemoryJobsStore, job: JobRow, now: Time, values: Values) returns (lost: bool)
      modifies store.db
      ensures lost == !Holds(old(store.db.View()), job, now)
      ensures store.db.View() == if lost then old(store.db.View())
        else Put(old(store.db.View()), job.id, Update(old(store.db.jobs)[job.id], values))
    {
      if job.leaseToken.None? {
        return true;
      }
      var count := store.FencedUpdate(job.id, job.leaseToken.value, now, values);
      lost := count == 0;
    }

    method StartStep(store: InMemoryJobsStore, job: JobRow, stepKey: string, inputHash: string, now: Time)
      returns (r: Outcome<StepRow>)
      modifies store.db
      ensures (store.db.View(), r) == JobSpec.StartStep(old(store.db.View()), job, stepKey, inputHash, now)
    {
      var lost := Fenced(store, job, now, Beat(now));
      if lost {
        return Raised(LeaseLost);
      }
      var step := store.UpsertStep((job.id, stepKey, inputHash),
                                   StepRow(StepRunning, None, job.attempt, Some(now), None));
      AppendEvent(store, job.id, EvStageStarted(stepKey), now);
      return Ok(step);
    }

    method CompleteStep(store: InMemoryJobsStore, job: JobRow, stepKey: string, inputHash: string,
                        outputRef: Option<string>, progress: Option<Progress>, now: Time)
      returns (r: Outcome<StepRow>)
      modifies store.db
      ensures (store.db.View(), r) ==
        JobSpec.CompleteStep(old(store.db.View()), job, stepKey, inputHash, outputRef, progress, now)
    {
      var lost := Fenced(store, job, now, Beat(now));
      if lost {
        return Raised(LeaseLost);
      }
      var existing := store.GetStep((job.id, stepKey, inputHash));
      if existing.Some? && existing.value.state == StepSucceeded {
        return Ok(existing.value);
      }
      var base := FreshProgress(store, job);
      var values := Beat(now);
      if progress.Some? {
        values := values.(progress := Some(base + progress.value));
      }
      assert store.db.View() == Put(old(store.db.View()), job.id, Update(old(store.db.jobs)[job.id], Beat(now)));
      lost := Fenced(store, job, now, values);
      // The first fence passed at this instant, so the second does too.
      assert !lost;
      ghost var written := store.db.View();
      assert written.jobs == old(store.db.jobs)[job.id := written.jobs[job.id]];
      var step := store.UpsertStep((job.id, stepKey, inputHash),
                                   StepRow(StepSucceeded, outputRef, job.attempt, Some(now), Some(now)));
      if outputRef.Some? {
        AppendEvent(store, job.id, EvArtifactReady(stepKey, outputRef.value), now);
      }
      if progress.Some? {
        AppendEvent(store, job.id, EvProgress(progress.value), now);
      }
      return Ok(step);
    }

    method Finish(store: InMemoryJobsStore, job: JobRow, target: State, outputRef: Option<string>,
                  error: Option<JobError>, progress: Option<Progress>, now: Time)
      returns (r: Outcome<JobRow>)
      modifies store.db
      ensures (store.db.View(), r) ==
        JobSpec.Finish(old(store.db.View()), job, target, outputRef, error, progress, now)
    {
      if !Allowed(job.state, target) {
        return Raised(InvalidTransition);
      }
      if LacksGaps(target, error) {
        return Raised(ValidationFailed);
      }
      var values := NO_VALUES.(state := Some(target), dropLease := true, heartbeatAt := Some(now),
                               outputRef := outputRef, error := error);
      if progress.Some? {
        var base := FreshProgress(store, job);
        values := values.(progress := Some(base + progress.value));
      }
      var lost := Fenced(store, job, now, values);
      if lost {
        return Raised(LeaseLost);
      }
      var event := TerminalEvent(target, error);
      if event.None? {
        return Raised(KeyError);
      }
      AppendEvent(store, job.id, event.value, now);
      var updated := store.GetJob(job.id);
      return Ok(updated.value);
    }

    method Fail(store: InMemoryJobsStore, job: JobRow, cls: ErrorClass, report: Report,
                retryAfter: Option<real>, draw: real, now: Time)
      returns (r: Outcome<JobRow>)
      modifies store.db
      ensures (store.db.View(), r) ==
        JobSpec.Fail(old(store.db.View()), job, cls, report, retryAfter, draw, now)
    {
      var decision := ClassifyFailure(cls, job.attempt, retryAfter, draw);
      var error := JobError(ErrorCode(cls), report, [], false, None);
      match decision {
        case Handler(_) =>
          return Raised(ValidationFailed);
        case Cancel =>
          r := Finish(store, job, Cancelled, None, Some(error), None, now);
        case GiveUp(audit) =>
          r := Finish(store, job, Failed, None, Some(error.(audit := audit)), None, now);
        case Retry(delay) =>
          var lost := Fenced(store, job, now,
            NO_VALUES.(state := Some(RetryWait), availableAt := Some(now + delay), dropLease := true,
                       heartbeatAt := Some(now), error := Some(error)));
          if lost {
            return Raised(LeaseLost);
          }
          AppendEvent(store, job.id, EvRetry(delay, Some(error)), now);
          var updated := store.GetJob(job.id);
          return Ok(updated.value);
      }
    }

    method RequestCancel(store: InMemoryJobsStore, id: JobId, at: Time) returns (recorded: bool)
      modifies store.db
      ensures store.db.View() == JobSpec.RequestCancel(old(store.db.View()), id, at)
      ensures recorded <==> old(store.db.View()) != store.db.View()
    {
      var count := store.RequestCancel(id, at);
      recorded := count > 0;
    }

    method RequeueDue(store: InMemoryJobsStore, now: Time) returns (count: nat)
      modifies store.db
      ensures store.db.View() == JobSpec.RequeueDue(old(store.db.View()), now)
    {
      count := store.RequeueDue(now);
    }

    method ReapExpired(store: InMemoryJobsStore, now: Time, draws: map<JobId, real>) returns (count: nat)
      requires IdsMatch(store.db.View())
      modifies store.db
      ensures store.db.View() == JobSpec.ReapExpired(old(store.db.View()), now, draws)
      ensures count == |ExpiredIds(old(store.db.View()), now)|
    {
      ghost var before := store.db.View();
      var expired := store.ExpiredRunningJobs(now);
      ghost var reaped: set<JobId> := {};
      count := 0;
      ReapNone(before, now, draws);
      for i := 0 to |expired|
        invariant store.db.View() == ReapSome(before, reaped, now, draws)
        invariant forall k :: 0 <= k < |expired| ==> (expired[k].id in reaped <==> k < i)
        invariant reaped <= ExpiredIds(before, now)
        invariant count == |reaped|
      {
        var job := expired[i];
        var updated := store.ExpireUpdate(job.id, now, ReapValues(job, now, Draw(draws, job.id)));
        ReapOneMore(before, reaped, job.id, now, draws);
        count := count + updated;
        reaped := reaped + {job.id};
      }
      ReapAll(before, expired, reaped, now, draws);
    }

    /** Append one event; its number is allocated in the same transaction. */
    method AppendEvent(store: InMemoryJobsStore, id: JobId, body: EventBody, now: Time)
      modifies store.db
      ensures store.db.View() == Append(old(store.db.View()), id, body, now)
    {
      var num := store.NextEventNum(id);
      MaxNumBounds(Log(store.db.View(), id));
      var inserted := store.InsertEvent(id, Event(num, body, now));
    }

    /** Progress as committed, not as the caller's snapshot holds it. */
    method FreshProgress(store: InMemoryJobsStore, job: JobRow) returns (base: Progress)
      ensures base == JobSpec.FreshProgress(store.db.View(), job)
    {
      var committed := store.GetJob(job.id);
      base := if committed.Some? then committed.value.progress else job.progress;
    }
  }

  lemma {:induction false} MaxNumBounds(log: seq<Event>)
    ensures forall i :: 0 <= i < |log| ==> log[i].num <= MaxNum(log)
    ensures if forall i :: 0 <= i < |log| ==> log[i].num == 0 then MaxNum(log) == 0
            else exists i :: 0 <= i < |log| && log[i].num == MaxNum(log)
  {
    if log != [] {
      var init := log[..|log| - 1];
      assert forall i :: 0 <= i < |init| ==> init[i] == log[i];
      assert log[|log| - 1].num > MaxNum(init) ==> MaxNum(log) == log[|log| - 1].num;
      MaxNumBounds(log[..|log| - 1]);
      forall i | 0 <= i < |log| ensures log[i].num <= MaxNum(log) {
        if i < |log| - 1 { assert log[i] == log[..|log| - 1][i]; }
      }
    }
  }
}
