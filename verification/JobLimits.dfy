/** When `max_attempts` limits the claims of a job, and when it does not. */
module JobLimits {
  import opened Options
  import opened Integers
  import opened JobRecords
  import opened JobSpec
  import opened JobRuns
  import opened JobSafety
  import opened JobAttempts

  ghost predicate RowWithin(r: JobRow) {
    && r.attempt <= r.maxAttempts
    && (r.state == Queued || r.state == RetryWait ==> r.attempt < r.maxAttempts)
  }

  /** No job was claimed more often than its `max_attempts`, and a waiting job may
      be claimed once more. */
  ghost predicate Within(db: Db) {
    forall id :: id in db.jobs ==> RowWithin(db.jobs[id])
  }

  /** The three calls that look past the limit: a new job whose limit is under
      one, and a holder on its last attempt who parks the job, by `finish` or by a
      failure that the retry classification lets retry. */
  ghost predicate PassesMax(w: World, a: Action) {
    match a
    case DoEnqueue(_, owner, kind, key, maxAttempts, _) =>
      (owner, kind, key) !in w.db.idem && Or(maxAttempts, DefaultMaxAttempts(kind)) < 1
    case DoFinish(now, job, target, _, _, _) =>
      target == RetryWait && Holds(w.db, job, now) && job.attempt >= job.maxAttempts
    case DoFail(now, job, cls, _, retryAfter, draw) =>
      Holds(w.db, job, now) && ClassifyFailure(cls, job.attempt, retryAfter, draw).Retry? && job.attempt >= job.maxAttempts
    case _ => false
  }

  // ---- step by step ----

  lemma RowKeepsWithin(r: JobRow, r': JobRow, now: Time)
    requires RowStep(r, r', now) && RowWithin(r)
    requires r.state == Running && r'.state == RetryWait ==> r.attempt < r.maxAttempts
    ensures RowWithin(r')
  {}

  lemma ParksWithin(w: World, a: Action, id: JobId, at: Time)
    requires RowsInv(w) && TokensInv(w) && Enabled(w, a) && !PassesMax(w, a)
    requires id in w.db.jobs && ParkedBy(w, a, id, at)
    ensures w.db.jobs[id].attempt < w.db.jobs[id].maxAttempts
  {
    hide RowsInv, TokensInv, Holds, ClassifyFailure, ReapedTo;
    if a.DoFinish? || a.DoFail? { HoldersBudget(w, a.job, a.now); }
  }

  lemma RewriteKeepsWithin(w: World, a: Action)
    requires RowsInv(w) && TokensInv(w) && Enabled(w, a) && OnRows(a) && Within(w.db) && !PassesMax(w, a)
    ensures Within(DbAfter(w, a))
  {
    hide DbAfter, RowsInv, TokensInv, Enabled, PassesMax, ParkedBy;
    StepRows(w, a);
    var db' := DbAfter(w, a);
    forall id | id in w.db.jobs ensures RowWithin(db'.jobs[id]) {
      assert RowStep(w.db.jobs[id], db'.jobs[id], a.now);
      if w.db.jobs[id].state == Running && db'.jobs[id].state == RetryWait {
        WhoParks(w, a, id);
        ParksWithin(w, a, id, db'.jobs[id].availableAt);
      }
      RowKeepsWithin(w.db.jobs[id], db'.jobs[id], a.now);
    }
  }

  lemma OneRowWithin(db: Db, db': Db, id: JobId, row: JobRow)
    requires Within(db) && db'.jobs == db.jobs[id := row]
    ensures Within(db') || !RowWithin(row)
    ensures !RowWithin(row) ==> !Within(db')
  {
    hide RowWithin;
    assert db'.jobs[id] == row;
  }

  lemma EnqueueWithin(w: World, a: Action)
    requires RowsInv(w) && EventsInv(w.db) && Enabled(w, a) && Within(w.db) && a.DoEnqueue?
    ensures Within(DbAfter(w, a)) <==> !PassesMax(w, a)
  {
    assert Apply(w, a).db == DbAfter(w, a);
    hide DbAfter, RowsInv, EventsInv, Within;
    if (a.owner, a.kind, a.key) in w.db.idem {
      EnqueueRepeats(w, a);
    } else {
      var row := EnqueueAdds(w, a);
      OneRowWithin(w.db, DbAfter(w, a), row.id, row);
    }
  }

  lemma WriteKeepsWithin(w: World, a: Action)
    requires HeldInv(w) && Enabled(w, a) && Within(w.db) && a.DoClaimWrite?
    ensures Within(DbAfter(w, a))
  {
    var p := w.pending[a.token];
    OneRowWithin(w.db, DbAfter(w, a), p.id, Claimed(w.db.jobs[p.id], a.token, p.now));
  }

  lemma LockKeepsWithin(w: World, a: Action)
    requires Within(w.db) && a.DoClaimLock?
    ensures Within(DbAfter(w, a))
  {}

  lemma PassingBreaks(w: World, a: Action)
    requires RowsInv(w) && TokensInv(w) && Enabled(w, a) && PassesMax(w, a) && (a.DoFinish? || a.DoFail?)
    ensures !Within(DbAfter(w, a))
  {
    HoldersBudget(w, a.job, a.now);
    var id := a.job.id;
    var at := if a.DoFinish? then w.db.jobs[id].availableAt
              else a.now + ClassifyFailure(a.cls, a.job.attempt, a.retryAfter, a.draw).delay;
    hide RowsInv, TokensInv, Enabled, DbAfter, Holds, ClassifyFailure;
    assert ParkedBy(w, a, id, at);
    HolderParks(w, a, at);
    assert !RowWithin(DbAfter(w, a).jobs[id]);
  }

  /** From a queue within its limits, a step goes past them if and only if it is
      one of the three calls. */
  lemma WithinExactlyWhen(w: World, a: Action)
    requires Inv(w) && Enabled(w, a) && Within(w.db)
    ensures Within(DbAfter(w, a)) <==> !PassesMax(w, a)
  {
    hide RowsInv, TokensInv, PendingInv, KeysInv, EventsInv, HeldInv, LocksInv, LogsInv, Within, Enabled, DbAfter;
    match a
    case DoEnqueue(_, _, _, _, _, _) => EnqueueWithin(w, a);
    case DoClaimLock(_, _, _, _, _) => LockKeepsWithin(w, a);
    case DoClaimWrite(_, _) => WriteKeepsWithin(w, a);
    case _ =>
      if PassesMax(w, a) { PassingBreaks(w, a); } else { RewriteKeepsWithin(w, a); }
  }

  // ---- over runs ----

  /** No call of the run looks past the limit. */
  ghost predicate Limited(w: World, acts: seq<Action>)
    decreases |acts|
  {
    acts == [] || (!PassesMax(w, acts[0]) && Limited(Apply(w, acts[0]), acts[1..]))
  }

  ghost predicate WithinAt(w: World, acts: seq<Action>, k: nat)
    requires k <= |acts|
  {
    Within(Run(w, acts[..k]).db)
  }

  /** The queue stays within its limits at every point of a run if and only if no
      call of the run looks past them. */
  lemma {:induction false} WithinAlongExactlyWhen(w: World, acts: seq<Action>)
    requires Inv(w) && Within(w.db) && Exclusive(w, acts)
    ensures (forall k :: 0 <= k <= |acts| ==> WithinAt(w, acts, k)) <==> Limited(w, acts)
    decreases |acts|
  {
    hide Inv, Enabled, Collides, DbAfter, Within, PassesMax;
    FirstWithin(w, acts);
    if acts != [] {
      var w', rest := Apply(w, acts[0]), acts[1..];
      WithinExactlyWhen(w, acts[0]);
      StepKeepsInv(w, acts[0]);
      forall k | 0 <= k <= |rest| ensures WithinAt(w, acts, k + 1) <==> WithinAt(w', rest, k) {
        assert acts[..k + 1][1..] == rest[..k];
      }
      FirstWithin(w', rest);
      hide WithinAt, Apply;
      if Within(w'.db) {
        WithinAlongExactlyWhen(w', rest);
        forall k | 0 <= k <= |acts| && Limited(w', rest) ensures WithinAt(w, acts, k) {
          if k > 0 { assert WithinAt(w', rest, k - 1); }
        }
        forall k | 0 <= k <= |rest| && WithinAt(w, acts, k + 1) ensures WithinAt(w', rest, k) {}
      } else {
        assert !WithinAt(w, acts, 0 + 1);
      }
    }
  }

  lemma FirstWithin(w: World, acts: seq<Action>)
    ensures WithinAt(w, acts, 0) <==> Within(w.db)
  {
    assert acts[..0] == [];
  }

  /** So in a run from the empty queue, without collisions and without such a
      call, every job is claimed at most `max_attempts` times. */
  lemma LimitHolds(w: World, acts: seq<Action>, id: JobId)
    requires Initial(w) && Exclusive(w, acts) && Limited(w, acts) && id in Run(w, acts).db.jobs
    ensures Wins(w, acts, id) <= Run(w, acts).db.jobs[id].maxAttempts
  {
    InitialInv(w);
    ExclusiveIsFeasible(w, acts);
    WithinAlongExactlyWhen(w, acts);
    AttemptCountsWins(w, acts, id);
    hide Core, ClaimsInv, LogsInv, Exclusive, Limited, Run, Wins;
    assert WithinAt(w, acts, |acts|) && acts[..|acts|] == acts;
  }

  // ---- and how often a job can be claimed past it ----

  /** A failure parks the job while it has fewer than five attempts, whatever its
      limit. */
  lemma FailBack(w: World) returns (a: Action)
    requires RowsInv(w) && Idle(w, Running) && w.db.jobs[0].attempt < TRANSIENT_MAX_ATTEMPTS
    requires w.db.jobs[0].leaseUntil == Some(w.clock + LEASE_SECONDS)
    ensures !a.DoFinish? && Enabled(w, a) && !Collides(w, a) && !WinsNow(w, a, 0)
    ensures Idle(Apply(w, a), RetryWait) && SameCount(w, Apply(w, a))
  {
    var row := w.db.jobs[0];
    a := DoFail(w.clock, row, Transient, NO_REPORT, Some(0.0), 0.0);
    assert ClassifyFailure(Transient, row.attempt, Some(0.0), 0.0) == Retry(0.0);
    FailedRow(w.db, row, Transient, NO_REPORT, Some(0.0), 0.0, w.clock, w.clock);
    hide Fail, ClassifyFailure;
  }

  /** The reaper parks it while its limit allows. */
  lemma ReapBack(w: World) returns (a: Action)
    requires RowsInv(w) && Idle(w, Running) && w.db.jobs[0].attempt < w.db.jobs[0].maxAttempts
    requires w.db.jobs[0].leaseUntil == Some(w.clock + LEASE_SECONDS)
    ensures !a.DoFinish? && Enabled(w, a) && !Collides(w, a) && !WinsNow(w, a, 0)
    ensures var w' := Apply(w, a);
      Parked(w') && SameCount(w, w') && w'.db.jobs[0].availableAt >= w'.clock
  {
    a := DoReapExpired(w.clock + LEASE_SECONDS, map[]);
    var row := w.db.jobs[0];
    assert Apply(w, a).db.jobs[0] == ReapRow(row, a.now, 0.0);
    hide JitteredBackoff;
  }

  /** Job 0 waits for its time, nobody at work on it. */
  ghost predicate Parked(w: World) {
    w.pending == map[] && w.db.locks == map[] && w.db.jobs.Keys == {0} && w.db.jobs[0].state == RetryWait
  }

  lemma RequeueInTime(w: World) returns (a: Action)
    requires Parked(w) && w.db.jobs[0].availableAt >= w.clock
    ensures !a.DoFinish? && Enabled(w, a) && !Collides(w, a) && !WinsNow(w, a, 0)
    ensures Idle(Apply(w, a), Queued) && SameCount(w, Apply(w, a))
  {
    a := DoRequeueDue(w.db.jobs[0].availableAt);
    assert Apply(w, a).db.jobs[0] == RequeueRow(w.db.jobs[0], a.now);
  }

  /** With fewer than max(5, max_attempts) attempts the job gets back to its
      queue, without anyone finishing it. */
  lemma BackToQueue(w: World) returns (acts: seq<Action>, w': World)
    requires Inv(w) && Idle(w, Running) && w.db.jobs[0].leaseUntil == Some(w.clock + LEASE_SECONDS)
    requires w.db.jobs[0].attempt < Max(TRANSIENT_MAX_ATTEMPTS, w.db.jobs[0].maxAttempts)
    ensures Leads(w, acts, w', 0) && Inv(w') && Idle(w', Queued) && SameCount(w, w')
    ensures forall a :: a in acts ==> !a.DoFinish?
  {
    hide Inv, Enabled, Collides, Apply, WinsNow, Leads;
    InvRows(w);
    var a1, a2;
    if w.db.jobs[0].attempt < TRANSIENT_MAX_ATTEMPTS {
      a1 := FailBack(w);
      a2 := CycleRequeue(Apply(w, a1));
    } else {
      a1 := ReapBack(w);
      a2 := RequeueInTime(Apply(w, a1));
    }
    TwoLead(w, a1, a2, 0);
    acts, w' := [a1] + [a2], Apply(Apply(w, a1), a2);
  }

  /** From a queued job claimed `k` times so far, a run that claims it
      max(5, max_attempts) times in all. */
  lemma {:induction false} ClaimAll(w: World, k: nat, m: int) returns (acts: seq<Action>, w': World)
    requires Inv(w) && Idle(w, Queued) && k < Max(TRANSIENT_MAX_ATTEMPTS, m)
    requires w.db.jobs[0].attempt == k && w.db.jobs[0].maxAttempts == m
    ensures Leads(w, acts, w', Max(TRANSIENT_MAX_ATTEMPTS, m) - k)
    ensures 0 in w'.db.jobs && w'.db.jobs[0].maxAttempts == m
    ensures forall a :: a in acts ==> !a.DoFinish?
    decreases Max(TRANSIENT_MAX_ATTEMPTS, m) - k
  {
    hide Inv, Apply, Leads;
    var token := FreshToken(w.issued);
    var go, w1 := ClaimOnce(w, token);
    if k + 1 == Max(TRANSIENT_MAX_ATTEMPTS, m) {
      acts, w' := go, w1;
    } else {
      var back, w2 := BackToQueue(w1);
      var rest, end := ClaimAll(w2, k + 1, m);
      LeadsChain(w, go, w1, 1, back, w2, 0);
      LeadsChain(w, go + back, w2, 1, rest, end, Max(TRANSIENT_MAX_ATTEMPTS, m) - (k + 1));
      acts, w' := (go + back) + rest, end;
    }
  }

  lemma EnqueueLimited(w: World, m: int) returns (a: Action)
    requires Initial(w)
    ensures !a.DoFinish? && Leads(w, [a], Apply(w, a), 0)
    ensures var w' := Apply(w, a);
      Inv(w') && Idle(w', Queued) && w'.db.jobs[0].attempt == 0 && w'.db.jobs[0].maxAttempts == m
  {
    a := DoEnqueue(w.clock, 0, "fetch", "", Some(m), 0);
    var row := NewRow(0, 0, "fetch", "", Some(m), w.clock);
    assert InsertJob(w.db, row).jobs == map[0 := row];
    InitialInv(w);
    hide Inv;
    StepKeepsInv(w, a);
    hide Enqueue;
    OneLeads(w, a, 0);
  }

  /** The bound max(5, max_attempts) is attained for every limit, without
      collisions and without `finish`: failing transiently alone takes a job past
      a limit under five. */
  lemma BoundIsAttained(w: World, m: int) returns (acts: seq<Action>, w': World)
    requires Initial(w)
    ensures Exclusive(w, acts) && w' == Run(w, acts) && (forall a :: a in acts ==> !a.DoFinish?)
    ensures 0 in w'.db.jobs && w'.db.jobs[0].maxAttempts == m
    ensures Wins(w, acts, 0) == Max(5, m)
  {
    hide Inv, Initial, Enabled, Collides, Apply, WinsNow, Exclusive, Run, Wins, Idle;
    var a := EnqueueLimited(w, m);
    var rest, end := ClaimAll(Apply(w, a), 0, m);
    LeadsChain(w, [a], Apply(w, a), 0, rest, end, Max(5, m));
    acts, w' := [a] + rest, end;
  }
}
