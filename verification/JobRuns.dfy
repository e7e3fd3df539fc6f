/** The queue as a transition system. A world is the storage plus what its
    users carry: claims between lock and write, every row version any caller
    may still hold, and the lease tokens handed out. An action names one
    atomic step with its choices; a run is a sequence of enabled actions. */
module JobRuns {
  import opened Options
  import opened JobRecords
  import opened JobSpec

  /** A claim between its lock and its write; the token it will write is its
      key in the world. */
  datatype Pending = Pending(session: Session, id: JobId, now: Time)

  datatype World = World(
    db: Db,
    clock: Time,
    pending: map<Token, Pending>,
    seen: set<JobRow>,
    issued: set<Token>)

  datatype Action =
    | DoEnqueue(now: Time, owner: OwnerId, kind: string, key: string, maxAttempts: Option<int>, freshId: JobId)
    | DoClaimLock(now: Time, session: Session, kinds: set<string>, token: Token, pick: Option<JobId>)
    | DoClaimWrite(now: Time, token: Token)
    | DoHeartbeat(now: Time, id: JobId, token: Token)
    | DoStartStep(now: Time, job: JobRow, stepKey: string, inputHash: string)
    | DoCompleteStep(now: Time, job: JobRow, stepKey: string, inputHash: string,
                     outputRef: Option<string>, progress: Option<Progress>)
    | DoFinish(now: Time, job: JobRow, target: State, outputRef: Option<string>,
               error: Option<JobError>, progress: Option<Progress>)
    | DoFail(now: Time, job: JobRow, cls: ErrorClass, report: Report, retryAfter: Option<real>, draw: real)
    | DoRequestCancel(now: Time, id: JobId)
    | DoRequeueDue(now: Time)
    | DoReapExpired(now: Time, draws: map<JobId, real>)

  ghost predicate Initial(w: World) {
    w.db == EMPTY_DB && w.pending == map[] && w.seen == {} && w.issued == {}
  }

  /** Clocks never run back, tokens and ids are fresh, and a snapshot is some row
      version that was once stored. Nothing keeps a session from starting a
      claim while another of its claims is in flight. */
  ghost predicate Enabled(w: World, a: Action) {
    && a.now >= w.clock
    && match a
       case DoEnqueue(_, _, _, _, _, freshId) => freshId !in w.db.jobs
       case DoClaimLock(now, session, kinds, token, pick) =>
         token !in w.issued && IsPick(w.db, session, now, kinds, pick)
       case DoClaimWrite(_, token) => token in w.pending
       case DoStartStep(_, job, _, _) => job in w.seen
       case DoCompleteStep(_, job, _, _, _, _) => job in w.seen
       case DoFinish(_, job, _, _, _, _) => job in w.seen
       case DoFail(_, job, _, _, _, draw) => job in w.seen && 0.0 <= draw < 1.0
       case DoReapExpired(_, draws) => forall id :: id in draws ==> 0.0 <= draws[id] < 1.0
       case _ => true
  }

  function DbAfter(w: World, a: Action): Db {
    var db := w.db;
    match a
    case DoEnqueue(now, owner, kind, key, maxAttempts, freshId) =>
      Enqueue(db, owner, kind, key, maxAttempts, freshId, now).0
    case DoClaimLock(_, session, _, _, pick) => Lock(db, session, pick)
    case DoClaimWrite(_, token) =>
      if token in w.pending && w.pending[token].id in db.jobs
      then ClaimWrite(db, w.pending[token].id, token, w.pending[token].now)
      else db
    case DoHeartbeat(now, id, token) => Heartbeat(db, id, token, now)
    case DoStartStep(now, job, stepKey, inputHash) => StartStep(db, job, stepKey, inputHash, now).0
    case DoCompleteStep(now, job, stepKey, inputHash, outputRef, progress) =>
      CompleteStep(db, job, stepKey, inputHash, outputRef, progress, now).0
    case DoFinish(now, job, target, outputRef, error, progress) =>
      Finish(db, job, target, outputRef, error, progress, now).0
    case DoFail(now, job, cls, report, retryAfter, draw) =>
      Fail(db, job, cls, report, retryAfter, draw, now).0
    case DoRequestCancel(now, id) => RequestCancel(db, id, now)
    case DoRequeueDue(now) => RequeueDue(db, now)
    case DoReapExpired(now, draws) => ReapExpired(db, now, draws)
  }

  ghost function Apply(w: World, a: Action): World {
    var db' := DbAfter(w, a);
    World(
      db',
      a.now,
      match a
      case DoClaimLock(now, session, _, token, pick) =>
        if pick.Some? then w.pending[token := Pending(session, pick.value, now)] else w.pending
      case DoClaimWrite(_, token) => w.pending - {token}
      case _ => w.pending,
      w.seen + db'.jobs.Values,
      if a.DoClaimLock? then w.issued + {a.token} else w.issued)
  }

  ghost function Run(w: World, acts: seq<Action>): World
    decreases |acts|
  {
    if acts == [] then w else Run(Apply(w, acts[0]), acts[1..])
  }

  ghost predicate Feasible(w: World, acts: seq<Action>)
    decreases |acts|
  {
    acts == [] || (Enabled(w, acts[0]) && Feasible(Apply(w, acts[0]), acts[1..]))
  }

  /** The claim starts while an earlier one of its session is in flight on the
      very row its scan picks: the scan skips only what other sessions locked. */
  ghost predicate Collides(w: World, a: Action) {
    a.DoClaimLock? && exists t :: t in w.pending && CollidesWith(w, a, t)
  }

  ghost predicate CollidesWith(w: World, a: Action, t: Token)
    requires a.DoClaimLock? && t in w.pending
  {
    w.pending[t].session == a.session && IsPick(w.db, a.session, a.now, a.kinds, Some(w.pending[t].id))
  }

  /** A run in which no claim collides. */
  ghost predicate Exclusive(w: World, acts: seq<Action>)
    decreases |acts|
  {
    acts == [] || (Enabled(w, acts[0]) && !Collides(w, acts[0]) && Exclusive(Apply(w, acts[0]), acts[1..]))
  }

  lemma {:induction false} ExclusiveIsFeasible(w: World, acts: seq<Action>)
    requires Exclusive(w, acts)
    ensures Feasible(w, acts)
    decreases |acts|
  {
    hide Enabled, Collides, Apply;
    if acts != [] { ExclusiveIsFeasible(Apply(w, acts[0]), acts[1..]); }
  }

  lemma {:induction false} RunPrefix(w: World, acts: seq<Action>, j: nat)
    requires j <= |acts|
    ensures Feasible(w, acts) ==> Feasible(w, acts[..j])
    ensures Exclusive(w, acts) ==> Exclusive(w, acts[..j])
    decreases j
  {
    hide Enabled, Collides, Apply;
    if j > 0 {
      RunPrefix(Apply(w, acts[0]), acts[1..], j - 1);
      assert acts[..j][1..] == acts[1..][..j - 1];
    }
  }

  /** A run goes on from any of its points. */
  lemma {:induction false} RunParts(w: World, acts: seq<Action>, i: nat, j: nat)
    requires i <= j <= |acts|
    ensures Run(w, acts[..j]) == Run(Run(w, acts[..i]), acts[i..j])
    ensures Feasible(w, acts) ==> Feasible(Run(w, acts[..i]), acts[i..j])
    ensures Exclusive(w, acts) ==> Exclusive(Run(w, acts[..i]), acts[i..j])
    decreases i
  {
    hide Enabled, Collides, Apply;
    if i == 0 {
      assert acts[..0] == [] && acts[0..j] == acts[..j];
      RunPrefix(w, acts, j);
    } else {
      RunParts(Apply(w, acts[0]), acts[1..], i - 1, j - 1);
      assert acts[..j][1..] == acts[1..][..j - 1] && acts[..i][1..] == acts[1..][..i - 1];
      assert acts[i..j] == acts[1..][i - 1..j - 1];
    }
  }

  /** What holds in every world a run reaches, colliding claims or not. */
  ghost predicate Core(w: World) {
    && RowsInv(w)
    && TokensInv(w)
    && PendingInv(w)
    && KeysInv(w.db)
    && EventsInv(w.db)
  }

  /** What holds besides as long as no claim collides. */
  ghost predicate Inv(w: World) {
    && Core(w)
    && ClaimsInv(w)
    && LogsInv(w.db)
  }

  /** A row carries a lease exactly while it is running. */
  ghost predicate RowOk(r: JobRow) {
    && (r.leaseToken.Some? <==> r.state == Running)
    && (r.leaseUntil.Some? <==> r.state == Running)
  }

  ghost predicate RowsInv(w: World) {
    && (forall id :: id in w.db.jobs ==> w.db.jobs[id].id == id && w.db.jobs[id] in w.seen)
    && (forall v :: v in w.seen ==> RowOk(v) && v.id in w.db.jobs)
  }

  /** One token, one job, one attempt: over every version ever stored. */
  ghost predicate TokensInv(w: World) {
    TokensOk(w.seen, w.issued)
  }

  ghost predicate TokensOk(seen: set<JobRow>, issued: set<Token>) {
    && (forall v :: v in seen && v.leaseToken.Some? ==> v.leaseToken.value in issued)
    && (forall u, v :: u in seen && v in seen && u.leaseToken.Some? && u.leaseToken == v.leaseToken ==>
          u.id == v.id && u.attempt == v.attempt && u.maxAttempts == v.maxAttempts)
  }

  /** Claims in flight will write tokens nobody has seen. */
  ghost predicate PendingInv(w: World) {
    forall t :: t in w.pending ==>
      && w.pending[t].id in w.db.jobs
      && t in w.issued
      && forall v :: v in w.seen ==> v.leaseToken != Some(t)
  }

  /** Claims in flight hold distinct rows, queued and locked by their sessions,
      and nothing else is locked. */
  ghost predicate ClaimsInv(w: World) {
    && HeldInv(w)
    && LocksInv(w)
    && forall t, u :: t in w.pending && u in w.pending && t != u ==> w.pending[t].id != w.pending[u].id
  }

  ghost predicate HeldInv(w: World) {
    forall t :: t in w.pending ==>
      var p := w.pending[t];
      p.id in w.db.jobs && w.db.jobs[p.id].state == Queued && p.id in w.db.locks && w.db.locks[p.id] == p.session
  }

  ghost predicate LocksInv(w: World) {
    forall id :: id in w.db.locks ==> InFlight(w, id)
  }

  ghost predicate InFlight(w: World, id: JobId) {
    exists t :: t in w.pending && w.pending[t].id == id
  }

  /** One job per (owner, kind, idempotency key), and every job has its entry. */
  ghost predicate KeysInv(db: Db) {
    && (forall k :: k in db.idem ==>
          db.idem[k] in db.jobs && k == KeyOf(db.jobs[db.idem[k]]))
    && (forall id :: id in db.jobs ==> KeyOf(db.jobs[id]) in db.idem && db.idem[KeyOf(db.jobs[id])] == id)
  }

  function KeyOf(r: JobRow): IdemKey {
    (r.ownerId, r.kind, r.key)
  }

  /** Numbered 1..n and opened by `queued`. */
  ghost predicate Numbered(log: seq<Event>) {
    && log != []
    && (forall i :: 0 <= i < |log| ==> log[i].num == i + 1)
    && (forall i :: 0 <= i < |log| ==> (log[i].body == EvQueued <==> i == 0))
  }

  /** Every job has such a log. */
  ghost predicate EventsInv(db: Db) {
    && db.events.Keys == db.jobs.Keys
    && forall id :: id in db.jobs ==> Numbered(db.events[id])
  }

  /** Closed by at most one finish event, which stands last and only on a
      finished row. */
  ghost predicate LogOk(log: seq<Event>, state: State) {
    && Numbered(log)
    && (forall i :: 0 <= i < |log| && FinishEvent(log[i].body) ==> i == |log| - 1 && Finished(state))
  }

  ghost predicate LogsInv(db: Db) {
    && db.events.Keys == db.jobs.Keys
    && forall id :: id in db.jobs ==> LogOk(db.events[id], db.jobs[id].state)
  }

  // ---- what one step may do to one row ----

  /** The effect of every action except enqueue and the claim's write. */
  ghost predicate RowStep(r: JobRow, r': JobRow, now: Time) {
    && r'.id == r.id && KeyOf(r') == KeyOf(r)
    && r'.maxAttempts == r.maxAttempts && r'.attempt == r.attempt
    && RowOk(r')
    && (r'.leaseToken.Some? ==> r'.leaseToken == r.leaseToken)
    && (r'.leaseToken.Some? && r'.leaseUntil != r.leaseUntil ==> r.leaseUntil.Some? && r.leaseUntil.value > now)
    && (r'.state != r.state ==> (r.state == Running && Allowed(Running, r'.state)) || (r.state == RetryWait && r'.state == Queued))
    && (r.state != Running && r.state != RetryWait ==> r' == r.(cancelRequestedAt := r'.cancelRequestedAt))
    && (r.state == RetryWait ==> r' == r.(cancelRequestedAt := r'.cancelRequestedAt, state := r'.state))
    && (Terminal(r.state) ==> r' == r)
    && r.progress.Keys <= r'.progress.Keys
  }

  ghost predicate RowsStep(db: Db, db': Db, now: Time) {
    && db'.jobs.Keys == db.jobs.Keys
    && db'.idem == db.idem
    && db'.locks == db.locks
    && forall id :: id in db.jobs ==> RowStep(db.jobs[id], db'.jobs[id], now)
  }

  ghost predicate RowsFine(db: Db) {
    forall id :: id in db.jobs ==> db.jobs[id].id == id && RowOk(db.jobs[id])
  }

  /** The actions that rewrite rows in place. */
  predicate OnRows(a: Action) {
    !a.DoEnqueue? && !a.DoClaimLock? && !a.DoClaimWrite?
  }

  lemma OneRowStep(db: Db, id: JobId, v: Values, now: Time)
    requires RowsFine(db) && id in db.jobs
    requires RowStep(db.jobs[id], Update(db.jobs[id], v), now)
    ensures RowsStep(db, Put(db, id, Update(db.jobs[id], v)), now)
  {}

  lemma StartStepRows(db: Db, job: JobRow, stepKey: string, inputHash: string, now: Time)
    requires RowsFine(db)
    ensures RowsStep(db, StartStep(db, job, stepKey, inputHash, now).0, now)
  {
    if Holds(db, job, now) { OneRowStep(db, job.id, Beat(now), now); }
  }

  lemma CompleteStepRows(db: Db, job: JobRow, stepKey: string, inputHash: string, outputRef: Option<string>,
                         progress: Option<Progress>, now: Time)
    requires RowsFine(db)
    ensures RowsStep(db, CompleteStep(db, job, stepKey, inputHash, outputRef, progress, now).0, now)
  {
    if Holds(db, job, now) {
      OneRowStep(db, job.id, Beat(now), now);
      OneRowStep(db, job.id, Beat(now).(progress := Merged(db, job, progress)), now);
    }
  }

  lemma FinishedRowStep(r: JobRow, v: Values, now: Time)
    requires RowOk(r) && r.state == Running && v.dropLease
    requires v.state.Some? && Allowed(Running, v.state.value)
    requires v.progress.Some? ==> r.progress.Keys <= v.progress.value.Keys
    ensures RowStep(r, Update(r, v), now)
  {}

  lemma FinishRows(db: Db, job: JobRow, target: State, outputRef: Option<string>, error: Option<JobError>,
                   progress: Option<Progress>, now: Time)
    requires RowsFine(db) && RowOk(job)
    ensures RowsStep(db, Finish(db, job, target, outputRef, error, progress, now).0, now)
  {
    if Allowed(job.state, target) && Holds(db, job, now) {
      var values := NO_VALUES.(state := Some(target), dropLease := true, heartbeatAt := Some(now),
                               outputRef := outputRef, error := error, progress := Merged(db, job, progress));
      FinishedRowStep(db.jobs[job.id], values, now);
      hide RowStep, Update;
      OneRowStep(db, job.id, values, now);
      hide RowsFine, RowOk, Allowed;
    }
  }

  lemma ParkRows(db: Db, job: JobRow, delay: real, error: JobError, now: Time)
    requires RowsFine(db)
    ensures RowsStep(db, Park(db, job, delay, error, now).0, now)
  {
    if Holds(db, job, now) {
      OneRowStep(db, job.id,
        NO_VALUES.(state := Some(RetryWait), availableAt := Some(now + delay), dropLease := true,
                   heartbeatAt := Some(now), error := Some(error)), now);
    }
  }

  lemma FailRows(db: Db, job: JobRow, cls: ErrorClass, report: Report, retryAfter: Option<real>,
                 draw: real, now: Time)
    requires RowsFine(db) && RowOk(job)
    ensures RowsStep(db, Fail(db, job, cls, report, retryAfter, draw, now).0, now)
  {
    var error := JobError(ErrorCode(cls), report, [], false, None);
    match ClassifyFailure(cls, job.attempt, retryAfter, draw)
    case Handler(_) =>
    case Cancel => FinishRows(db, job, Cancelled, None, Some(error), None, now);
    case GiveUp(audit) => FinishRows(db, job, Failed, None, Some(error.(audit := audit)), None, now);
    case Retry(delay) => ParkRows(db, job, delay, error, now);
  }

  lemma ReapRows(db: Db, now: Time, draws: map<JobId, real>)
    requires RowsFine(db)
    ensures RowsStep(db, ReapExpired(db, now, draws), now)
  {
    forall id | id in db.jobs
      ensures RowStep(db.jobs[id], ReapRow(db.jobs[id], now, Draw(draws, id)), now)
    {
    }
  }

  lemma RequeueRows(db: Db, now: Time)
    requires RowsFine(db)
    ensures RowsStep(db, RequeueDue(db, now), now)
  {
    forall id | id in db.jobs ensures RowStep(db.jobs[id], RequeueRow(db.jobs[id], now), now) {
    }
  }

  lemma CancelRows(db: Db, id: JobId, now: Time)
    requires RowsFine(db)
    ensures RowsStep(db, RequestCancel(db, id, now), now)
  {
    if id in db.jobs && Cancellable(db.jobs[id].state) { CancelRow(db.jobs[id], now); }
    forall other | other in db.jobs && other != id ensures RowStep(db.jobs[other], db.jobs[other], now) {}
    hide RowStep, RowOk;
  }

  lemma CancelRow(r: JobRow, now: Time)
    requires RowOk(r) && Cancellable(r.state)
    ensures RowStep(r, r.(cancelRequestedAt := Some(now)), now)
    ensures RowStep(r, r, now)
  {}

  lemma HeartbeatRows(db: Db, id: JobId, token: Token, now: Time)
    requires RowsFine(db)
    ensures RowsStep(db, Heartbeat(db, id, token, now), now)
  {
    if Current(db, id, token, now) {
      OneRowStep(db, id, NO_VALUES.(leaseUntil := Some(now + LEASE_SECONDS), heartbeatAt := Some(now)), now);
    }
  }

  lemma StepRows(w: World, a: Action)
    requires RowsInv(w) && Enabled(w, a) && OnRows(a)
    ensures RowsStep(w.db, DbAfter(w, a), a.now)
  {
    assert RowsFine(w.db);
    match a
    case DoHeartbeat(now, id, token) => HeartbeatRows(w.db, id, token, now);
    case DoStartStep(now, job, stepKey, inputHash) => StartStepRows(w.db, job, stepKey, inputHash, now);
    case DoCompleteStep(now, job, stepKey, inputHash, outputRef, progress) =>
      CompleteStepRows(w.db, job, stepKey, inputHash, outputRef, progress, now);
    case DoFinish(now, job, target, outputRef, error, progress) =>
      FinishRows(w.db, job, target, outputRef, error, progress, now);
    case DoFail(now, job, cls, report, retryAfter, draw) =>
      FailRows(w.db, job, cls, report, retryAfter, draw, now);
    case DoReapExpired(now, draws) => ReapRows(w.db, now, draws);
    case DoRequeueDue(now) => RequeueRows(w.db, now);
    case DoRequestCancel(now, id) => CancelRows(w.db, id, now);
  }

  // ---- what one step may do to one event log ----

  /** A log only grows at its end, and only while its row is running. */
  ghost predicate LogStep(log: seq<Event>, log': seq<Event>, state: State, state': State) {
    && log <= log'
    && (log' != log ==> state == Running)
    && LogOk(log', state')
  }

  ghost predicate LogsStep(db: Db, db': Db) {
    && db'.jobs.Keys == db.jobs.Keys
    && db'.events.Keys == db.events.Keys
    && forall id :: id in db.events && id in db.jobs ==>
         LogStep(db.events[id], db'.events[id], db.jobs[id].state, db'.jobs[id].state)
  }

  lemma {:induction false} MaxNumIsLength(log: seq<Event>)
    requires forall i :: 0 <= i < |log| ==> log[i].num == i + 1
    ensures MaxNum(log) == |log|
  {
    if log != [] { MaxNumIsLength(log[..|log| - 1]); }
  }

  function Extend(log: seq<Event>, body: EventBody, now: Time): seq<Event> {
    log + [Event(MaxNum(log) + 1, body, now)]
  }

  lemma ExtendOk(log: seq<Event>, body: EventBody, now: Time, state: State)
    requires LogOk(log, Running)
    requires body != EvQueued && (FinishEvent(body) ==> Finished(state))
    ensures LogOk(Extend(log, body, now), state)
    ensures log <= Extend(log, body, now)
  {
    MaxNumIsLength(log);
  }

  lemma Untouched(log: seq<Event>, state: State, state': State)
    requires LogOk(log, state)
    requires Finished(state) ==> state' == state
    ensures LogStep(log, log, state, state')
  {}

  /** Every log but `id`'s is as before; `id`'s was extended as `grown`. */
  lemma OneLogStep(db: Db, db': Db, id: JobId, grown: seq<Event>, now: Time)
    requires LogsInv(db) && RowsStep(db, db', now)
    requires id in db.jobs && db.jobs[id].state == Running
    requires db'.events == db.events[id := grown]
    requires db.events[id] <= grown && LogOk(grown, db'.jobs[id].state)
    ensures LogsStep(db, db')
  {
    forall other | other in db.jobs
      ensures LogStep(db.events[other], db'.events[other], db.jobs[other].state, db'.jobs[other].state)
    {
      if other != id {
        assert RowStep(db.jobs[other], db'.jobs[other], now);
        Untouched(db.events[other], db.jobs[other].state, db'.jobs[other].state);
      }
    }
  }

  lemma SameLogs(db: Db, db': Db, now: Time)
    requires LogsInv(db) && RowsStep(db, db', now) && db'.events == db.events
    ensures LogsStep(db, db')
  {
    forall id | id in db.jobs
      ensures LogStep(db.events[id], db'.events[id], db.jobs[id].state, db'.jobs[id].state)
    {
      assert RowStep(db.jobs[id], db'.jobs[id], now);
      Untouched(db.events[id], db.jobs[id].state, db'.jobs[id].state);
    }
  }

  /** A step that adds at most one event, to a log whose row was running. */
  ghost predicate AddsOne(db: Db, db': Db, id: JobId, body: EventBody, now: Time) {
    db'.events == db.events
    || (id in db.jobs && id in db.events && id in db'.jobs && db.jobs[id].state == Running
        && body != EvQueued && (FinishEvent(body) ==> Finished(db'.jobs[id].state))
        && db'.events == db.events[id := Extend(db.events[id], body, now)])
  }

  lemma OneMoreEvent(db: Db, db': Db, id: JobId, body: EventBody, now: Time)
    requires LogsInv(db) && RowsStep(db, db', now) && AddsOne(db, db', id, body, now)
    ensures LogsStep(db, db')
  {
    if db'.events == db.events {
      SameLogs(db, db', now);
    } else {
      ExtendOk(db.events[id], body, now, db'.jobs[id].state);
      OneLogStep(db, db', id, Extend(db.events[id], body, now), now);
    }
  }

  lemma StartStepEffect(db: Db, job: JobRow, stepKey: string, inputHash: string, now: Time)
    requires RowsFine(db) && db.events.Keys == db.jobs.Keys
    ensures AddsOne(db, StartStep(db, job, stepKey, inputHash, now).0, job.id, EvStageStarted(stepKey), now)
  {}

  lemma StartStepLogs(db: Db, job: JobRow, stepKey: string, inputHash: string, now: Time)
    requires RowsFine(db) && LogsInv(db)
    ensures LogsStep(db, StartStep(db, job, stepKey, inputHash, now).0)
  {
    StartStepRows(db, job, stepKey, inputHash, now);
    StartStepEffect(db, job, stepKey, inputHash, now);
    OneMoreEvent(db, StartStep(db, job, stepKey, inputHash, now).0, job.id, EvStageStarted(stepKey), now);
  }

  function StepLog(log: seq<Event>, stepKey: string, outputRef: Option<string>,
                   progress: Option<Progress>, now: Time): seq<Event>
  {
    var mid := if outputRef.Some? then Extend(log, EvArtifactReady(stepKey, outputRef.value), now) else log;
    if progress.Some? then Extend(mid, EvProgress(progress.value), now) else mid
  }

  lemma StepLogOk(log: seq<Event>, stepKey: string, outputRef: Option<string>, progress: Option<Progress>, now: Time)
    requires LogOk(log, Running)
    ensures LogOk(StepLog(log, stepKey, outputRef, progress, now), Running)
    ensures log <= StepLog(log, stepKey, outputRef, progress, now)
  {
    var mid := log;
    if outputRef.Some? {
      ExtendOk(log, EvArtifactReady(stepKey, outputRef.value), now, Running);
      mid := Extend(log, EvArtifactReady(stepKey, outputRef.value), now);
    }
    if progress.Some? { ExtendOk(mid, EvProgress(progress.value), now, Running); }
  }

  lemma CompleteStepEffect(db: Db, job: JobRow, stepKey: string, inputHash: string, outputRef: Option<string>,
                           progress: Option<Progress>, now: Time)
    requires db.events.Keys == db.jobs.Keys
    ensures var db' := CompleteStep(db, job, stepKey, inputHash, outputRef, progress, now).0;
      db'.events == db.events
      || (Holds(db, job, now) && db'.jobs[job.id].state == db.jobs[job.id].state
          && db'.events == db.events[job.id := StepLog(db.events[job.id], stepKey, outputRef, progress, now)])
  {
    if Holds(db, job, now) && outputRef.Some? && progress.Some? {
      var mid := Append(db, job.id, EvArtifactReady(stepKey, outputRef.value), now).events;
      var end := StepLog(db.events[job.id], stepKey, outputRef, progress, now);
      assert mid[job.id := end] == db.events[job.id := end];
    }
  }

  lemma CompleteStepLogs(db: Db, job: JobRow, stepKey: string, inputHash: string, outputRef: Option<string>,
                         progress: Option<Progress>, now: Time)
    requires RowsFine(db) && LogsInv(db)
    ensures LogsStep(db, CompleteStep(db, job, stepKey, inputHash, outputRef, progress, now).0)
  {
    CompleteStepRows(db, job, stepKey, inputHash, outputRef, progress, now);
    CompleteStepEffect(db, job, stepKey, inputHash, outputRef, progress, now);
    var db' := CompleteStep(db, job, stepKey, inputHash, outputRef, progress, now).0;
    CommitLogs(db, db', job.id, stepKey, outputRef, progress, now);
  }

  lemma CommitLogs(db: Db, db': Db, id: JobId, stepKey: string, outputRef: Option<string>,
                   progress: Option<Progress>, now: Time)
    requires LogsInv(db) && RowsStep(db, db', now)
    requires db'.events == db.events
      || (id in db.jobs && db'.jobs[id].state == db.jobs[id].state == Running
          && db'.events == db.events[id := StepLog(db.events[id], stepKey, outputRef, progress, now)])
    ensures LogsStep(db, db')
  {
    if db'.events == db.events {
      SameLogs(db, db', now);
    } else {
      StepLogOk(db.events[id], stepKey, outputRef, progress, now);
      OneLogStep(db, db', id, StepLog(db.events[id], stepKey, outputRef, progress, now), now);
    }
  }

  lemma FinishEffect(db: Db, job: JobRow, target: State, outputRef: Option<string>, error: Option<JobError>,
                     progress: Option<Progress>, now: Time)
    returns (body: EventBody)
    requires RowsFine(db) && db.events.Keys == db.jobs.Keys
    ensures AddsOne(db, Finish(db, job, target, outputRef, error, progress, now).0, job.id, body, now)
  {
    var event := TerminalEvent(target, error);
    body := Or(event, EvQueued);
    var db' := Finish(db, job, target, outputRef, error, progress, now).0;
    if Allowed(job.state, target) && !LacksGaps(target, error) && Holds(db, job, now) {
      if event.Some? {
        assert db'.events == db.events[job.id := Extend(db.events[job.id], body, now)];
        assert db'.jobs[job.id].state == target;
      }
    }
  }

  lemma FinishLogs(db: Db, job: JobRow, target: State, outputRef: Option<string>, error: Option<JobError>,
                   progress: Option<Progress>, now: Time)
    requires RowsFine(db) && RowOk(job) && LogsInv(db)
    ensures LogsStep(db, Finish(db, job, target, outputRef, error, progress, now).0)
  {
    FinishRows(db, job, target, outputRef, error, progress, now);
    var body := FinishEffect(db, job, target, outputRef, error, progress, now);
    OneMoreEvent(db, Finish(db, job, target, outputRef, error, progress, now).0, job.id, body, now);
  }

  lemma FailEffect(db: Db, job: JobRow, cls: ErrorClass, report: Report, retryAfter: Option<real>,
                   draw: real, now: Time)
    returns (body: EventBody)
    requires RowsFine(db) && db.events.Keys == db.jobs.Keys
    ensures AddsOne(db, Fail(db, job, cls, report, retryAfter, draw, now).0, job.id, body, now)
  {
    var error := JobError(ErrorCode(cls), report, [], false, None);
    match ClassifyFailure(cls, job.attempt, retryAfter, draw)
    case Handler(_) => body := EvQueued;
    case Cancel => body := FinishEffect(db, job, Cancelled, None, Some(error), None, now);
    case GiveUp(audit) => body := FinishEffect(db, job, Failed, None, Some(error.(audit := audit)), None, now);
    case Retry(delay) => body := EvRetry(delay, Some(error));
  }

  lemma FailLogs(db: Db, job: JobRow, cls: ErrorClass, report: Report, retryAfter: Option<real>,
                 draw: real, now: Time)
    requires RowsFine(db) && RowOk(job) && LogsInv(db)
    ensures LogsStep(db, Fail(db, job, cls, report, retryAfter, draw, now).0)
  {
    FailRows(db, job, cls, report, retryAfter, draw, now);
    var body := FailEffect(db, job, cls, report, retryAfter, draw, now);
    OneMoreEvent(db, Fail(db, job, cls, report, retryAfter, draw, now).0, job.id, body, now);
  }

  lemma FineRows(w: World)
    requires RowsInv(w)
    ensures RowsFine(w.db)
  {}

  lemma FineSnapshot(w: World, job: JobRow)
    requires RowsInv(w) && job in w.seen
    ensures RowOk(job)
  {}

  lemma UpkeepLogs(w: World, a: Action)
    requires a.DoHeartbeat? || a.DoRequestCancel? || a.DoRequeueDue? || a.DoReapExpired?
    ensures DbAfter(w, a).events == w.db.events
  {}

  lemma StepLogs(w: World, a: Action)
    requires RowsInv(w) && LogsInv(w.db) && Enabled(w, a) && OnRows(a)
    ensures LogsStep(w.db, DbAfter(w, a))
  {
    StepRows(w, a);
    FineRows(w);
    hide RowsInv, RowsFine, RowOk, LogsInv, LogsStep, RowsStep, StartStep, CompleteStep, Finish, Fail;
    match a
    case DoStartStep(now, job, stepKey, inputHash) => StartStepLogs(w.db, job, stepKey, inputHash, now);
    case DoCompleteStep(now, job, stepKey, inputHash, outputRef, progress) =>
      CompleteStepLogs(w.db, job, stepKey, inputHash, outputRef, progress, now);
    case DoFinish(now, job, target, outputRef, error, progress) =>
      FineSnapshot(w, job);
      FinishLogs(w.db, job, target, outputRef, error, progress, now);
    case DoFail(now, job, cls, report, retryAfter, draw) =>
      FineSnapshot(w, job);
      FailLogs(w.db, job, cls, report, retryAfter, draw, now);
    case _ =>
      UpkeepLogs(w, a);
      hide DbAfter;
      SameLogs(w.db, DbAfter(w, a), a.now);
  }

  // ---- logs grow, whatever they hold ----

  /** Every log keeps what it has; only the log of a running row is added to. */
  ghost predicate LogsGrow(db: Db, db': Db) {
    forall id :: id in db.jobs ==>
      && id in db.events && id in db'.events && db.events[id] <= db'.events[id]
      && (db.jobs[id].state != Running ==> db'.events[id] == db.events[id])
  }

  lemma OneGrows(db: Db, db': Db, id: JobId, log: seq<Event>)
    requires EventsInv(db) && db'.jobs.Keys == db.jobs.Keys && id in db.jobs && db.jobs[id].state == Running
    requires db.events[id] <= log && Numbered(log) && db'.events == db.events[id := log]
    ensures LogsGrow(db, db') && EventsInv(db')
  {
    hide Numbered;
  }

  lemma SameGrow(db: Db, db': Db)
    requires EventsInv(db) && db'.jobs.Keys == db.jobs.Keys && db'.events == db.events
    ensures LogsGrow(db, db') && EventsInv(db')
  {
    hide Numbered;
  }

  lemma ExtendNumbered(log: seq<Event>, body: EventBody, now: Time)
    requires Numbered(log) && body != EvQueued
    ensures Numbered(Extend(log, body, now)) && log <= Extend(log, body, now)
  {
    MaxNumIsLength(log);
  }

  lemma OneMoreGrows(db: Db, db': Db, id: JobId, body: EventBody, now: Time)
    requires EventsInv(db) && db'.jobs.Keys == db.jobs.Keys && AddsOne(db, db', id, body, now)
    ensures LogsGrow(db, db') && EventsInv(db')
  {
    hide LogsGrow, Numbered;
    if db'.events == db.events {
      SameGrow(db, db');
    } else {
      ExtendNumbered(db.events[id], body, now);
      OneGrows(db, db', id, Extend(db.events[id], body, now));
    }
  }

  lemma StepLogNumbered(log: seq<Event>, stepKey: string, outputRef: Option<string>, progress: Option<Progress>, now: Time)
    requires Numbered(log)
    ensures Numbered(StepLog(log, stepKey, outputRef, progress, now))
    ensures log <= StepLog(log, stepKey, outputRef, progress, now)
  {
    var mid := log;
    if outputRef.Some? {
      ExtendNumbered(log, EvArtifactReady(stepKey, outputRef.value), now);
      mid := Extend(log, EvArtifactReady(stepKey, outputRef.value), now);
    }
    if progress.Some? { ExtendNumbered(mid, EvProgress(progress.value), now); }
  }

  lemma CompleteStepGrows(db: Db, job: JobRow, stepKey: string, inputHash: string, outputRef: Option<string>,
                          progress: Option<Progress>, now: Time)
    requires RowsFine(db) && EventsInv(db)
    ensures LogsGrow(db, CompleteStep(db, job, stepKey, inputHash, outputRef, progress, now).0)
    ensures EventsInv(CompleteStep(db, job, stepKey, inputHash, outputRef, progress, now).0)
  {
    CompleteStepRows(db, job, stepKey, inputHash, outputRef, progress, now);
    CompleteStepEffect(db, job, stepKey, inputHash, outputRef, progress, now);
    hide CompleteStep, LogsGrow, Numbered, RowStep;
    var db' := CompleteStep(db, job, stepKey, inputHash, outputRef, progress, now).0;
    if db'.events == db.events {
      SameGrow(db, db');
    } else {
      StepLogNumbered(db.events[job.id], stepKey, outputRef, progress, now);
      OneGrows(db, db', job.id, StepLog(db.events[job.id], stepKey, outputRef, progress, now));
    }
  }

  lemma RowsStepKeys(db: Db, db': Db, now: Time)
    requires RowsStep(db, db', now)
    ensures db'.jobs.Keys == db.jobs.Keys
  {}

  lemma StepGrows(w: World, a: Action)
    requires RowsInv(w) && EventsInv(w.db) && Enabled(w, a) && OnRows(a)
    ensures LogsGrow(w.db, DbAfter(w, a)) && EventsInv(DbAfter(w, a))
  {
    FineRows(w);
    StepRows(w, a);
    RowsStepKeys(w.db, DbAfter(w, a), a.now);
    assert w.db.events.Keys == w.db.jobs.Keys;
    hide RowsInv, RowsFine, RowsStep, LogsGrow, EventsInv, AddsOne, StartStep, CompleteStep, Finish, Fail;
    match a
    case DoStartStep(now, job, stepKey, inputHash) =>
      StartStepEffect(w.db, job, stepKey, inputHash, now);
      OneMoreGrows(w.db, DbAfter(w, a), job.id, EvStageStarted(stepKey), now);
    case DoCompleteStep(now, job, stepKey, inputHash, outputRef, progress) =>
      CompleteStepGrows(w.db, job, stepKey, inputHash, outputRef, progress, now);
    case DoFinish(now, job, target, outputRef, error, progress) =>
      var body := FinishEffect(w.db, job, target, outputRef, error, progress, now);
      OneMoreGrows(w.db, DbAfter(w, a), job.id, body, now);
    case DoFail(now, job, cls, report, retryAfter, draw) =>
      var body := FailEffect(w.db, job, cls, report, retryAfter, draw, now);
      OneMoreGrows(w.db, DbAfter(w, a), job.id, body, now);
    case _ =>
      UpkeepLogs(w, a);
      hide DbAfter;
      SameGrow(w.db, DbAfter(w, a));
  }

  // ---- every step keeps the invariant ----

  /** `v` carries a token and attempt that some stored version has. */
  ghost predicate Known(w: World, v: JobRow) {
    && v.id in w.db.jobs && RowOk(v)
    && (v.leaseToken.Some? ==>
          exists u :: u in w.seen && u.leaseToken == v.leaseToken && u.id == v.id && u.attempt == v.attempt
            && u.maxAttempts == v.maxAttempts)
  }

  lemma SteppedIsKnown(w: World, id: JobId, v: JobRow, now: Time)
    requires RowsInv(w) && id in w.db.jobs && RowStep(w.db.jobs[id], v, now)
    ensures Known(w, v)
  {
    var u := w.db.jobs[id];
    hide RowOk, Allowed, Terminal, KeyOf;
    assert u in w.seen && u.id == v.id;
  }

  lemma StoredIsKnown(w: World, v: JobRow)
    requires RowsInv(w) && v in w.seen
    ensures Known(w, v)
  {}

  /** A version stored by a step carries a token and attempt already seen. */
  lemma NewVersions(w: World, a: Action, v: JobRow)
    requires RowsInv(w) && Enabled(w, a) && OnRows(a)
    requires v in Apply(w, a).seen
    ensures Known(w, v)
  {
    hide Known;
    if v in w.seen {
      StoredIsKnown(w, v);
    } else {
      StepRows(w, a);
      hide DbAfter, Enabled, RowStep, RowsInv;
      var id :| id in DbAfter(w, a).jobs && DbAfter(w, a).jobs[id] == v;
      SteppedIsKnown(w, id, v, a.now);
    }
  }

  lemma StepKeepsRows(w: World, a: Action)
    requires RowsInv(w) && Enabled(w, a) && OnRows(a)
    ensures RowsInv(Apply(w, a))
  {
    StepRows(w, a);
    var w' := Apply(w, a);
    forall v | v in w'.seen ensures RowOk(v) && v.id in w'.db.jobs { NewVersions(w, a, v); }
    forall id | id in w'.db.jobs ensures w'.db.jobs[id].id == id {
      assert RowStep(w.db.jobs[id], w'.db.jobs[id], a.now);
    }
  }

  lemma StepKeepsTokens(w: World, a: Action)
    requires RowsInv(w) && TokensInv(w) && Enabled(w, a) && OnRows(a)
    ensures TokensInv(Apply(w, a))
  {
    var w' := Apply(w, a);
    forall u, v | u in w'.seen && v in w'.seen && u.leaseToken.Some? && u.leaseToken == v.leaseToken
      ensures u.id == v.id && u.attempt == v.attempt && u.maxAttempts == v.maxAttempts
    {
      NewVersions(w, a, u);
      NewVersions(w, a, v);
    }
    forall v | v in w'.seen && v.leaseToken.Some? ensures v.leaseToken.value in w'.issued {
      NewVersions(w, a, v);
    }
  }
}
