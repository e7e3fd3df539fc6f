/** Rows of the job queue and the rules that compute from arguments alone:
    the transition table, the failure classification and the retry backoff. */
module JobRecords {
  import opened Options

  type JobId = nat
  type Token = nat
  type Session = nat
  type OwnerId = nat
  /** Seconds on the service clock. */
  type Time = real
  type Progress = map<string, string>

  datatype State =
    | Queued | Running | RetryWait | WaitingReview
    | Succeeded | Partial | Failed | Cancelled

  /** What the caller says of a failure: a message and, if it has any, details. */
  datatype Report = Report(message: string, details: map<string, string>)

  const NO_REPORT := Report("", map[])

  datatype JobError = JobError(code: string, report: Report, gaps: seq<string>, audit: bool, attempt: Option<nat>)

  datatype JobRow = JobRow(
    id: JobId,
    ownerId: OwnerId,
    kind: string,
    key: string,
    state: State,
    availableAt: Time,
    attempt: nat,
    maxAttempts: int,
    leaseToken: Option<Token>,
    leaseUntil: Option<Time>,
    heartbeatAt: Option<Time>,
    cancelRequestedAt: Option<Time>,
    progress: Progress,
    error: Option<JobError>,
    outputRef: Option<string>)

  datatype StepState = StepRunning | StepSucceeded

  datatype StepRow = StepRow(
    state: StepState,
    outputRef: Option<string>,
    attempt: nat,
    startedAt: Option<Time>,
    completedAt: Option<Time>)

  /** What a job event carries. The constructor names its type and what the
      data say of it: `EvFailed` and `EvRetry` both have type `failed`, the latter
      with the retry flag, so a log can hold events of that type before its end. */
  datatype EventBody =
    | EvQueued
    | EvStageStarted(step: string)
    | EvProgress(values: Progress)
    | EvArtifactReady(step: string, ref: string)
    | EvReviewRequired(error: Option<JobError>)
    | EvCompleted(error: Option<JobError>)
    | EvFailed(error: Option<JobError>)
    | EvRetry(delay: real, error: Option<JobError>)
    | EvCancelled(error: Option<JobError>)

  datatype Event = Event(num: nat, body: EventBody, createdAt: Time)

  const LEASE_SECONDS: real := 90.0

  // ---- the transition table ----

  predicate Terminal(s: State) {
    s.Succeeded? || s.Partial? || s.Failed? || s.Cancelled?
  }

  /** The states `finish` parks a job in; no step of the queue leaves them. */
  predicate Finished(s: State) {
    Terminal(s) || s.WaitingReview?
  }

  function AllowedFrom(s: State): set<State> {
    match s
    case Queued => {Running, Cancelled}
    case Running => {Succeeded, Partial, Failed, WaitingReview, RetryWait, Cancelled}
    case RetryWait => {Queued, Cancelled}
    case WaitingReview => {Running, Cancelled}
    case _ => {}
  }

  predicate Allowed(current: State, target: State) {
    target in AllowedFrom(current)
  }

  /** The event `finish` writes for a state, when the table has one. */
  function TerminalEvent(s: State, error: Option<JobError>): Option<EventBody> {
    match s
    case Succeeded => Some(EvCompleted(error))
    case Partial => Some(EvCompleted(error))
    case Failed => Some(EvFailed(error))
    case Cancelled => Some(EvCancelled(error))
    case WaitingReview => Some(EvReviewRequired(error))
    case _ => None
  }

  predicate FinishEvent(b: EventBody) {
    b.EvCompleted? || b.EvFailed? || b.EvCancelled? || b.EvReviewRequired?
  }

  // ---- retry classification ----

  datatype ErrorClass =
    | Transient | SchemaOutput | ValidationError | AccessBlocked
    | ParserError | ScopeViolation | UserCancelled | Unclassified(name: string)

  /** `Handler` is the table's empty next state: the job stays running. */
  datatype RetryDecision =
    | Handler(repairBudget: nat)
    | Retry(delay: real)
    | GiveUp(audit: bool)
    | Cancel

  const BACKOFF_BASE: real := 30.0
  const BACKOFF_CAP: real := 1800.0
  const TRANSIENT_MAX_ATTEMPTS: nat := 5
  const PARSER_MAX_ATTEMPTS: nat := 2
  const SCHEMA_REPAIR_BUDGET: nat := 2
  const VALIDATION_REPAIR_BUDGET: nat := 1

  function Pow2(n: nat): (p: nat)
    ensures p >= 1
  {
    if n == 0 then 1 else 2 * Pow2(n - 1)
  }

  function MinReal(a: real, b: real): real { if a <= b then a else b }
  function MaxReal(a: real, b: real): real { if a >= b then a else b }

  function RawBackoff(attempt: nat): real {
    MinReal(BACKOFF_BASE * Pow2(if attempt >= 1 then attempt - 1 else 0) as real, BACKOFF_CAP)
  }

  /** `draw` is the random factor in [0, 1). */
  function JitteredBackoff(attempt: nat, draw: real): real {
    Jittered(RawBackoff(attempt), draw)
  }

  function Jittered(raw: real, draw: real): real {
    MinReal(raw * (1.0 + draw), BACKOFF_CAP)
  }

  function ClassifyFailure(
    cls: ErrorClass, attempt: nat, retryAfter: Option<real>, draw: real): RetryDecision
  {
    match cls
    case Transient =>
      if attempt >= TRANSIENT_MAX_ATTEMPTS then GiveUp(false)
      else Retry(if retryAfter.Some? then retryAfter.value else JitteredBackoff(attempt, draw))
    case SchemaOutput => Handler(SCHEMA_REPAIR_BUDGET)
    case ValidationError => Handler(VALIDATION_REPAIR_BUDGET)
    case AccessBlocked => GiveUp(false)
    case ParserError =>
      if attempt >= PARSER_MAX_ATTEMPTS then GiveUp(false) else Retry(BACKOFF_BASE)
    case ScopeViolation => GiveUp(true)
    case UserCancelled => Cancel
    case Unclassified(_) => GiveUp(false)
  }

  function ErrorCode(cls: ErrorClass): string {
    match cls
    case Transient => "transient"
    case SchemaOutput => "schema_output"
    case ValidationError => "validation_failed"
    case AccessBlocked => "access_blocked"
    case ParserError => "parser_error"
    case ScopeViolation => "scope_violation"
    case UserCancelled => "cancelled"
    case Unclassified(name) => name
  }

  lemma Pow2Monotone(m: nat, n: nat)
    requires m <= n
    ensures Pow2(m) <= Pow2(n)
    decreases n
  {
    if m < n { Pow2Monotone(m, n - 1); }
  }

  lemma RawBackoffMonotone(attempt: nat, later: nat)
    requires attempt <= later
    ensures BACKOFF_BASE <= RawBackoff(attempt) <= RawBackoff(later) <= BACKOFF_CAP
  {
    var e := if attempt >= 1 then attempt - 1 else 0;
    var e' := if later >= 1 then later - 1 else 0;
    Pow2Monotone(e, e');
  }

  /** The first retry waits 30 seconds, and each one more doubles it up to the
      30 minutes. */
  lemma BackoffDoubles(attempt: nat)
    requires attempt >= 1
    ensures RawBackoff(1) == 30.0
    ensures RawBackoff(attempt + 1) == if 2.0 * RawBackoff(attempt) <= 1800.0 then 2.0 * RawBackoff(attempt) else 1800.0
    ensures JitteredBackoff(attempt, 0.0) == RawBackoff(attempt)
  {
    var p := Pow2(attempt - 1);
    assert Pow2(attempt) == 2 * p && Pow2(0) == 1;
    RawBackoffMonotone(attempt, attempt);
  }

  lemma JitteredBounds(x: real, y: real, draw: real)
    requires 0.0 <= x <= y <= BACKOFF_CAP && 0.0 <= draw < 1.0
    ensures x <= Jittered(x, draw) <= 2.0 * x && Jittered(x, draw) <= BACKOFF_CAP
    ensures x >= BACKOFF_BASE ==> Jittered(x, draw) >= BACKOFF_BASE
    ensures Jittered(x, draw) <= Jittered(y, draw)
  {
    Share(x, draw);
    Share(y, draw);
    MoreShare(x, y, draw);
    Capped(x, x * draw, y, y * draw);
    assert Jittered(x, draw) == MinReal(x + x * draw, BACKOFF_CAP);
    assert Jittered(y, draw) == MinReal(y + y * draw, BACKOFF_CAP);
    hide Jittered, MinReal;
  }

  lemma Capped(x: real, more: real, y: real, most: real)
    requires 0.0 <= more <= x <= y <= BACKOFF_CAP && more <= most
    ensures x <= MinReal(x + more, BACKOFF_CAP) <= 2.0 * x
    ensures MinReal(x + more, BACKOFF_CAP) <= BACKOFF_CAP && MinReal(x + more, BACKOFF_CAP) <= MinReal(y + most, BACKOFF_CAP)
  {}

  lemma Share(x: real, draw: real)
    requires 0.0 <= x && 0.0 <= draw < 1.0
    ensures 0.0 <= x * draw <= x && x * (1.0 + draw) == x + x * draw
  {}

  lemma MoreShare(x: real, y: real, draw: real)
    requires x <= y && 0.0 <= draw
    ensures x * draw <= y * draw
  {}

  /** Every computed delay lies between the 30 second floor and the 30 minute
      ceiling, never falls as attempts grow, and jitter at most doubles it. */
  lemma BackoffBounds(attempt: nat, later: nat, draw: real)
    requires 0.0 <= draw < 1.0 && attempt <= later
    ensures BACKOFF_BASE <= JitteredBackoff(attempt, draw) <= BACKOFF_CAP
    ensures JitteredBackoff(attempt, draw) <= JitteredBackoff(later, draw)
    ensures RawBackoff(attempt) <= JitteredBackoff(attempt, draw) <= 2.0 * RawBackoff(attempt)
  {
    RawBackoffMonotone(attempt, later);
    JitteredBounds(RawBackoff(attempt), RawBackoff(later), draw);
  }
}
