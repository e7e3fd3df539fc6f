/** Safety of the queue, step by step. Every step keeps the core of the
    invariant; it keeps all of it if and only if no claim collides. */
module JobSafety {
  import opened Options
  import opened JobRecords
  import opened JobSpec
  import opened JobRuns

  // ---- enqueue ----

  lemma SeenOneMore(w: World, w': World, id: JobId, row: JobRow)
    requires forall k :: k in w.db.jobs ==> w.db.jobs[k] in w.seen
    requires w'.db.jobs == w.db.jobs[id := row] && w'.seen == w.seen + w'.db.jobs.Values
    ensures w'.seen == w.seen + {row}
  {
    assert w'.db.jobs[id] == row;
    forall v | v in w'.db.jobs.Values ensures v in w.seen || v == row {
      var k :| k in w'.db.jobs && w'.db.jobs[k] == v;
      if k != id { assert w.db.jobs[k] == v; }
    }
  }

  lemma NewVersionKeepsTokens(seen: set<JobRow>, issued: set<Token>, row: JobRow)
    requires TokensOk(seen, issued)
    requires row.leaseToken.Some? ==>
      row.leaseToken.value in issued && forall v :: v in seen ==> v.leaseToken != row.leaseToken
    ensures TokensOk(seen + {row}, issued)
  {}

  lemma OneRowKeepsRows(w: World, w': World, row: JobRow)
    requires RowsInv(w) && RowOk(row)
    requires w'.db.jobs == w.db.jobs[row.id := row] && w'.seen == w.seen + {row}
    ensures RowsInv(w')
  {}

  /** The step adds this row, its key and its log, and nothing else. */
  ghost predicate AddsRow(w: World, w': World, row: JobRow, now: Time) {
    && row.id !in w.db.jobs && KeyOf(row) !in w.db.idem && RowOk(row) && row.leaseToken.None?
    && w'.db.jobs == w.db.jobs[row.id := row]
    && w'.db.idem == w.db.idem[KeyOf(row) := row.id]
    && w'.db.events == w.db.events[row.id := [Event(1, EvQueued, now)]]
    && w'.db.locks == w.db.locks && w'.pending == w.pending && w'.issued == w.issued
    && w'.seen == w.seen + {row}
  }

  ghost predicate OnlyClockMoves(w: World, w': World) {
    w'.db == w.db && w'.pending == w.pending && w'.issued == w.issued && w'.seen == w.seen
  }

  lemma EnqueueEffect(db: Db, row: JobRow, maxAttempts: Option<int>, now: Time)
    requires KeyOf(row) !in db.idem && row.id !in db.events
    requires row == NewRow(row.id, row.ownerId, row.kind, row.key, maxAttempts, now)
    ensures var db' := Enqueue(db, row.ownerId, row.kind, row.key, maxAttempts, row.id, now).0;
      && db'.jobs == db.jobs[row.id := row]
      && db'.idem == db.idem[KeyOf(row) := row.id]
      && db'.events == db.events[row.id := [Event(1, EvQueued, now)]]
      && db'.locks == db.locks
  {
    var db' := Enqueue(db, row.ownerId, row.kind, row.key, maxAttempts, row.id, now).0;
    assert db'.events[row.id] == [Event(1, EvQueued, now)];
    assert db'.events == db.events[row.id := [Event(1, EvQueued, now)]];
  }

  lemma EnqueueAdds(w: World, a: Action) returns (row: JobRow)
    requires RowsInv(w) && EventsInv(w.db) && Enabled(w, a) && a.DoEnqueue?
    requires (a.owner, a.kind, a.key) !in w.db.idem
    ensures row == NewRow(a.freshId, a.owner, a.kind, a.key, a.maxAttempts, a.now)
    ensures AddsRow(w, Apply(w, a), row, a.now)
  {
    row := NewRow(a.freshId, a.owner, a.kind, a.key, a.maxAttempts, a.now);
    EnqueueEffect(w.db, row, a.maxAttempts, a.now);
    hide Enqueue;
    SeenOneMore(w, Apply(w, a), a.freshId, row);
  }

  lemma EnqueueRepeats(w: World, a: Action)
    requires RowsInv(w) && a.DoEnqueue? && (a.owner, a.kind, a.key) in w.db.idem
    ensures OnlyClockMoves(w, Apply(w, a))
  {
    assert Apply(w, a).seen == w.seen;
  }

  lemma NewRowKeepsPending(w: World, w': World, row: JobRow, now: Time)
    requires PendingInv(w) && AddsRow(w, w', row, now)
    ensures PendingInv(w')
  {}

  lemma NewRowKeepsClaims(w: World, w': World, row: JobRow, now: Time)
    requires ClaimsInv(w) && AddsRow(w, w', row, now)
    ensures ClaimsInv(w')
  {
    forall id | id in w'.db.locks ensures InFlight(w', id) { assert InFlight(w, id); }
  }

  lemma NewRowKeys(db: Db, db': Db, id: JobId, row: JobRow)
    requires KeysInv(db) && id !in db.jobs && KeyOf(row) !in db.idem
    requires db'.jobs == db.jobs[id := row] && db'.idem == db.idem[KeyOf(row) := id]
    ensures KeysInv(db')
  {}

  lemma NewRowLogs(db: Db, db': Db, id: JobId, row: JobRow, log: seq<Event>)
    requires LogsInv(db) && id !in db.jobs
    requires db'.jobs == db.jobs[id := row]
    requires db'.events == db.events[id := log] && LogOk(log, row.state)
    ensures LogsInv(db')
  {}

  lemma NewRowEvents(db: Db, db': Db, id: JobId, row: JobRow, now: Time)
    requires EventsInv(db) && id !in db.jobs && db'.jobs == db.jobs[id := row]
    requires db'.events == db.events[id := [Event(1, EvQueued, now)]]
    ensures EventsInv(db')
  {}

  lemma AddRowKeepsCore(w: World, w': World, row: JobRow, now: Time)
    requires Core(w) && AddsRow(w, w', row, now)
    ensures Core(w')
  {
    OneRowKeepsRows(w, w', row);
    NewVersionKeepsTokens(w.seen, w.issued, row);
    NewRowKeepsPending(w, w', row, now);
    NewRowKeys(w.db, w'.db, row.id, row);
    NewRowEvents(w.db, w'.db, row.id, row, now);
    hide RowsInv, TokensOk, PendingInv, KeysInv, EventsInv;
  }

  lemma EnqueueKeepsCore(w: World, a: Action)
    requires Core(w) && Enabled(w, a) && a.DoEnqueue?
    ensures Core(Apply(w, a))
  {
    var w' := Apply(w, a);
    if (a.owner, a.kind, a.key) in w.db.idem {
      EnqueueRepeats(w, a);
    } else {
      var row := EnqueueAdds(w, a);
      hide Core, AddsRow, Apply;
      AddRowKeepsCore(w, w', row, a.now);
    }
  }

  lemma EnqueueKeepsRest(w: World, a: Action)
    requires Inv(w) && Enabled(w, a) && a.DoEnqueue?
    ensures ClaimsInv(Apply(w, a)) && LogsInv(Apply(w, a).db)
  {
    hide RowsInv, TokensInv, PendingInv, KeysInv, ClaimsInv, LogsInv, Apply, Enabled;
    var w' := Apply(w, a);
    if (a.owner, a.kind, a.key) in w.db.idem {
      EnqueueRepeats(w, a);
      SameClaims(w, w');
    } else {
      var row := EnqueueAdds(w, a);
      NewRowKeepsClaims(w, w', row, a.now);
      NewRowLogs(w.db, w'.db, row.id, row, [Event(1, EvQueued, a.now)]);
    }
  }

  lemma SameClaims(w: World, w': World)
    requires ClaimsInv(w) && w'.db.jobs == w.db.jobs && w'.db.locks == w.db.locks && w'.pending == w.pending
    ensures ClaimsInv(w')
  {
    forall id | id in w'.db.locks ensures InFlight(w', id) { assert InFlight(w, id); }
  }

  // ---- claim: lock ----

  /** A claim collides exactly when the row it picks is already locked. */
  lemma CollidesOnLock(w: World, a: Action)
    requires ClaimsInv(w) && Enabled(w, a) && a.DoClaimLock?
    ensures Collides(w, a) <==> a.pick.Some? && a.pick.value in w.db.locks
  {
    if Collides(w, a) {
      var t :| t in w.pending && CollidesWith(w, a, t);
      PickIsOne(w.db, a.session, a.now, a.kinds, a.pick, Some(w.pending[t].id));
    }
    if a.pick.Some? && a.pick.value in w.db.locks {
      assert InFlight(w, a.pick.value);
      var t :| t in w.pending && w.pending[t].id == a.pick.value;
      assert CollidesWith(w, a, t);
    }
  }

  lemma PickIsOne(db: Db, session: Session, now: Time, kinds: set<string>, p: Option<JobId>, q: Option<JobId>)
    requires IsPick(db, session, now, kinds, p) && IsPick(db, session, now, kinds, q)
    ensures p == q
  {}

  lemma LockKeepsPending(w: World, w': World, session: Session, id: JobId, token: Token, now: Time)
    requires TokensInv(w) && PendingInv(w) && token !in w.issued && id in w.db.jobs
    requires w'.db.jobs == w.db.jobs && w'.pending == w.pending[token := Pending(session, id, now)]
    requires w'.seen == w.seen && w'.issued == w.issued + {token}
    ensures PendingInv(w')
  {
    forall v | v in w.seen ensures v.leaseToken != Some(token) {}
    hide TokensInv, TokensOk;
  }

  lemma LockKeepsCore(w: World, a: Action)
    requires Core(w) && Enabled(w, a) && a.DoClaimLock?
    ensures Core(Apply(w, a))
  {
    hide RowsInv, KeysInv, EventsInv, IsPick, TokensOk;
    var w' := Apply(w, a);
    SameEventsInv(w.db, w'.db);
    SeenSame(w, w');
    MoreIssued(w.seen, w.issued, a.token);
    if a.pick.Some? { PickIsStored(w, a); hide Enabled; LockKeepsPending(w, w', a.session, a.pick.value, a.token, a.now); }
    SameRowsInv(w, w');
  }

  lemma PickIsStored(w: World, a: Action)
    requires Enabled(w, a) && a.DoClaimLock? && a.pick.Some?
    ensures a.pick.value in w.db.jobs && w.db.jobs[a.pick.value].state == Queued
  {}

  lemma SeenSame(w: World, w': World)
    requires RowsInv(w) && w'.db.jobs == w.db.jobs && w'.seen == w.seen + w'.db.jobs.Values
    ensures w'.seen == w.seen
  {}

  lemma SameEventsInv(db: Db, db': Db)
    requires EventsInv(db) && db'.jobs == db.jobs && db'.events == db.events
    ensures EventsInv(db')
  {}

  lemma SameRowsInv(w: World, w': World)
    requires RowsInv(w) && w'.db.jobs == w.db.jobs && w'.seen == w.seen
    ensures RowsInv(w')
    ensures KeysInv(w.db) && w'.db.idem == w.db.idem ==> KeysInv(w'.db)
  {}

  lemma MoreIssued(seen: set<JobRow>, issued: set<Token>, token: Token)
    requires TokensOk(seen, issued)
    ensures TokensOk(seen, issued + {token})
  {}

  lemma LockKeepsClaims(w: World, w': World, session: Session, id: JobId, token: Token, now: Time)
    requires ClaimsInv(w) && token !in w.pending && id !in w.db.locks
    requires id in w.db.jobs && w.db.jobs[id].state == Queued
    requires w'.db == w.db.(locks := w.db.locks[id := session])
    requires w'.pending == w.pending[token := Pending(session, id, now)]
    ensures ClaimsInv(w')
  {
    forall t | t in w.pending ensures w.pending[t].id != id {}
    forall k | k in w'.db.locks ensures InFlight(w', k) {
      if k == id {
        assert w'.pending[token].id == id;
      } else {
        assert InFlight(w, k);
        var t :| t in w.pending && w.pending[t].id == k;
        assert t in w'.pending && w'.pending[t].id == k;
      }
    }
  }

  lemma LockKeepsRest(w: World, a: Action)
    requires Inv(w) && Enabled(w, a) && a.DoClaimLock? && !Collides(w, a)
    ensures ClaimsInv(Apply(w, a)) && LogsInv(Apply(w, a).db)
  {
    hide Collides, RowsInv, TokensInv, KeysInv, LogsInv, ClaimsInv, IsPick;
    CollidesOnLock(w, a);
    TokenIsFree(w, a);
    hide PendingInv;
    if a.pick.Some? {
      PickIsStored(w, a);
      hide Enabled;
      LockKeepsClaims(w, Apply(w, a), a.session, a.pick.value, a.token, a.now);
    } else {
      SameClaims(w, Apply(w, a));
    }
    SameLogsInv(w.db, Apply(w, a).db);
  }

  lemma TokenIsFree(w: World, a: Action)
    requires PendingInv(w) && Enabled(w, a) && a.DoClaimLock?
    ensures a.token !in w.pending
  {}

  lemma SameLogsInv(db: Db, db': Db)
    requires LogsInv(db) && db'.jobs == db.jobs && db'.events == db.events
    ensures LogsInv(db')
  {}

  /** Two claims in flight hold one row. */
  lemma CollisionDoubles(w: World, a: Action)
    requires Inv(w) && Enabled(w, a) && Collides(w, a)
    ensures !Inv(Apply(w, a))
  {
    hide RowsInv, TokensInv, KeysInv, LogsInv, IsPick, DbAfter;
    var t := CollidingClaim(w, a);
    hide Collides;
    var w' := Apply(w, a);
    assert t in w'.pending && a.token in w'.pending && t != a.token;
    assert w'.pending[t].id == w'.pending[a.token].id;
  }

  /** The earlier claim of the session on the row that a colliding claim picks. */
  lemma CollidingClaim(w: World, a: Action) returns (t: Token)
    requires Enabled(w, a) && Collides(w, a)
    ensures a.DoClaimLock? && t in w.pending && w.pending[t].session == a.session && a.pick == Some(w.pending[t].id)
  {
    t :| t in w.pending && CollidesWith(w, a, t);
    PickIsOne(w.db, a.session, a.now, a.kinds, a.pick, Some(w.pending[t].id));
  }

  // ---- claim: write ----

  /** The claim's write, with the row it makes. */
  ghost predicate WritesRow(w: World, w': World, token: Token, row: JobRow) {
    && token in w.pending && w.pending[token].id in w.db.jobs
    && row == Claimed(w.db.jobs[w.pending[token].id], token, w.pending[token].now)
    && w'.db.jobs == w.db.jobs[w.pending[token].id := row]
    && w'.db.locks == w.db.locks - {w.pending[token].id} && w'.pending == w.pending - {token}
    && w'.db.idem == w.db.idem && w'.db.events == w.db.events
    && w'.seen == w.seen + {row} && w'.issued == w.issued
  }

  lemma WriteMakes(w: World, a: Action) returns (row: JobRow)
    requires RowsInv(w) && PendingInv(w) && Enabled(w, a) && a.DoClaimWrite?
    ensures WritesRow(w, Apply(w, a), a.token, row)
    ensures row.id == w.pending[a.token].id && row.leaseToken == Some(a.token) && RowOk(row)
    ensures KeyOf(row) == KeyOf(w.db.jobs[row.id])
  {
    var p := w.pending[a.token];
    row := Claimed(w.db.jobs[p.id], a.token, p.now);
    SeenOneMore(w, Apply(w, a), p.id, row);
  }

  lemma WriteKeepsPending(w: World, w': World, token: Token, row: JobRow)
    requires PendingInv(w) && WritesRow(w, w', token, row) && row.leaseToken == Some(token)
    ensures PendingInv(w')
  {
    hide Claimed;
  }

  lemma WriteKeepsKeys(db: Db, db': Db, id: JobId, row: JobRow)
    requires KeysInv(db) && id in db.jobs && KeyOf(row) == KeyOf(db.jobs[id])
    requires db'.jobs == db.jobs[id := row] && db'.idem == db.idem
    ensures KeysInv(db')
  {}

  lemma WriteKeepsEvents(db: Db, db': Db, id: JobId, row: JobRow)
    requires EventsInv(db) && id in db.jobs && db'.jobs == db.jobs[id := row] && db'.events == db.events
    ensures EventsInv(db')
  {}

  lemma WriteKeepsCore(w: World, a: Action)
    requires Core(w) && Enabled(w, a) && a.DoClaimWrite?
    ensures Core(Apply(w, a))
  {
    hide RowsInv, TokensOk, PendingInv, KeysInv, EventsInv, Apply, Claimed, Enabled;
    var w' := Apply(w, a);
    WriteIsOfPending(w, a);
    var row := WriteMakes(w, a);
    OneRowKeepsRows(w, w', row);
    NewVersionKeepsTokens(w.seen, w.issued, row);
    WriteKeepsPending(w, w', a.token, row);
    WriteKeepsKeys(w.db, w'.db, row.id, row);
    WriteKeepsEvents(w.db, w'.db, row.id, row);
  }

  lemma WriteIsOfPending(w: World, a: Action)
    requires PendingInv(w) && Enabled(w, a) && a.DoClaimWrite?
    ensures a.token in w.pending && a.token in w.issued
    ensures forall v :: v in w.seen ==> v.leaseToken != Some(a.token)
  {}

  lemma WriteKeepsClaims(w: World, w': World, token: Token, row: JobRow)
    requires ClaimsInv(w) && WritesRow(w, w', token, row)
    ensures ClaimsInv(w')
  {
    hide Claimed;
    WriteKeepsLocks(w, w', token);
    hide LocksInv;
  }

  lemma WriteKeepsLocks(w: World, w': World, token: Token)
    requires LocksInv(w) && token in w.pending
    requires w'.db.locks == w.db.locks - {w.pending[token].id} && w'.pending == w.pending - {token}
    ensures LocksInv(w')
  {
    forall id | id in w'.db.locks ensures InFlight(w', id) {
      assert InFlight(w, id);
      var t :| t in w.pending && w.pending[t].id == id;
      assert t in w'.pending && w'.pending[t].id == id;
    }
  }

  lemma WriteKeepsLogs(db: Db, db': Db, id: JobId, row: JobRow)
    requires LogsInv(db) && id in db.jobs && db.jobs[id].state == Queued
    requires db'.jobs == db.jobs[id := row] && db'.events == db.events
    ensures LogsInv(db')
  {
    forall k | k in db'.jobs ensures LogOk(db'.events[k], db'.jobs[k].state) {
      if k == id { Untouched(db.events[id], Queued, row.state); }
    }
  }

  lemma WriteKeepsRest(w: World, a: Action)
    requires Inv(w) && Enabled(w, a) && a.DoClaimWrite?
    ensures ClaimsInv(Apply(w, a)) && LogsInv(Apply(w, a).db)
  {
    var w' := Apply(w, a);
    var row := WriteMakes(w, a);
    WriteKeepsClaims(w, w', a.token, row);
    hide RowsInv, TokensInv, KeysInv, LogsInv, Apply, Claimed;
    WriteKeepsLogs(w.db, w'.db, row.id, row);
  }

  // ---- the actions that rewrite rows in place ----

  lemma RewriteKeepsPending(w: World, a: Action)
    requires Core(w) && Enabled(w, a) && OnRows(a)
    ensures PendingInv(Apply(w, a))
  {
    hide RowsInv, TokensInv, KeysInv, PendingInv, DbAfter, Known, Enabled;
    StepRows(w, a);
    var w' := Apply(w, a);
    forall v | v in w'.seen ensures Known(w, v) { NewVersions(w, a, v); }
    KnownKeepPending(w, w', a.now);
  }

  lemma KnownKeepPending(w: World, w': World, now: Time)
    requires PendingInv(w) && RowsStep(w.db, w'.db, now) && w'.pending == w.pending && w'.issued == w.issued
    requires forall v :: v in w'.seen ==> Known(w, v)
    ensures PendingInv(w')
  {
    hide RowStep, RowOk;
    forall t, v | t in w.pending && v in w'.seen ensures v.leaseToken != Some(t) {
      assert Known(w, v);
    }
  }

  lemma RewriteKeepsClaims(w: World, a: Action)
    requires RowsInv(w) && ClaimsInv(w) && Enabled(w, a) && OnRows(a)
    ensures ClaimsInv(Apply(w, a))
  {
    hide DbAfter, RowsInv, ClaimsInv, Enabled;
    StepRows(w, a);
    RowsKeepClaims(w, Apply(w, a), a.now);
  }

  lemma RowsKeepClaims(w: World, w': World, now: Time)
    requires ClaimsInv(w) && RowsStep(w.db, w'.db, now) && w'.pending == w.pending
    ensures ClaimsInv(w')
  {
    forall t | t in w.pending ensures w'.db.jobs[w.pending[t].id].state == Queued {
      assert RowStep(w.db.jobs[w.pending[t].id], w'.db.jobs[w.pending[t].id], now);
    }
    hide RowStep;
    forall id | id in w'.db.locks ensures InFlight(w', id) { assert InFlight(w, id); }
  }

  lemma RewriteKeepsKeys(db: Db, db': Db, now: Time)
    requires KeysInv(db) && RowsStep(db, db', now)
    ensures KeysInv(db')
  {
    forall id | id in db.jobs ensures KeyOf(db'.jobs[id]) == KeyOf(db.jobs[id]) {
      assert RowStep(db.jobs[id], db'.jobs[id], now);
    }
  }

  lemma RewriteKeepsCore(w: World, a: Action)
    requires Core(w) && Enabled(w, a) && OnRows(a)
    ensures Core(Apply(w, a))
  {
    hide DbAfter, RowsInv, TokensInv, PendingInv, KeysInv, EventsInv, RowStep, LogsGrow;
    StepKeepsRows(w, a);
    StepKeepsTokens(w, a);
    RewriteKeepsPending(w, a);
    StepRows(w, a);
    StepGrows(w, a);
    RewriteKeepsKeys(w.db, DbAfter(w, a), a.now);
  }

  lemma RewriteKeepsRest(w: World, a: Action)
    requires Inv(w) && Enabled(w, a) && OnRows(a)
    ensures ClaimsInv(Apply(w, a)) && LogsInv(Apply(w, a).db)
  {
    hide DbAfter, RowsInv, TokensInv, PendingInv, KeysInv, ClaimsInv, RowStep, LogOk;
    RewriteKeepsClaims(w, a);
    StepRows(w, a);
    StepLogs(w, a);
  }

  // ---- every step, every run ----

  /** Every enabled action keeps the core, colliding claims included. */
  lemma StepKeepsCore(w: World, a: Action)
    requires Core(w) && Enabled(w, a)
    ensures Core(Apply(w, a))
  {
    hide Core, Apply, Enabled;
    match a
    case DoEnqueue(_, _, _, _, _, _) => EnqueueKeepsCore(w, a);
    case DoClaimLock(_, _, _, _, _) => LockKeepsCore(w, a);
    case DoClaimWrite(_, _) => WriteKeepsCore(w, a);
    case _ => RewriteKeepsCore(w, a);
  }

  lemma StepKeepsInv(w: World, a: Action)
    requires Inv(w) && Enabled(w, a) && !Collides(w, a)
    ensures Inv(Apply(w, a))
  {
    StepKeepsCore(w, a);
    hide Core, ClaimsInv, LogsInv, Apply, Enabled, Collides;
    match a
    case DoEnqueue(_, _, _, _, _, _) => EnqueueKeepsRest(w, a);
    case DoClaimLock(_, _, _, _, _) => LockKeepsRest(w, a);
    case DoClaimWrite(_, _) => WriteKeepsRest(w, a);
    case _ => RewriteKeepsRest(w, a);
  }

  /** An enabled action keeps the whole invariant if and only if it is not a
      claim that collides with one of its own session. */
  lemma InvKeptExactlyWhen(w: World, a: Action)
    requires Inv(w) && Enabled(w, a)
    ensures Inv(Apply(w, a)) <==> !Collides(w, a)
  {
    hide Inv, Apply, Enabled, Collides;
    if Collides(w, a) { CollisionDoubles(w, a); } else { StepKeepsInv(w, a); }
  }

  lemma {:induction false} RunKeepsCore(w: World, acts: seq<Action>)
    requires Core(w) && Feasible(w, acts)
    ensures Core(Run(w, acts))
    decreases |acts|
  {
    hide Core, Apply, Enabled;
    if acts != [] {
      StepKeepsCore(w, acts[0]);
      RunKeepsCore(Apply(w, acts[0]), acts[1..]);
    }
  }

  /** Every world that a run without collisions reaches satisfies all of it. */
  lemma {:induction false} RunKeepsInv(w: World, acts: seq<Action>)
    requires Inv(w) && Exclusive(w, acts)
    ensures Inv(Run(w, acts))
    decreases |acts|
  {
    hide Inv, Apply, Enabled, Collides;
    if acts != [] {
      StepKeepsInv(w, acts[0]);
      RunKeepsInv(Apply(w, acts[0]), acts[1..]);
    }
  }

  ghost predicate InvAt(w: World, acts: seq<Action>, k: nat)
    requires k <= |acts|
  {
    Inv(Run(w, acts[..k]))
  }

  /** The invariant holds at every point of a run if and only if no claim of the
      run collides. */
  lemma {:induction false} InvAlongExactlyWhen(w: World, acts: seq<Action>)
    requires Inv(w) && Feasible(w, acts)
    ensures (forall k :: 0 <= k <= |acts| ==> InvAt(w, acts, k)) <==> Exclusive(w, acts)
    decreases |acts|
  {
    hide Inv, Enabled, Collides, Apply;
    if acts == [] {
      assert acts[..0] == [];
    } else {
      var w', rest := Apply(w, acts[0]), acts[1..];
      InvKeptExactlyWhen(w, acts[0]);
      forall k | 0 <= k <= |rest| ensures InvAt(w, acts, k + 1) <==> InvAt(w', rest, k) {
        assert acts[..k + 1][1..] == rest[..k];
      }
      assert acts[..0] == [] && InvAt(w, acts, 0);
      FirstInv(w', rest);
      if Inv(w') {
        InvAlongExactlyWhen(w', rest);
        hide InvAt;
        forall k | 0 <= k <= |acts| && Exclusive(w', rest) ensures InvAt(w, acts, k) {
          if k > 0 { assert InvAt(w', rest, k - 1); }
        }
        forall k | 0 <= k <= |rest| && InvAt(w, acts, k + 1) ensures InvAt(w', rest, k) {}
      } else {
        assert !InvAt(w, acts, 0 + 1);
      }
    }
  }

  lemma FirstInv(w: World, acts: seq<Action>)
    ensures InvAt(w, acts, 0) <==> Inv(w)
  {
    assert acts[..0] == [];
  }

  /** The empty queue. */
  lemma InitialInv(w: World)
    requires Initial(w)
    ensures Inv(w)
  {}

  // ---- one step, summarised ----

  ghost predicate ClaimedBy(w: World, t: Token, id: JobId, row: JobRow) {
    && t in w.pending && w.pending[t].id == id && id in w.db.jobs
    && row == Claimed(w.db.jobs[id], t, w.pending[t].now)
  }

  /** What any enabled action may do, without saying which action it was. */
  ghost predicate Next(w: World, w': World) {
    && w.clock <= w'.clock
    && w.issued <= w'.issued
    && (forall t :: t in w'.pending ==> (t in w.pending && w'.pending[t] == w.pending[t]) || t !in w.issued)
    && (forall id :: id in w.db.jobs ==>
          && id in w'.db.jobs
          && (RowStep(w.db.jobs[id], w'.db.jobs[id], w'.clock) || exists t :: ClaimedBy(w, t, id, w'.db.jobs[id])))
    && (forall id :: id in w'.db.jobs && id !in w.db.jobs ==> w'.db.jobs[id].leaseToken.None?)
    && LogsGrow(w.db, w'.db)
  }

  lemma SameRowStep(r: JobRow, now: Time)
    requires RowOk(r)
    ensures RowStep(r, r, now)
  {}

  lemma RewriteIsNext(w: World, a: Action)
    requires Core(w) && Enabled(w, a) && OnRows(a)
    ensures Next(w, Apply(w, a))
  {
    hide DbAfter, RowsInv, TokensInv, PendingInv, KeysInv, EventsInv, RowStep, LogsGrow, Enabled;
    StepRows(w, a);
    StepGrows(w, a);
    NotBefore(w, a);
    NothingNew(w, Apply(w, a), a.now);
  }

  lemma NotBefore(w: World, a: Action)
    requires Enabled(w, a)
    ensures w.clock <= a.now
  {}

  lemma NothingNew(w: World, w': World, now: Time)
    requires RowsStep(w.db, w'.db, now) && LogsGrow(w.db, w'.db) && w'.clock == now >= w.clock
    requires w'.pending == w.pending && w'.issued == w.issued
    ensures Next(w, w')
  {
    hide RowStep, LogsGrow;
  }

  lemma SameRowsIsNext(w: World, w': World)
    requires RowsFine(w.db) && EventsInv(w.db) && w.clock <= w'.clock && w.issued <= w'.issued
    requires forall id :: id in w.db.jobs ==> id in w'.db.jobs && w'.db.jobs[id] == w.db.jobs[id]
    requires forall id :: id in w.db.jobs ==> id in w'.db.events && w'.db.events[id] == w.db.events[id]
    requires forall id :: id in w'.db.jobs && id !in w.db.jobs ==> w'.db.jobs[id].leaseToken.None?
    requires forall t :: t in w'.pending ==> (t in w.pending && w'.pending[t] == w.pending[t]) || t !in w.issued
    ensures Next(w, w')
  {
    forall id | id in w.db.jobs ensures RowStep(w.db.jobs[id], w'.db.jobs[id], w'.clock) {
      SameRowStep(w.db.jobs[id], w'.clock);
    }
  }

  lemma EnqueueIsNext(w: World, a: Action)
    requires Core(w) && Enabled(w, a) && a.DoEnqueue?
    ensures Next(w, Apply(w, a))
  {
    hide TokensInv, PendingInv, KeysInv, RowsInv, Next, DbAfter;
    FineRows(w);
    if (a.owner, a.kind, a.key) in w.db.idem {
      EnqueueRepeats(w, a);
    } else {
      var row := EnqueueAdds(w, a);
    }
    SameRowsIsNext(w, Apply(w, a));
  }

  lemma OneClaimIsNext(w: World, w': World, t: Token, row: JobRow)
    requires RowsFine(w.db) && EventsInv(w.db) && w.clock <= w'.clock
    requires WritesRow(w, w', t, row) && row.id == w.pending[t].id
    ensures Next(w, w')
  {
    forall id | id in w.db.jobs
      ensures RowStep(w.db.jobs[id], w'.db.jobs[id], w'.clock) || ClaimedBy(w, t, id, w'.db.jobs[id])
    {
      if id != row.id { SameRowStep(w.db.jobs[id], w'.clock); }
    }
  }

  lemma WriteIsNext(w: World, a: Action)
    requires Core(w) && Enabled(w, a) && a.DoClaimWrite?
    ensures Next(w, Apply(w, a))
  {
    FineRows(w);
    var row := WriteMakes(w, a);
    hide DbAfter, TokensInv, PendingInv, KeysInv, RowsInv, Next, WritesRow;
    OneClaimIsNext(w, Apply(w, a), a.token, row);
  }

  lemma LockIsNext(w: World, a: Action)
    requires RowsFine(w.db) && EventsInv(w.db) && w.clock <= a.now
    requires a.DoClaimLock? && a.token !in w.issued
    ensures Next(w, Apply(w, a))
  {
    var w' := Apply(w, a);
    assert w'.db.jobs == w.db.jobs && w'.db.events == w.db.events;
    SameRowsIsNext(w, w');
  }

  /** Every enabled action is such a step. */
  lemma StepIsNext(w: World, a: Action)
    requires Core(w) && Enabled(w, a)
    ensures Next(w, Apply(w, a))
  {
    FineRows(w);
    hide Next, Apply;
    match a
    case DoEnqueue(_, _, _, _, _, _) => EnqueueIsNext(w, a);
    case DoClaimLock(_, _, _, _, _) => LockIsNext(w, a);
    case DoClaimWrite(_, _) => WriteIsNext(w, a);
    case _ => RewriteIsNext(w, a);
  }
}
