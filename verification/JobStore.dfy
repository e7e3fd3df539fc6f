/** The in-memory job store: shared row maps updated in place, one object per
    session over them. Every method is tied to the operation of JobSpec. */
module JobStore {
  import opened Options
  import opened JobRecords
  import opened JobSpec

  class InMemoryJobsDatabase {
    var jobs: map<JobId, JobRow>
    var idempotency: map<IdemKey, JobId>
    var steps: map<StepKey, StepRow>
    var events: map<JobId, seq<Event>>
    var locks: map<JobId, Session>

    constructor ()
      ensures View() == EMPTY_DB
    {
      jobs, idempotency, steps, events, locks := map[], map[], map[], map[], map[];
    }

    function View(): Db
      reads this
    {
      Db(jobs, idempotency, steps, events, locks)
    }
  }

  class InMemoryJobsStore {
    const db: InMemoryJobsDatabase
    const sessionId: Session

    constructor (db: InMemoryJobsDatabase, sessionId: Session)
      ensures this.db == db && this.sessionId == sessionId
    {
      this.db := db;
      this.sessionId := sessionId;
    }

    method InsertJob(row: JobRow) returns (inserted: bool)
      modifies db
      ensures inserted == ((row.ownerId, row.kind, row.key) !in old(db.idempotency))
      ensures db.View() == if inserted then JobSpec.InsertJob(old(db.View()), row) else old(db.View())
    {
      var key := (row.ownerId, row.kind, row.key);
      if key in db.idempotency {
        return false;
      }
      db.idempotency := db.idempotency[key := row.id];
      db.jobs := db.jobs[row.id := row];
      if row.id !in db.events {
        db.events := db.events[row.id := []];
      }
      return true;
    }

    method FindIdempotentJob(owner: OwnerId, kind: string, key: string) returns (row: Option<JobRow>)
      ensures row.Some? ==>
        (owner, kind, key) in db.idempotency && db.idempotency[(owner, kind, key)] in db.jobs
        && row.value == db.jobs[db.idempotency[(owner, kind, key)]]
      ensures row.None? ==>
        (owner, kind, key) in db.idempotency ==> db.idempotency[(owner, kind, key)] !in db.jobs
    {
      if (owner, kind, key) !in db.idempotency {
        return None;
      }
      row := GetJob(db.idempotency[(owner, kind, key)]);
    }

    method GetJob(id: JobId) returns (row: Option<JobRow>)
      ensures row == if id in db.jobs then Some(db.jobs[id]) else None
    {
      row := if id in db.jobs then Some(db.jobs[id]) else None;
    }

    method GetStep(key: StepKey) returns (step: Option<StepRow>)
      ensures step == if key in db.steps then Some(db.steps[key]) else None
    {
      step := if key in db.steps then Some(db.steps[key]) else None;
    }

    /** First half of the claim: scan for the first claimable row and lock it.
        Another session may run between this and ClaimWrite. */
    method ClaimLock(now: Time, kinds: set<string>) returns (pick: Option<JobId>)
      requires forall id :: id in db.jobs ==> db.jobs[id].id == id
      modifies db
      ensures IsPick(old(db.View()), sessionId, now, kinds, pick)
      ensures db.View() == Lock(old(db.View()), sessionId, pick)
    {
      pick := None;
      var rest := db.jobs.Keys;
      while rest != {}
        invariant rest <= db.jobs.Keys
        invariant pick.Some? ==> pick.value !in rest && Claimable(db.View(), sessionId, now, kinds, pick.value)
        invariant forall id :: id in db.jobs && id !in rest && Claimable(db.View(), sessionId, now, kinds, id) ==>
          pick.Some? && (id == pick.value || Before(db.jobs[pick.value], db.jobs[id]))
      {
        var id :| id in rest;
        rest := rest - {id};
        if Claimable(db.View(), sessionId, now, kinds, id)
           && (pick.None? || Before(db.jobs[id], db.jobs[pick.value])) {
          pick := Some(id);
        }
      }
      if pick.Some? {
        db.locks := db.locks[pick.value := sessionId];
      }
    }

    /** Second half of the claim: write the lease, release the lock. */
    method ClaimWrite(id: JobId, token: Token, now: Time) returns (row: JobRow)
      requires id in db.jobs
      modifies db
      ensures db.View() == JobSpec.ClaimWrite(old(db.View()), id, token, now)
      ensures row == db.jobs[id]
    {
      var claimed := db.jobs[id];
      row := claimed.(state := Running, attempt := claimed.attempt + 1, leaseToken := Some(token),
                      leaseUntil := Some(now + LEASE_SECONDS), heartbeatAt := Some(now));
      db.jobs := db.jobs[id := row];
      db.locks := db.locks - {id};
    }

    method FencedUpdate(id: JobId, token: Token, now: Time, values: Values) returns (count: nat)
      modifies db
      ensures db.View() == JobSpec.FencedUpdate(old(db.View()), id, token, now, values)
      ensures count == if Current(old(db.View()), id, token, now) then 1 else 0
    {
      if id !in db.jobs || !FenceOk(db.jobs[id], token, now) {
        return 0;
      }
      db.jobs := db.jobs[id := Update(db.jobs[id], values)];
      return 1;
    }

    method UpsertStep(key: StepKey, step: StepRow) returns (stored: StepRow)
      modifies db
      ensures db.View() == JobSpec.UpsertStep(old(db.View()), key, step)
      ensures stored == db.steps[key]
    {
      if key !in db.steps {
        db.steps := db.steps[key := step];
        return step;
      }
      var row := db.steps[key];
      row := row.(state := step.state, outputRef := step.outputRef, completedAt := step.completedAt,
                  startedAt := if step.startedAt.Some? then step.startedAt else row.startedAt);
      db.steps := db.steps[key := row];
      return row;
    }

    method NextEventNum(id: JobId) returns (num: nat)
      ensures num == MaxNum(Log(db.View(), id)) + 1
    {
      var log := if id in db.events then db.events[id] else [];
      var highest := 0;
      for i := 0 to |log|
        invariant highest == MaxNum(log[..i])
      {
        assert log[..i + 1][..i] == log[..i];
        if log[i].num > highest {
          highest := log[i].num;
        }
      }
      assert log[..|log|] == log;
      return highest + 1;
    }

    /** `false` is the duplicate sequence number the primary key refuses. */
    method InsertEvent(id: JobId, event: Event) returns (inserted: bool)
      modifies db
      ensures inserted == forall i :: 0 <= i < |old(Log(db.View(), id))| ==> old(Log(db.View(), id))[i].num != event.num
      ensures inserted ==>
        db.View() == old(db.View()).(events := old(db.events)[id := old(Log(db.View(), id)) + [event]])
      ensures !inserted ==> forall other :: Log(db.View(), other) == old(Log(db.View(), other))
      ensures !inserted ==> db.View().(events := old(db.events)) == old(db.View())
    {
      if id !in db.events {
        db.events := db.events[id := []];
      }
      var log := db.events[id];
      for i := 0 to |log|
        invariant forall j :: 0 <= j < i ==> log[j].num != event.num
      {
        if log[i].num == event.num {
          assert old(Log(db.View(), id))[i].num == event.num;
          return false;
        }
      }
      db.events := db.events[id := log + [event]];
      return true;
    }

    method RequestCancel(id: JobId, at: Time) returns (count: nat)
      modifies db
      ensures db.View() == JobSpec.RequestCancel(old(db.View()), id, at)
      ensures count == 1 <==> old(db.View()) != db.View()
      ensures count <= 1
    {
      if id !in db.jobs || !Cancellable(db.jobs[id].state) || db.jobs[id].cancelRequestedAt.Some? {
        return 0;
      }
      db.jobs := db.jobs[id := db.jobs[id].(cancelRequestedAt := Some(at))];
      assert db.jobs[id] != old(db.jobs)[id];
      return 1;
    }

    method RequeueDue(now: Time) returns (count: nat)
      modifies db
      ensures db.View() == JobSpec.RequeueDue(old(db.View()), now)
      ensures count == |set id | id in old(db.jobs) && Due(old(db.jobs)[id], now)|
    {
      ghost var before := db.jobs;
      var rest := db.jobs.Keys;
      ghost var moved: set<JobId> := {};
      count := 0;
      while rest != {}
        invariant db.idempotency == old(db.idempotency) && db.steps == old(db.steps)
        invariant db.events == old(db.events) && db.locks == old(db.locks)
        invariant rest <= before.Keys == db.jobs.Keys
        invariant forall id :: id in before ==>
          db.jobs[id] == if id in rest then before[id] else RequeueRow(before[id], now)
        invariant forall id :: id in moved <==> id in before && id !in rest && Due(before[id], now)
        invariant count == |moved|
      {
        var id :| id in rest;
        rest := rest - {id};
        if Due(db.jobs[id], now) {
          db.jobs := db.jobs[id := db.jobs[id].(state := Queued)];
          count, moved := count + 1, moved + {id};
        }
      }
      assert moved == set id | id in before && Due(before[id], now);
    }

    method ExpiredRunningJobs(now: Time) returns (expired: seq<JobRow>)
      requires forall id :: id in db.jobs ==> db.jobs[id].id == id
      ensures forall i :: 0 <= i < |expired| ==>
        expired[i].id in db.jobs && expired[i] == db.jobs[expired[i].id] && Expired(expired[i], now)
      ensures forall id :: id in db.jobs && Expired(db.jobs[id], now) ==> db.jobs[id] in expired
      ensures forall i, j :: 0 <= i < j < |expired| ==> expired[i].id != expired[j].id
    {
      expired := [];
      var rest := db.jobs.Keys;
      while rest != {}
        invariant rest <= db.jobs.Keys
        invariant forall i :: 0 <= i < |expired| ==>
          expired[i].id in db.jobs && expired[i].id !in rest
          && expired[i] == db.jobs[expired[i].id] && Expired(expired[i], now)
        invariant forall id :: id in db.jobs && id !in rest && Expired(db.jobs[id], now) ==> db.jobs[id] in expired
        invariant forall i, j :: 0 <= i < j < |expired| ==> expired[i].id != expired[j].id
      {
        var id :| id in rest;
        rest := rest - {id};
        if Expired(db.jobs[id], now) {
          expired := expired + [db.jobs[id]];
        }
      }
    }

    method ExpireUpdate(id: JobId, now: Time, values: Values) returns (count: nat)
      modifies db
      ensures count == if id in old(db.jobs) && Expired(old(db.jobs)[id], now) then 1 else 0
      ensures db.View() == if count == 1 then Put(old(db.View()), id, Update(old(db.jobs)[id], values)) else old(db.View())
    {
      if id !in db.jobs || !Expired(db.jobs[id], now) {
        return 0;
      }
      db.jobs := db.jobs[id := Update(db.jobs[id], values)];
      return 1;
    }
  }
}
