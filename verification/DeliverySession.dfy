/**
 The services that change job and attempt rows, as one session runs them: they assign fields of the rows
 in the session's view and flush; the view reaches the database at commit.  The database may refuse any
 statement or commit, and only then does a service report a database error.
 */
module DeliverySession {
  import opened Wrappers
  import opened RetryPolicy
  import opened DeliveryTables
  import opened JobQueue
  import opened DeliveryTransactions

  /** Which statements and commits the database refuses: a lost connection, a deadlock, a full disk. */
  type Faults = nat -> bool

  /** No statement from one count to another was refused. */
  predicate Smooth(faults: Faults, from: nat, to: nat): (r: bool)
    ensures to <= from ==> r
  {
    forall k | from <= k < to :: !faults(k)
  }

  /** The committed tables, the job rows that open transactions hold locks on, and the statements sent so far. */
  class Database {
    const faults: Faults
    var tables: Tables
    var locked: set<JobId>
    var statements: nat

    constructor (tables: Tables, faults: Faults)
      ensures this.tables == tables && this.faults == faults && locked == {} && statements == 0
    {
      this.tables, this.faults := tables, faults;
      locked, statements := {}, 0;
    }

    method Raises() returns (raised: bool)
      modifies this`statements
      ensures statements == old(statements) + 1 && raised == faults(old(statements))
      ensures forall from | 0 <= from <= old(statements) ::
                Smooth(faults, from, statements) <==> Smooth(faults, from, old(statements)) && !raised
    {
      raised := faults(statements);
      statements := statements + 1;
    }
  }

  datatype CompletedJob = CompletedJob(id: JobId, attemptNumber: int, status: Status, nextAttemptAt: Option<int>)

  /** view is what the session's transaction sees, held the job rows it has locked. */
  class Session {
    const database: Database
    var view: Tables
    var held: set<JobId>

    constructor (database: Database)
      ensures this.database == database && view == database.tables && held == {}
    {
      this.database := database;
      view := database.tables;
      held := {};
    }

    /** Locks the rows a statement selected or is about to update. */
    method Lock(ids: seq<JobId>)
      modifies database`locked, this`held
      ensures held == old(held) + (set j | j in ids)
      ensures database.locked == old(database.locked) + (set j | j in ids)
    {
      held := held + (set j | j in ids);
      database.locked := database.locked + (set j | j in ids);
    }

    /**
     Publishes the view and releases the locks.  A refused commit does neither: the transaction must be rolled back.
     */
    method Commit() returns (ok: bool)
      modifies database, this`held
      ensures ok ==> database.tables == view && database.locked == old(database.locked) - old(held) && held == {}
      ensures !ok ==> database.tables == old(database.tables) && database.locked == old(database.locked)
      ensures !ok ==> held == old(held)
      ensures database.statements == old(database.statements) + 1 && ok == !database.faults(old(database.statements))
      ensures forall from | 0 <= from <= old(database.statements) ::
                Smooth(database.faults, from, database.statements)
                <==> Smooth(database.faults, from, old(database.statements)) && ok
    {
      var raised := database.Raises();
      ok := !raised;
      if ok {
        database.tables := view;
        database.locked := database.locked - held;
        held := {};
      }
    }

    /** Forgets the view and releases the locks, so that the rows can be claimed again. */
    method Rollback()
      modifies this, database`locked
      ensures view == database.tables && held == {} && database.locked == old(database.locked) - old(held)
    {
      view := database.tables;
      database.locked := database.locked - held;
      held := {};
    }

    /** Takes the limit earliest due jobs nobody holds, locks them, marks each as processing, and flushes. */
    method ClaimDueJobs(claimedAt: int, limit: int) returns (r: Result<seq<JobId>, Failure>)
      requires held == {}
      modifies this`view, this`held, database`locked, database`statements
      ensures held !! old(database.locked) && database.locked == old(database.locked) + held
      ensures old(database.statements) <= database.statements
      ensures r == Err(DatabaseError) <==> !Smooth(database.faults, old(database.statements), database.statements)
      ensures limit < 1 <==> r == Err(InvalidLimit)
      ensures r.Err? && limit >= 1 ==> r.error == DatabaseError
      ensures r.Ok? ==> r.value == DueJobs(old(view).jobs, old(database.locked), claimedAt, limit)
      ensures r.Ok? ==> view == old(view).(jobs := ClaimedJobs(old(view).jobs, r.value, claimedAt))
    {
      if limit < 1 {
        return Err(InvalidLimit);
      }
      hide DueJobs, ClaimedJobs, Smooth;
      var selected := SelectDue(claimedAt, limit);
      if selected.Err? {
        return selected;
      }
      var ids := selected.value;
      MarkClaimed(ids, claimedAt);
      if ids != [] {
        var raised := database.Raises();
        if raised {
          return Err(DatabaseError);
        }
      }
      return Ok(ids);
    }

    /** The locking query of a claim. */
    method SelectDue(instant: int, limit: nat) returns (r: Result<seq<JobId>, Failure>)
      requires held == {}
      modifies this`held, database`locked, database`statements
      ensures database.statements == old(database.statements) + 1
      ensures r == Err(DatabaseError) <==> !Smooth(database.faults, old(database.statements), database.statements)
      ensures r.Err? ==> r.error == DatabaseError
      ensures held !! old(database.locked) && database.locked == old(database.locked) + held
      ensures r.Ok? ==> r.value == DueJobs(view.jobs, old(database.locked), instant, limit)
      ensures r.Ok? ==> Distinct(r.value) && forall j | j in r.value :: j in view.jobs
    {
      hide DueJobs;
      var raised := database.Raises();
      if raised {
        return Err(DatabaseError);
      }
      var ids := DueJobs(view.jobs, database.locked, instant, limit);
      SelectedAreFree(view.jobs, database.locked, instant, limit);
      Lock(ids);
      return Ok(ids);
    }

    /** The loop of a claim over its rows. */
    method MarkClaimed(ids: seq<JobId>, claimedAt: int)
      requires Distinct(ids) && forall j | j in ids :: j in view.jobs
      modifies this`view
      ensures view == old(view).(jobs := ClaimedJobs(old(view).jobs, ids, claimedAt))
    {
      hide ClaimedJobs;
      NothingClaimed(view.jobs, claimedAt);
      for n := 0 to |ids|
        invariant view == old(view).(jobs := ClaimedJobs(old(view).jobs, ids[..n], claimedAt))
      {
        assert ids[n] in ids;
        OneMoreClaimed(old(view).jobs, ids, n, claimedAt);
        var job := view.jobs[ids[n]];
        job := job.(status := Processing);
        job := job.(updatedAt := claimedAt);
        view := view.(jobs := view.jobs[ids[n] := job]);
      }
      assert ids[..|ids|] == ids;
    }

    /** Returns the limit longest-untouched stale jobs to pending, due at once. */
    method RecoverStaleJobs(staleBefore: int, recoveredAt: int, limit: int) returns (r: Result<seq<JobId>, Failure>)
      requires held == {}
      modifies this`view, this`held, database`locked, database`statements
      ensures held !! old(database.locked) && database.locked == old(database.locked) + held
      ensures old(database.statements) <= database.statements
      ensures r == Err(DatabaseError) <==> !Smooth(database.faults, old(database.statements), database.statements)
      ensures limit < 1 <==> r == Err(InvalidLimit)
      ensures limit >= 1 && recoveredAt < staleBefore <==> r == Err(InvalidInterval)
      ensures r.Err? && limit >= 1 && staleBefore <= recoveredAt ==> r.error == DatabaseError
      ensures r.Ok? ==> r.value == StaleJobs(old(view).jobs, old(database.locked), staleBefore, limit)
      ensures r.Ok? ==> view == old(view).(jobs := RecoveredJobs(old(view).jobs, r.value, recoveredAt))
    {
      if limit < 1 {
        return Err(InvalidLimit);
      }
      if recoveredAt < staleBefore {
        return Err(InvalidInterval);
      }
      hide StaleJobs, RecoveredJobs, Smooth;
      var selected := SelectStale(staleBefore, limit);
      if selected.Err? {
        return selected;
      }
      var ids := selected.value;
      MarkRecovered(ids, recoveredAt);
      if ids != [] {
        var raised := database.Raises();
        if raised {
          return Err(DatabaseError);
        }
      }
      return Ok(ids);
    }

    /** The locking query of a recovery. */
    method SelectStale(instant: int, limit: nat) returns (r: Result<seq<JobId>, Failure>)
      requires held == {}
      modifies this`held, database`locked, database`statements
      ensures database.statements == old(database.statements) + 1
      ensures r == Err(DatabaseError) <==> !Smooth(database.faults, old(database.statements), database.statements)
      ensures r.Err? ==> r.error == DatabaseError
      ensures held !! old(database.locked) && database.locked == old(database.locked) + held
      ensures r.Ok? ==> r.value == StaleJobs(view.jobs, old(database.locked), instant, limit)
      ensures r.Ok? ==> Distinct(r.value) && forall j | j in r.value :: j in view.jobs
    {
      hide StaleJobs;
      var raised := database.Raises();
      if raised {
        return Err(DatabaseError);
      }
      var ids := StaleJobs(view.jobs, database.locked, instant, limit);
      SelectedAreFree(view.jobs, database.locked, instant, limit);
      Lock(ids);
      return Ok(ids);
    }

    /** The loop of a recovery over its rows. */
    method MarkRecovered(ids: seq<JobId>, recoveredAt: int)
      requires Distinct(ids) && forall j | j in ids :: j in view.jobs
      modifies this`view
      ensures view == old(view).(jobs := RecoveredJobs(old(view).jobs, ids, recoveredAt))
    {
      hide RecoveredJobs;
      NothingClaimed(view.jobs, recoveredAt);
      for n := 0 to |ids|
        invariant view == old(view).(jobs := RecoveredJobs(old(view).jobs, ids[..n], recoveredAt))
      {
        assert ids[n] in ids;
        OneMoreRecovered(old(view).jobs, ids, n, recoveredAt);
        var job := view.jobs[ids[n]];
        job := job.(status := Pending);
        job := job.(nextAttemptAt := Some(recoveredAt));
        job := job.(updatedAt := recoveredAt);
        view := view.(jobs := view.jobs[ids[n] := job]);
      }
      assert ids[..|ids|] == ids;
    }

    /** Restarts the finished job of an event with a full budget; refuses exactly when ReplayRefusal says so. */
    method ReplayEvent(event: EventId, replayedAt: int) returns (r: Result<JobId, Failure>)
      requires held == {} && forall j | j in view.jobs && view.jobs[j].event == event :: j !in database.locked
      modifies this`view, this`held, database`locked, database`statements
      ensures held !! old(database.locked) && database.locked == old(database.locked) + held
      ensures old(database.statements) <= database.statements
      ensures r == Err(DatabaseError) <==> !Smooth(database.faults, old(database.statements), database.statements)
      ensures r.Ok? ==> ReplayRefusal(old(view), event).None?
      ensures r.Ok? ==>
                r.value in old(view).jobs && old(view).jobs[r.value].event == event
                && Terminal(old(view).jobs[r.value].status)
      ensures r.Ok? ==>
                var was := old(view).jobs[r.value];
                var now := Job(was.event, Pending, Some(replayedAt), 0, was.createdAt, replayedAt);
                view == Tables(old(view).endpoints, old(view).events, old(view).jobs[r.value := now],
                               old(view).attempts)
      ensures r.Err? && r.error != DatabaseError && OneJobPerEvent(old(view)) ==>
                ReplayRefusal(old(view), event) == Some(r.error)
    {
      var raised := database.Raises();
      if raised {
        return Err(DatabaseError);
      }
      if event !in view.events {
        return Err(EventNotFound);
      }
      var endpoint := view.events[event];
      if endpoint !in view.endpoints {
        return Err(EndpointNotFound);
      }
      if !view.endpoints[endpoint] {
        return Err(EndpointInactive);
      }
      if forall j | j in view.jobs :: view.jobs[j].event != event {
        return Err(JobNotFound);
      }
      var id :| id in view.jobs && view.jobs[id].event == event;
      Lock([id]);
      var job := view.jobs[id];
      if job.status != Succeeded && job.status != DeadLetter {
        return Err(JobNotReplayable);
      }
      job := job.(status := Pending);
      job := job.(nextAttemptAt := Some(replayedAt));
      job := job.(updatedAt := replayedAt);
      job := job.(attemptCount := 0);
      view := view.(jobs := view.jobs[id := job]);
      raised := database.Raises();
      if raised {
        return Err(DatabaseError);
      }
      return Ok(id);
    }

    /** One post and its attempt row. */
    method ExecuteDelivery(event: EventId, x: Exchange) returns (r: Result<Attempt, Failure>)
      modifies this`view, database`statements
      ensures old(database.statements) <= database.statements
      ensures r == Err(DatabaseError) <==> !Smooth(database.faults, old(database.statements), database.statements)
      ensures r.Ok? ==> Deliver(old(view), event, x) == r && view == WithDelivery(old(view), event, r.value)
      ensures r.Err? && r.error != DatabaseError ==> Deliver(old(view), event, x) == r
    {
      var raised := database.Raises();
      if raised {
        return Err(DatabaseError);
      }
      var number := Prepare(view, event);
      if number.Err? {
        return Err(number.error);
      }
      var outcome, responseStatus, error := DeliveryFailed, None, None;
      match x.post {
        case UnexpectedError =>
          return Err(PostRaised);
        case Timeout =>
          error := Some(TimedOut);
        case TransportError(name) =>
          error := Some(RequestFailed(name));
        case Response(code) =>
          responseStatus := Some(code);
          if 200 <= code <= 299 {
            outcome := DeliverySucceeded;
          } else {
            error := Some(ReturnedStatus(code));
          }
      }
      var attempt := Attempt(number.value, outcome, responseStatus, error, DurationMs(x.startedNs, x.finishedNs),
                             x.attemptedAt);
      raised := database.Raises();
      if raised {
        return Err(DatabaseError);
      }
      var rows := AttemptsOf(view, event);
      if !AttemptChecks(attempt) || exists i | 0 <= i < |rows| :: rows[i].number == attempt.number {
        return Err(IntegrityError);
      }
      view := view.(attempts := view.attempts[event := rows + [attempt]]);
      return Ok(attempt);
    }

    /** Delivers for a claimed job and writes the retry decision into its row. */
    method ExecuteDeliveryJob(cfg: Settings, id: JobId, x: Exchange) returns (r: Result<CompletedJob, Failure>)
      requires Representable(cfg) && held == {} && id !in database.locked
      modifies this`view, this`held, database`locked, database`statements
      ensures held <= {id} && database.locked == old(database.locked) + held
      ensures old(database.statements) <= database.statements
      ensures r == Err(DatabaseError) <==> !Smooth(database.faults, old(database.statements), database.statements)
      ensures r.Ok? ==> Complete(cfg, old(view), id, x) == Ok(view)
      ensures r.Ok? ==> Reported(old(view), view, id, r.value)
      ensures r.Err? && r.error != DatabaseError ==> Complete(cfg, old(view), id, x) == Err(r.error)
    {
      var raised := database.Raises();
      if raised {
        return Err(DatabaseError);
      }
      if id !in view.jobs {
        return Err(JobNotFound);
      }
      var loaded := view.jobs[id];
      if loaded.status != Processing {
        return Err(JobNotProcessing);
      }
      var cycleAttemptNumber := loaded.attemptCount + 1;
      var attempt := ExecuteDelivery(loaded.event, x);
      if attempt.Err? {
        return Err(attempt.error);
      }
      var decision := DecideRetry(attempt.value.outcome, cycleAttemptNumber, x.decisionAt,
                                  cfg.maxAttempts, cfg.baseDelay, cfg.maxDelay, cfg.rounding);
      if decision.Err? {
        return Err(PolicyError(decision.error));
      }
      var job := loaded;
      job := job.(attemptCount := cycleAttemptNumber);
      job := job.(status := DecisionStatus(decision.value));
      job := job.(nextAttemptAt := DecisionInstant(decision.value));
      job := job.(updatedAt := x.decisionAt);
      raised := database.Raises();
      if raised {
        return Err(DatabaseError);
      }
      assert JobChecks(job);
      Lock([id]);
      view := view.(jobs := view.jobs[id := Flushed(view.jobs[id], loaded, job)]);
      return Ok(CompletedJob(id, attempt.value.number, job.status, job.nextAttemptAt));
    }
  }

  /** Both selections take distinct rows of the table that nobody holds. */
  lemma SelectedAreFree(jobs: Jobs, locked: set<JobId>, instant: int, limit: nat)
    ensures var ids := DueJobs(jobs, locked, instant, limit);
            Distinct(ids) && forall j | j in ids :: j in jobs && j !in locked
    ensures var ids := StaleJobs(jobs, locked, instant, limit);
            Distinct(ids) && forall j | j in ids :: j in jobs && j !in locked
  {
    hide DueJobs, StaleJobs;
    DueJobsSelection(jobs, locked, instant, limit);
    StaleJobsSelection(jobs, locked, instant, limit);
  }

  lemma NothingClaimed(jobs: Jobs, at: int)
    ensures ClaimedJobs(jobs, [], at) == jobs && RecoveredJobs(jobs, [], at) == jobs
  {
  }

  lemma OneMoreClaimed(jobs: Jobs, ids: seq<JobId>, n: nat, at: int)
    requires Distinct(ids) && n < |ids| && ids[n] in jobs
    ensures ClaimedJobs(jobs, ids[..n], at)[ids[n]] == jobs[ids[n]]
    ensures ClaimedJobs(jobs, ids[..n + 1], at)
            == ClaimedJobs(jobs, ids[..n], at)[ids[n] := ClaimedRow(jobs[ids[n]], at)]
  {
    assert ids[..n + 1] == ids[..n] + [ids[n]];
  }

  lemma OneMoreRecovered(jobs: Jobs, ids: seq<JobId>, n: nat, at: int)
    requires Distinct(ids) && n < |ids| && ids[n] in jobs
    ensures RecoveredJobs(jobs, ids[..n], at)[ids[n]] == jobs[ids[n]]
    ensures RecoveredJobs(jobs, ids[..n + 1], at)
            == RecoveredJobs(jobs, ids[..n], at)[ids[n] := RecoveredRow(jobs[ids[n]], at)]
  {
    assert ids[..n + 1] == ids[..n] + [ids[n]];
  }

  /** The snapshot of a completion names the job, the attempt just added, and the job's new state. */
  predicate Reported(before: Tables, after: Tables, id: JobId, c: CompletedJob) {
    && id in before.jobs && id in after.jobs && c.id == id
    && |AttemptsOf(after, before.jobs[id].event)| == |AttemptsOf(before, before.jobs[id].event)| + 1
    && c.attemptNumber == AttemptsOf(after, before.jobs[id].event)[|AttemptsOf(before, before.jobs[id].event)|].number
    && c.status == after.jobs[id].status && c.nextAttemptAt == after.jobs[id].nextAttemptAt
  }
}
