/**
 One processing cycle of a worker that runs alone (delivery_processing_service.py): a claim
 transaction, then one transaction per claimed job, in claim order.

 answers(k) is what clocks and HTTP client would answer to the k-th delivery of the worker.  The trail of a
 cycle is the ghost list of tables it committed: after the claim, then after each completed job.
 */
module DeliveryProcessing {
  import opened Wrappers
  import opened RetryPolicy
  import opened DeliveryTables
  import opened JobQueue
  import opened DeliveryTransactions
  import opened DeliverySession

  type Answers = nat -> Exchange

  datatype Cycle = Cycle(claimed: seq<JobId>, completed: seq<CompletedJob>)

  function ClaimedIds(t: Tables, at: int, limit: nat): seq<JobId> {
    DueJobs(t.jobs, {}, at, limit)
  }

  /** Committed tables that follow from each other by completing the first claimed jobs, one transaction each. */
  ghost predicate IsTrail(cfg: Settings, ids: seq<JobId>, answers: Answers, first: nat, trail: seq<Tables>)
    requires Representable(cfg)
  {
    && 1 <= |trail| <= |ids| + 1
    && (forall k | 0 <= k < |trail| - 1 :: Complete(cfg, trail[k], ids[k], answers(first + k)) == Ok(trail[k + 1]))
  }

  ghost predicate IsCycle(cfg: Settings, before: Tables, at: int, limit: nat, answers: Answers, first: nat,
                          trail: seq<Tables>)
    requires Representable(cfg)
  {
    IsTrail(cfg, ClaimedIds(before, at, limit), answers, first, trail) && trail[0] == AfterClaim(before, at, limit)
  }

  ghost predicate AllReported(ids: seq<JobId>, trail: seq<Tables>, completed: seq<CompletedJob>) {
    && |completed| <= |ids| && |completed| < |trail|
    && (forall k | 0 <= k < |completed| :: Reported(trail[k], trail[k + 1], ids[k], completed[k]))
  }

  /** The errors of a transaction itself, as opposed to those of validating a caller's arguments. */
  predicate CanFail(error: Failure) {
    && !error.InvalidPollInterval? && !error.InvalidStaleTimeout? && !error.InvalidLimit?
    && !error.InvalidTimeout? && !error.InvalidInterval? && !error.InstantUnderflow?
  }

  /** The claim transaction: all of the claim is committed, or nothing is. */
  method ClaimTransaction(database: Database, claimedAt: int, limit: int) returns (r: Result<seq<JobId>, Failure>)
    requires limit >= 1 && database.locked == {}
    modifies database
    ensures database.locked == {}
    ensures old(database.statements) <= database.statements
    ensures r == Err(DatabaseError) <==> !Smooth(database.faults, old(database.statements), database.statements)
    ensures r.Ok? ==> r.value == ClaimedIds(old(database.tables), claimedAt, limit)
                      && database.tables == AfterClaim(old(database.tables), claimedAt, limit)
    ensures r.Err? ==> r.error == DatabaseError && database.tables == old(database.tables)
  {
    var session := new Session(database);
    r := session.ClaimDueJobs(claimedAt, limit);
    if r.Ok? {
      var ok := session.Commit();
      if !ok {
        r := Err(DatabaseError);
      }
    }
    if r.Err? {
      session.Rollback();
    }
  }

  /** The transaction of one claimed job: the whole completion is committed, or nothing is. */
  method CompletionTransaction(database: Database, cfg: Settings, id: JobId, x: Exchange)
    returns (r: Result<CompletedJob, Failure>)
    requires Representable(cfg) && database.locked == {}
    modifies database
    ensures database.locked == {}
    ensures old(database.statements) <= database.statements
    ensures r == Err(DatabaseError) <==> !Smooth(database.faults, old(database.statements), database.statements)
    ensures r.Ok? ==>
              Complete(cfg, old(database.tables), id, x) == Ok(database.tables)
              && Reported(old(database.tables), database.tables, id, r.value)
    ensures r.Err? ==> CanFail(r.error) && database.tables == old(database.tables)
    ensures r.Err? && r.error != DatabaseError ==> Complete(cfg, old(database.tables), id, x) == Err(r.error)
  {
    var session := new Session(database);
    r := session.ExecuteDeliveryJob(cfg, id, x);
    CompletionErrors(cfg, database.tables, id, x);
    if r.Ok? {
      var ok := session.Commit();
      if !ok {
        r := Err(DatabaseError);
      }
    }
    if r.Err? {
      session.Rollback();
    }
  }

  method RunProcessingCycle(database: Database, cfg: Settings, claimedAt: int, limit: int, timeout: Number,
                            answers: Answers, first: nat)
    returns (r: Result<Cycle, Failure>, ghost trail: seq<Tables>)
    requires Representable(cfg) && database.locked == {}
    modifies database
    ensures database.locked == {}
    ensures old(database.statements) <= database.statements
    ensures r == Err(DatabaseError) <==> !Smooth(database.faults, old(database.statements), database.statements)
    ensures limit < 1 <==> r == Err(InvalidLimit)
    ensures limit >= 1 && !timeout.Positive? <==> r == Err(InvalidTimeout)
    ensures r.Err? && limit >= 1 && timeout.Positive? ==> CanFail(r.error)
    ensures trail == [] ==> r.Err? && database.tables == old(database.tables)
    ensures trail != [] ==> limit >= 1
    ensures trail != [] ==> IsCycle(cfg, old(database.tables), claimedAt, limit, answers, first, trail)
    ensures trail != [] ==> database.tables == trail[|trail| - 1]
    ensures r.Ok? ==> trail != [] && r.value.claimed == ClaimedIds(old(database.tables), claimedAt, limit)
    ensures r.Ok? ==> |trail| == |r.value.claimed| + 1 && |r.value.completed| == |r.value.claimed|
    ensures r.Ok? ==> AllReported(r.value.claimed, trail, r.value.completed)
    ensures r.Err? && limit >= 1 && timeout.Positive? && trail == [] ==> r.error == DatabaseError
    ensures r.Err? && trail != [] ==> |trail| <= |ClaimedIds(old(database.tables), claimedAt, limit)|
    ensures r.Err? && trail != [] && r.error != DatabaseError ==>
              Complete(cfg, trail[|trail| - 1], ClaimedIds(old(database.tables), claimedAt, limit)[|trail| - 1],
                       answers(first + |trail| - 1)) == Err(r.error)
  {
    hide Complete, Reported, AfterClaim, ClaimedIds;
    trail := [];
    if limit < 1 {
      r := Err(InvalidLimit);
      return;
    }
    if !timeout.Positive? {
      r := Err(InvalidTimeout);
      return;
    }
    var claimed := ClaimTransaction(database, claimedAt, limit);
    if claimed.Err? {
      r := Err(claimed.error);
      return;
    }
    trail := [database.tables];
    var ids := claimed.value;
    var completedJobs := [];
    for n := 0 to |ids|
      invariant database.locked == {}
      invariant old(database.statements) <= database.statements
      invariant Smooth(database.faults, old(database.statements), database.statements)
      invariant |trail| == n + 1 && |completedJobs| == n
      invariant IsTrail(cfg, ids, answers, first, trail)
      invariant trail[0] == AfterClaim(old(database.tables), claimedAt, limit)
      invariant database.tables == trail[n]
      invariant AllReported(ids, trail, completedJobs)
    {
      var result := CompletionTransaction(database, cfg, ids[n], answers(first + n));
      if result.Err? {
        r := Err(result.error);
        return;
      }
      trail := trail + [database.tables];
      completedJobs := completedJobs + [result.value];
    }
    r := Ok(Cycle(ids, completedJobs));
  }

  lemma CompletionErrors(cfg: Settings, t: Tables, id: JobId, x: Exchange)
    requires Representable(cfg)
    ensures Complete(cfg, t, id, x).Err? ==> CanFail(Complete(cfg, t, id, x).error)
  {
  }

  // ---------------------------------------------------------------- what a cycle has done, wherever it stopped

  /**
   One claimed job has been completed: exactly one attempt, the next number, and the decision written on the claimed
   row.
   */
  predicate CompletedOnce(cfg: Settings, before: Tables, at: int, now: Tables, id: JobId, x: Exchange)
    requires Representable(cfg) && id in before.jobs && id in now.jobs
  {
    var was, row, a := before.jobs[id], now.jobs[id], Deliver(before, before.jobs[id].event, x);
    var n := was.attemptCount + 1;
    && a.Ok? && AttemptsOf(now, was.event) == AttemptsOf(before, was.event) + [a.value]
    && n >= 1 && cfg.baseDelay.Positive? && cfg.maxDelay.Positive?
    && row.event == was.event && row.createdAt == was.createdAt
    && row.attemptCount == n && row.updatedAt == x.decisionAt
    && (a.value.outcome == DeliverySucceeded ==> row.status == Succeeded && row.nextAttemptAt == None)
    && (a.value.outcome == DeliveryFailed && n >= cfg.maxAttempts ==>
          row.status == DeadLetter && row.nextAttemptAt == None)
    && (a.value.outcome == DeliveryFailed && n < cfg.maxAttempts ==>
          var wait := cfg.rounding(Least(Units(cfg.baseDelay.value) * Pow2(n - 1), Units(cfg.maxDelay.value)));
          row.status == Pending && row.nextAttemptAt == Some(x.decisionAt + wait))
  }

  /** Claimed and not yet completed: processing since the claim, and no new attempt. */
  predicate ClaimedOnly(before: Tables, at: int, now: Tables, id: JobId)
    requires id in before.jobs && id in now.jobs
  {
    && var was := before.jobs[id];
    && now.jobs[id] == Job(was.event, Processing, was.nextAttemptAt, was.attemptCount, was.createdAt, at)
    && AttemptsOf(now, was.event) == AttemptsOf(before, was.event)
  }

  /** The first j jobs are completed, the others only claimed, and nothing else has changed. */
  ghost predicate Progress(cfg: Settings, before: Tables, at: int, ids: seq<JobId>, answers: Answers, first: nat,
                           j: nat, now: Tables)
    requires Representable(cfg)
  {
    && j <= |ids| && now.jobs.Keys == before.jobs.Keys && (forall k | 0 <= k < |ids| :: ids[k] in before.jobs)
    && now.endpoints == before.endpoints && now.events == before.events
    && (forall k | 0 <= k < j :: CompletedOnce(cfg, before, at, now, ids[k], answers(first + k)))
    && (forall k | j <= k < |ids| :: ClaimedOnly(before, at, now, ids[k]))
    && (forall id | id in before.jobs && id !in ids :: now.jobs[id] == before.jobs[id])
    && (forall event | !EventOfSome(before, ids[..j], event) :: AttemptsOf(now, event) == AttemptsOf(before, event))
  }

  predicate EventOfSome(t: Tables, ids: seq<JobId>, event: EventId) {
    exists k | 0 <= k < |ids| :: ids[k] in t.jobs && t.jobs[ids[k]].event == event
  }

  lemma ClaimedWereDue(t: Tables, at: int, limit: nat, k: nat)
    requires k < |ClaimedIds(t, at, limit)|
    ensures var id := ClaimedIds(t, at, limit)[k]; id in t.jobs && IsDue(t.jobs[id], at)
  {
    hide DueJobs;
    DueJobsSelection(t.jobs, {}, at, limit);
    var ids := DueJobs(t.jobs, {}, at, limit);
    assert ids[k] in ids;
  }

  lemma ProgressStarts(cfg: Settings, before: Tables, at: int, limit: nat, answers: Answers, first: nat)
    requires Representable(cfg)
    ensures Progress(cfg, before, at, ClaimedIds(before, at, limit), answers, first, 0, AfterClaim(before, at, limit))
  {
    hide DueJobs;
    var ids := ClaimedIds(before, at, limit);
    forall k | 0 <= k < |ids| ensures ids[k] in before.jobs && ids[k] in ids && IsDue(before.jobs[ids[k]], at) {
      ClaimedWereDue(before, at, limit, k);
    }
  }

  /** Completing a job changes its row and its event's attempts, by one, and nothing else. */
  lemma CompletionEffect(cfg: Settings, t: Tables, id: JobId, x: Exchange)
    requires Representable(cfg) && Complete(cfg, t, id, x).Ok?
    ensures var n := Complete(cfg, t, id, x).value;
            && id in t.jobs && t.jobs[id].status.Processing? && Deliver(t, t.jobs[id].event, x).Ok?
            && n.endpoints == t.endpoints && n.events == t.events && n.jobs.Keys == t.jobs.Keys
            && !n.jobs[id].status.Processing?
            && (forall other | other in t.jobs && other != id :: n.jobs[other] == t.jobs[other])
            && AttemptsOf(n, t.jobs[id].event)
                == AttemptsOf(t, t.jobs[id].event) + [Deliver(t, t.jobs[id].event, x).value]
            && (forall event | event != t.jobs[id].event :: AttemptsOf(n, event) == AttemptsOf(t, event))
  {
  }

  /** A delivery depends only on its event, its endpoint and the event's attempts. */
  lemma DeliverDependsOn(t: Tables, u: Tables, event: EventId, x: Exchange)
    requires t.events == u.events && t.endpoints == u.endpoints && AttemptsOf(t, event) == AttemptsOf(u, event)
    ensures Deliver(t, event, x) == Deliver(u, event, x)
  {
  }

  /** Completing a job that is only claimed. */
  lemma CompletingClaimed(cfg: Settings, before: Tables, at: int, now: Tables, id: JobId, x: Exchange)
    requires Representable(cfg) && now.events == before.events && now.endpoints == before.endpoints
    requires id in before.jobs && id in now.jobs && ClaimedOnly(before, at, now, id)
    requires Complete(cfg, now, id, x).Ok?
    ensures id in Complete(cfg, now, id, x).value.jobs
    ensures CompletedOnce(cfg, before, at, Complete(cfg, now, id, x).value, id, x)
  {
    hide Deliver, DecideRetry, CompletedRow, Units, Least, Pow2;
    DeliverDependsOn(before, now, before.jobs[id].event, x);
    CompletionEffect(cfg, now, id, x);
    CompletionCases(cfg, now, id, x);
    AcceptedSettings(cfg, now, id, x);
  }

  lemma AcceptedSettings(cfg: Settings, t: Tables, id: JobId, x: Exchange)
    requires Representable(cfg) && Complete(cfg, t, id, x).Ok?
    ensures id in t.jobs && t.jobs[id].attemptCount >= 0 && cfg.maxAttempts >= 1
    ensures cfg.baseDelay.Positive? && cfg.maxDelay.Positive?
  {
  }

  lemma ProgressStep(cfg: Settings, before: Tables, at: int, ids: seq<JobId>, answers: Answers, first: nat, j: nat,
                     now: Tables)
    requires Representable(cfg) && OneJobPerEvent(before) && Distinct(ids) && j < |ids|
    requires Progress(cfg, before, at, ids, answers, first, j, now)
    requires Complete(cfg, now, ids[j], answers(first + j)).Ok?
    ensures Progress(cfg, before, at, ids, answers, first, j + 1, Complete(cfg, now, ids[j], answers(first + j)).value)
  {
    var x := answers(first + j);
    var next := Complete(cfg, now, ids[j], x).value;
    CompletionEffect(cfg, now, ids[j], x);
    assert ClaimedOnly(before, at, now, ids[j]);
    CompletingClaimed(cfg, before, at, now, ids[j], x);
    KeepsOthers(cfg, before, at, ids, answers, first, j, now, next);
    forall event | !EventOfSome(before, ids[..j + 1], event)
      ensures AttemptsOf(next, event) == AttemptsOf(before, event)
    {
      assert ids[..j + 1][j] == ids[j];
      forall k | 0 <= k < j ensures before.jobs[ids[..j][k]].event != event {
        assert ids[..j + 1][k] == ids[k];
      }
      assert !EventOfSome(before, ids[..j], event);
    }
  }

  lemma KeepsOthers(cfg: Settings, before: Tables, at: int, ids: seq<JobId>, answers: Answers, first: nat, j: nat,
                    now: Tables, next: Tables)
    requires Representable(cfg) && OneJobPerEvent(before) && Distinct(ids) && j < |ids|
    requires Progress(cfg, before, at, ids, answers, first, j, now)
    requires next.jobs.Keys == now.jobs.Keys
    requires forall other | other in now.jobs && other != ids[j] :: next.jobs[other] == now.jobs[other]
    requires forall event | event != before.jobs[ids[j]].event :: AttemptsOf(next, event) == AttemptsOf(now, event)
    ensures forall k | 0 <= k < j :: CompletedOnce(cfg, before, at, next, ids[k], answers(first + k))
    ensures forall k | j < k < |ids| :: ClaimedOnly(before, at, next, ids[k])
    ensures forall id | id in before.jobs && id !in ids :: next.jobs[id] == before.jobs[id]
  {
    hide DecideRetry, Deliver;
    forall k | 0 <= k < |ids| && k != j
      ensures ids[k] != ids[j] && before.jobs[ids[k]].event != before.jobs[ids[j]].event
    {
      assert if k < j then ids[k] != ids[j] else ids[j] != ids[k];
    }
    forall k | 0 <= k < j ensures CompletedOnce(cfg, before, at, next, ids[k], answers(first + k)) {
      assert CompletedOnce(cfg, before, at, now, ids[k], answers(first + k));
    }
    forall k | j < k < |ids| ensures ClaimedOnly(before, at, next, ids[k]) {
      assert ClaimedOnly(before, at, now, ids[k]);
    }
  }

  lemma {:induction false} TrailProgress(cfg: Settings, before: Tables, at: int, limit: nat, answers: Answers,
                                         first: nat, trail: seq<Tables>, j: nat)
    requires Representable(cfg) && OneJobPerEvent(before) && j < |trail|
    requires IsCycle(cfg, before, at, limit, answers, first, trail)
    ensures Progress(cfg, before, at, ClaimedIds(before, at, limit), answers, first, j, trail[j])
    decreases j
  {
    hide Progress, Complete, DueJobs, AfterClaim;
    var ids := ClaimedIds(before, at, limit);
    if j == 0 {
      ProgressStarts(cfg, before, at, limit, answers, first);
    } else {
      var k := j - 1;
      TrailProgress(cfg, before, at, limit, answers, first, trail, k);
      DueJobsSelection(before.jobs, {}, at, limit);
      assert Complete(cfg, trail[k], ids[k], answers(first + k)) == Ok(trail[k + 1]);
      ProgressStep(cfg, before, at, ids, answers, first, k, trail[k]);
    }
  }

  /** Wherever a cycle stopped, with j jobs completed, the committed tables show exactly that. */
  lemma CycleProgress(cfg: Settings, before: Tables, at: int, limit: nat, answers: Answers, first: nat,
                      trail: seq<Tables>)
    requires Representable(cfg) && OneJobPerEvent(before)
    requires IsCycle(cfg, before, at, limit, answers, first, trail)
    ensures Progress(cfg, before, at, ClaimedIds(before, at, limit), answers, first, |trail| - 1, trail[|trail| - 1])
  {
    TrailProgress(cfg, before, at, limit, answers, first, trail, |trail| - 1);
  }
}
