/**
 One iteration of a worker that runs alone (worker_iteration_service.py): recovery, then a processing cycle at the same
 instant.
 */
module WorkerIteration {
  import opened Wrappers
  import opened RetryPolicy
  import opened DeliveryTables
  import opened JobQueue
  import opened DeliveryTransactions
  import opened DeliverySession
  import opened DeliveryProcessing

  datatype Iteration = Iteration(recovered: seq<JobId>, cycle: Cycle)

  datatype Limits = Limits(recovery: int, processing: int)

  function RecoveredIds(t: Tables, before: int, limit: nat): seq<JobId> {
    StaleJobs(t.jobs, {}, before, limit)
  }

  /** The recovery transaction: all of it is committed, or nothing is. */
  method RecoveryTransaction(database: Database, staleBefore: int, at: int, limit: int)
    returns (r: Result<seq<JobId>, Failure>)
    requires limit >= 1 && staleBefore <= at && database.locked == {}
    modifies database
    ensures database.locked == {}
    ensures old(database.statements) <= database.statements
    ensures r == Err(DatabaseError) <==> !Smooth(database.faults, old(database.statements), database.statements)
    ensures r.Ok? ==> r.value == RecoveredIds(old(database.tables), staleBefore, limit)
                      && database.tables == AfterRecovery(old(database.tables), staleBefore, at, limit)
    ensures r.Err? ==> r.error == DatabaseError && database.tables == old(database.tables)
  {
    var session := new Session(database);
    r := session.RecoverStaleJobs(staleBefore, at, limit);
    if r.Ok? {
      var ok := session.Commit();
      if !ok {
        r := Err(DatabaseError);
      }
    }
    if r.Err? {
      session.Rollback();
    }
  }

  /**
   What an iteration has committed by the time it returns or raises: nothing, the recovery, or the recovery and a trail.
   */
  ghost predicate IsIteration(cfg: Settings, limits: Limits, before: Tables, staleBefore: int, at: int,
                              answers: Answers, first: nat,
                              recovered: bool, trail: seq<Tables>, after: Tables)
    requires Representable(cfg)
  {
    && (!recovered ==> trail == [] && after == before)
    && (recovered ==> limits.recovery >= 1 && limits.processing >= 1 && staleBefore <= at)
    && (recovered && trail == [] ==> after == AfterRecovery(before, staleBefore, at, limits.recovery))
    && (trail != [] ==>
          IsCycle(cfg, AfterRecovery(before, staleBefore, at, limits.recovery), at, limits.processing, answers, first,
                  trail))
    && (trail != [] ==> after == trail[|trail| - 1])
  }

  /**
   The answer of an iteration that returned: who was recovered, claimed and completed, and all claimed are completed.
   */
  ghost predicate Answered(limits: Limits, before: Tables, staleBefore: int, at: int, trail: seq<Tables>, i: Iteration)
    requires limits.recovery >= 1 && limits.processing >= 1
  {
    && i.recovered == RecoveredIds(before, staleBefore, limits.recovery)
    && i.cycle.claimed == ClaimedIds(AfterRecovery(before, staleBefore, at, limits.recovery), at, limits.processing)
    && |trail| == |i.cycle.claimed| + 1 && |i.cycle.completed| == |i.cycle.claimed|
    && AllReported(i.cycle.claimed, trail, i.cycle.completed)
  }

  /** The completion that stopped a cycle, the one after the last committed, fails with this error. */
  ghost predicate StoppedBy(cfg: Settings, limits: Limits, before: Tables, staleBefore: int, at: int,
                            answers: Answers, first: nat, trail: seq<Tables>, error: Failure)
    requires Representable(cfg) && limits.recovery >= 1 && limits.processing >= 1
  {
    var ids := ClaimedIds(AfterRecovery(before, staleBefore, at, limits.recovery), at, limits.processing);
    && 1 <= |trail| <= |ids|
    && Complete(cfg, trail[|trail| - 1], ids[|trail| - 1], answers(first + |trail| - 1)) == Err(error)
  }

  method RunIteration(database: Database, cfg: Settings, limits: Limits, timeout: Number, staleBefore: int, at: int,
                      answers: Answers, first: nat)
    returns (r: Result<Iteration, Failure>, ghost recovered: bool, ghost trail: seq<Tables>)
    requires Representable(cfg) && database.locked == {}
    modifies database
    ensures database.locked == {}
    ensures old(database.statements) <= database.statements
    ensures r == Err(DatabaseError) <==> !Smooth(database.faults, old(database.statements), database.statements)
    ensures IsIteration(cfg, limits, old(database.tables), staleBefore, at, answers, first, recovered, trail,
                        database.tables)
    ensures limits.recovery < 1 || limits.processing < 1 <==> r == Err(InvalidLimit)
    ensures limits.recovery >= 1 && limits.processing >= 1 && !timeout.Positive? <==> r == Err(InvalidTimeout)
    ensures limits.recovery >= 1 && limits.processing >= 1 && timeout.Positive? && at < staleBefore <==>
              r == Err(InvalidInterval)
    ensures r.Ok? ==> recovered && Answered(limits, old(database.tables), staleBefore, at, trail, r.value)
    ensures r.Err? && limits.recovery >= 1 && limits.processing >= 1 && timeout.Positive? && staleBefore <= at ==>
              && CanFail(r.error)
              && (r.error == DatabaseError
                  || StoppedBy(cfg, limits, old(database.tables), staleBefore, at, answers, first, trail, r.error))
  {
    hide IsCycle, AllReported, AfterRecovery, ClaimedIds, RecoveredIds;
    recovered, trail := false, [];
    if limits.recovery < 1 || limits.processing < 1 {
      r := Err(InvalidLimit);
      return;
    }
    if !timeout.Positive? {
      r := Err(InvalidTimeout);
      return;
    }
    if at < staleBefore {
      r := Err(InvalidInterval);
      return;
    }
    var recovery := RecoveryTransaction(database, staleBefore, at, limits.recovery);
    if recovery.Err? {
      r := Err(recovery.error);
      return;
    }
    recovered := true;
    var processing;
    processing, trail := RunProcessingCycle(database, cfg, at, limits.processing, timeout, answers, first);
    if processing.Err? {
      r := Err(processing.error);
      return;
    }
    r := Ok(Iteration(recovery.value, processing.value));
  }

  // ---------------------------------------------------------------- what an iteration achieves

  /** Every recovered job is due at the claim that follows. */
  lemma RecoveredAreDue(t: Tables, staleBefore: int, at: int, limit: nat, id: JobId)
    requires id in RecoveredIds(t, staleBefore, limit)
    ensures var n := AfterRecovery(t, staleBefore, at, limit);
            && id in t.jobs && t.jobs[id].status == Processing && t.jobs[id].updatedAt <= staleBefore
            && n.jobs[id] == Job(t.jobs[id].event, Pending, Some(at), t.jobs[id].attemptCount, t.jobs[id].createdAt, at)
            && IsDue(n.jobs[id], at)
  {
    hide StaleJobs;
    StaleJobsSelection(t.jobs, {}, staleBefore, limit);
  }

  /** When the due jobs fit the limit, the claim takes all of them. */
  lemma ClaimTakesAll(t: Tables, at: int, limit: nat, id: JobId)
    requires |set j | j in t.jobs && IsDue(t.jobs[j], at)| <= limit
    requires id in t.jobs && IsDue(t.jobs[id], at)
    ensures id in ClaimedIds(t, at, limit)
  {
    hide DueJobs;
    var due := set j | j in t.jobs && IsDue(t.jobs[j], at);
    var ids := ClaimedIds(t, at, limit);
    DueJobsSelection(t.jobs, {}, at, limit);
    DistinctSize(ids);
    var taken := set j | j in ids;
    assert taken <= due - if id in ids then {} else {id};
    SubsetSize(taken, due - if id in ids then {} else {id});
  }

  lemma SubsetSize(a: set<JobId>, b: set<JobId>)
    requires a <= b
    ensures |a| <= |b|
  {
    assert |b - a| == |b| - |a|;
  }

  lemma RecoveredAreClaimed(t: Tables, staleBefore: int, at: int, limits: Limits, id: JobId)
    requires limits.recovery >= 1 && limits.processing >= 1
    requires id in RecoveredIds(t, staleBefore, limits.recovery)
    requires var n := AfterRecovery(t, staleBefore, at, limits.recovery);
             |set j | j in n.jobs && IsDue(n.jobs[j], at)| <= limits.processing
    ensures id in ClaimedIds(AfterRecovery(t, staleBefore, at, limits.recovery), at, limits.processing)
  {
    RecoveredAreDue(t, staleBefore, at, limits.recovery, id);
    ClaimTakesAll(AfterRecovery(t, staleBefore, at, limits.recovery), at, limits.processing, id);
  }

  /** After an iteration that returned, the processing jobs are the earlier ones without the recovered ones. */
  lemma ProcessingAfterIteration(cfg: Settings, limits: Limits, before: Tables, staleBefore: int, at: int,
                                 answers: Answers, first: nat,
                                 trail: seq<Tables>, after: Tables, i: Iteration, id: JobId)
    requires Representable(cfg) && OneJobPerEvent(before)
    requires IsIteration(cfg, limits, before, staleBefore, at, answers, first, true, trail, after)
    requires Answered(limits, before, staleBefore, at, trail, i)
    requires id in before.jobs
    ensures id in after.jobs
    ensures after.jobs[id].status.Processing? <==> before.jobs[id].status.Processing? && id !in i.recovered
  {
    hide DueJobs, StaleJobs, IsCycle;
    var middle := AfterRecovery(before, staleBefore, at, limits.recovery);
    StaleJobsSelection(before.jobs, {}, staleBefore, limits.recovery);
    DueJobsSelection(middle.jobs, {}, at, limits.processing);
    CycleProgress(cfg, middle, at, limits.processing, answers, first, trail);
    if id in i.cycle.claimed {
      var k :| 0 <= k < |i.cycle.claimed| && i.cycle.claimed[k] == id;
      assert CompletedOnce(cfg, middle, at, after, id, answers(first + k));
    }
  }
}
