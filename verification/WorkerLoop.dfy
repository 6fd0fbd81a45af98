/**
 The worker loop run alone (worker_loop_service.py): iterations at the instants of a clock until a stop is
 requested before an iteration, after it, or during the wait.

 clock(i) is the instant of iteration i, stops(2i) and stops(2i + 1) are the answers of stop_requested before
 and after it, waits(i) the answer of the wait that follows.  The loop is observed for at most bound
 iterations; since bound is arbitrary, what holds for every bound holds for every run that ends.
 */
module WorkerLoop {
  import opened Wrappers
  import opened RetryPolicy
  import opened DeliveryTables
  import opened JobQueue
  import opened DeliveryTransactions
  import opened DeliverySession
  import opened DeliveryProcessing
  import opened WorkerIteration

  datatype WorkerSettings = WorkerSettings(retry: Settings, limits: Limits, pollInterval: Number, staleTimeout: Number,
                                           timeout: Number)

  datatype Summary = Summary(iterationsStarted: nat, iterationsCompleted: nat, totalRecovered: nat, totalClaimed: nat,
                             totalCompleted: nat, shutdownRequested: bool, finalIteration: Option<Iteration>)

  datatype WorkerOutcome = Stopped(summary: Summary) | StillRunning | Raised(failure: Failure)

  /** Everything the loop asks of the outside world. */
  datatype World = World(clock: nat -> int, stops: nat -> bool, waits: nat -> bool, answers: Answers)

  function StaleBefore(ws: WorkerSettings, at: int): int
    requires ws.staleTimeout.Positive?
  {
    at - ws.retry.rounding(Units(ws.staleTimeout.value))
  }

  predicate ValidWorkerSettings(ws: WorkerSettings) {
    && ws.pollInterval.Positive? && ws.staleTimeout.Positive? && ws.timeout.Positive?
    && ws.limits.recovery >= 1 && ws.limits.processing >= 1
  }

  // ---------------------------------------------------------------- the history of a run

  function RecoveredTotal(log: seq<Iteration>): nat {
    if log == [] then 0 else RecoveredTotal(log[..|log| - 1]) + |log[|log| - 1].recovered|
  }

  function ClaimedTotal(log: seq<Iteration>): nat {
    if log == [] then 0 else ClaimedTotal(log[..|log| - 1]) + |log[|log| - 1].cycle.claimed|
  }

  function CompletedTotal(log: seq<Iteration>): nat {
    if log == [] then 0 else CompletedTotal(log[..|log| - 1]) + |log[|log| - 1].cycle.completed|
  }

  /** Iteration i of the log took the tables from states[i] to states[i + 1] by way of trails[i]. */
  ghost predicate IsRound(ws: WorkerSettings, world: World, log: seq<Iteration>, states: seq<Tables>,
                          trails: seq<seq<Tables>>, i: nat)
    requires Representable(ws.retry) && ValidWorkerSettings(ws)
    requires i < |log| == |trails| && |states| == |log| + 1
  {
    var at := world.clock(i);
    && IsIteration(ws.retry, ws.limits, states[i], StaleBefore(ws, at), at, world.answers, ClaimedTotal(log[..i]), true,
                   trails[i], states[i + 1])
    && Answered(ws.limits, states[i], StaleBefore(ws, at), at, trails[i], log[i])
  }

  ghost predicate IsHistory(ws: WorkerSettings, world: World, log: seq<Iteration>, states: seq<Tables>,
                            trails: seq<seq<Tables>>)
    requires Representable(ws.retry) && ValidWorkerSettings(ws)
  {
    && |log| == |trails| && |states| == |log| + 1
    && (forall i | 0 <= i < |log| :: IsRound(ws, world, log, states, trails, i))
  }

  /** No answer so far asked for a stop, n iterations having run and the next one being about to be considered. */
  predicate Unstopped(world: World, n: nat) {
    forall i | 0 <= i < n :: !world.stops(2 * i) && !world.stops(2 * i + 1) && !world.waits(i)
  }

  /**
   The first request for a stop came right here: before the next iteration, after the last one, or in the wait after it.
   */
  predicate StopsAfter(world: World, n: nat) {
    || (Unstopped(world, n) && world.stops(2 * n))
    || (n > 0 && Unstopped(world, n - 1) && !world.stops(2 * (n - 1)) && (world.stops(2 * n - 1) || world.waits(n - 1)))
  }

  /** All attempt rows of the table. */
  function AttemptRows(t: Tables): set<(EventId, nat)> {
    set e, i: nat | e in t.attempts && 0 <= i < |t.attempts[e]| :: (e, i)
  }

  /** The totals of a run that stopped gracefully. */
  ghost predicate Conserved(ws: WorkerSettings, before: Tables, s: Summary, after: Tables) {
    && s.iterationsStarted == s.iterationsCompleted
    && s.totalClaimed == s.totalCompleted
    && |AttemptRows(after)| == |AttemptRows(before)| + s.totalCompleted
    && s.totalClaimed <= ws.limits.processing * s.iterationsCompleted
    && s.totalRecovered <= ws.limits.recovery * s.iterationsCompleted
    && (s.finalIteration.None? <==> s.iterationsCompleted == 0)
  }

  // ---------------------------------------------------------------- attempt rows are added one per completed job

  lemma CompletionAddsOneRow(cfg: Settings, t: Tables, id: JobId, x: Exchange)
    requires Representable(cfg) && Complete(cfg, t, id, x).Ok?
    ensures |AttemptRows(Complete(cfg, t, id, x).value)| == |AttemptRows(t)| + 1
  {
    hide DecideRetry, Deliver;
    var n := Complete(cfg, t, id, x).value;
    CompletionEffect(cfg, t, id, x);
    var event := t.jobs[id].event;
    var extra := (event, |AttemptsOf(t, event)|);
    assert n.attempts == t.attempts[event := AttemptsOf(n, event)];
    forall e, i: nat ensures (e, i) in AttemptRows(n) <==> (e, i) in AttemptRows(t) || (e, i) == extra {
      assert e in n.attempts ==> n.attempts[e] == AttemptsOf(n, e);
      assert e in t.attempts ==> t.attempts[e] == AttemptsOf(t, e);
    }
    assert extra !in AttemptRows(t);
    assert AttemptRows(n) == AttemptRows(t) + {extra};
  }

  lemma {:induction false} TrailAddsRows(cfg: Settings, ids: seq<JobId>, answers: Answers, first: nat,
                                         trail: seq<Tables>, j: nat)
    requires Representable(cfg) && IsTrail(cfg, ids, answers, first, trail) && j < |trail|
    ensures |AttemptRows(trail[j])| == |AttemptRows(trail[0])| + j
    decreases j
  {
    if j > 0 {
      TrailAddsRows(cfg, ids, answers, first, trail, j - 1);
      assert Complete(cfg, trail[j - 1], ids[j - 1], answers(first + (j - 1))) == Ok(trail[j - 1 + 1]);
      CompletionAddsOneRow(cfg, trail[j - 1], ids[j - 1], answers(first + (j - 1)));
    }
  }

  function CompletedInTrail(trail: seq<Tables>): nat {
    if trail == [] then 0 else |trail| - 1
  }

  /** Wherever an iteration stopped, it added one attempt row per completed job. */
  lemma IterationAddsRows(cfg: Settings, limits: Limits, before: Tables, staleBefore: int, at: int, answers: Answers,
                          first: nat,
                          recovered: bool, trail: seq<Tables>, after: Tables)
    requires Representable(cfg)
    requires IsIteration(cfg, limits, before, staleBefore, at, answers, first, recovered, trail, after)
    ensures |AttemptRows(after)| == |AttemptRows(before)| + CompletedInTrail(trail)
  {
    hide Complete, DueJobs, StaleJobs;
    var middle := if recovered then AfterRecovery(before, staleBefore, at, limits.recovery) else before;
    assert middle.attempts == before.attempts;
    if trail != [] {
      TrailAddsRows(cfg, ClaimedIds(middle, at, limits.processing), answers, first, trail, |trail| - 1);
      assert trail[0].attempts == middle.attempts;
    }
  }

  // ---------------------------------------------------------------- totals over a history

  lemma AddRound(limit: nat, n: nat, total: nat, more: nat)
    requires total <= limit * n && more <= limit
    ensures total + more <= limit * (n + 1)
  {
  }

  lemma RoundBounds(ws: WorkerSettings, world: World, log: seq<Iteration>, states: seq<Tables>,
                    trails: seq<seq<Tables>>, i: nat)
    requires Representable(ws.retry) && ValidWorkerSettings(ws) && IsHistory(ws, world, log, states, trails)
    requires i < |log|
    ensures |log[i].recovered| <= ws.limits.recovery && |log[i].cycle.claimed| <= ws.limits.processing
    ensures |log[i].cycle.completed| == |log[i].cycle.claimed|
    ensures |AttemptRows(states[i + 1])| == |AttemptRows(states[i])| + |log[i].cycle.completed|
  {
    hide IsIteration, DueJobs, StaleJobs, AttemptRows;
    assert IsRound(ws, world, log, states, trails, i);
    var at := world.clock(i);
    var before := StaleBefore(ws, at);
    StaleJobsSelection(states[i].jobs, {}, before, ws.limits.recovery);
    DueJobsSelection(AfterRecovery(states[i], before, at, ws.limits.recovery).jobs, {}, at, ws.limits.processing);
    IterationAddsRows(ws.retry, ws.limits, states[i], before, at, world.answers, ClaimedTotal(log[..i]), true,
                      trails[i], states[i + 1]);
  }

  lemma {:induction false} PrefixTotals(ws: WorkerSettings, world: World, log: seq<Iteration>, states: seq<Tables>,
                                        trails: seq<seq<Tables>>, n: nat)
    requires Representable(ws.retry) && ValidWorkerSettings(ws) && IsHistory(ws, world, log, states, trails)
    requires n <= |log|
    ensures ClaimedTotal(log[..n]) == CompletedTotal(log[..n]) <= ws.limits.processing * n
    ensures RecoveredTotal(log[..n]) <= ws.limits.recovery * n
    ensures |AttemptRows(states[n])| == |AttemptRows(states[0])| + CompletedTotal(log[..n])
    decreases n
  {
    hide IsHistory, AttemptRows;
    if n > 0 {
      var m := n - 1;
      PrefixTotals(ws, world, log, states, trails, m);
      RoundBounds(ws, world, log, states, trails, m);
      assert log[..n][..|log[..n]| - 1] == log[..m];
      AddRound(ws.limits.processing, m, ClaimedTotal(log[..m]), |log[m].cycle.claimed|);
      AddRound(ws.limits.recovery, m, RecoveredTotal(log[..m]), |log[m].recovered|);
    }
  }

  /**
   Over any history: claimed equals completed equals attempt rows added, and totals stay within limit times iterations.
   */
  lemma HistoryTotals(ws: WorkerSettings, world: World, log: seq<Iteration>, states: seq<Tables>,
                      trails: seq<seq<Tables>>)
    requires Representable(ws.retry) && ValidWorkerSettings(ws) && IsHistory(ws, world, log, states, trails)
    ensures ClaimedTotal(log) == CompletedTotal(log) <= ws.limits.processing * |log|
    ensures RecoveredTotal(log) <= ws.limits.recovery * |log|
    ensures |AttemptRows(states[|log|])| == |AttemptRows(states[0])| + CompletedTotal(log)
  {
    PrefixTotals(ws, world, log, states, trails, |log|);
    assert log[..|log|] == log;
  }

  lemma HistoryExtends(ws: WorkerSettings, world: World, log: seq<Iteration>, states: seq<Tables>,
                       trails: seq<seq<Tables>>,
                       i: Iteration, trail: seq<Tables>, after: Tables)
    requires Representable(ws.retry) && ValidWorkerSettings(ws) && IsHistory(ws, world, log, states, trails)
    requires var at := world.clock(|log|);
             && IsIteration(ws.retry, ws.limits, states[|log|], StaleBefore(ws, at), at, world.answers,
                            ClaimedTotal(log), true, trail, after)
             && Answered(ws.limits, states[|log|], StaleBefore(ws, at), at, trail, i)
    ensures IsHistory(ws, world, log + [i], states + [after], trails + [trail])
  {
    hide IsIteration, Answered, ClaimedTotal;
    var log1, states1, trails1 := log + [i], states + [after], trails + [trail];
    forall k | 0 <= k < |log1| ensures IsRound(ws, world, log1, states1, trails1, k) {
      if k < |log| {
        EarlierRound(ws, world, log, states, trails, i, trail, after, k);
      } else {
        assert log1[..k] == log;
      }
    }
  }

  lemma EarlierRound(ws: WorkerSettings, world: World, log: seq<Iteration>, states: seq<Tables>,
                     trails: seq<seq<Tables>>,
                     i: Iteration, trail: seq<Tables>, after: Tables, k: nat)
    requires Representable(ws.retry) && ValidWorkerSettings(ws) && IsHistory(ws, world, log, states, trails)
    requires k < |log|
    ensures IsRound(ws, world, log + [i], states + [after], trails + [trail], k)
  {
    hide IsIteration, Answered, ClaimedTotal;
    assert IsRound(ws, world, log, states, trails, k);
    assert (log + [i])[..k] == log[..k];
  }

  lemma TotalsExtend(log: seq<Iteration>, i: Iteration)
    ensures ClaimedTotal(log + [i]) == ClaimedTotal(log) + |i.cycle.claimed|
    ensures CompletedTotal(log + [i]) == CompletedTotal(log) + |i.cycle.completed|
    ensures RecoveredTotal(log + [i]) == RecoveredTotal(log) + |i.recovered|
  {
    assert (log + [i])[..|log|] == log;
  }

  // ---------------------------------------------------------------- the loop

  /** The summary of a run whose completed iterations are the log. */
  ghost predicate Summarizes(s: Summary, log: seq<Iteration>) {
    && s.iterationsStarted == |log| && s.iterationsCompleted == |log| && s.shutdownRequested
    && s.totalRecovered == RecoveredTotal(log) && s.totalClaimed == ClaimedTotal(log)
    && s.totalCompleted == CompletedTotal(log)
    && s.finalIteration == if log == [] then None else Some(log[|log| - 1])
  }

  lemma ConservedBySummary(ws: WorkerSettings, world: World, s: Summary, log: seq<Iteration>, states: seq<Tables>,
                           trails: seq<seq<Tables>>)
    requires Representable(ws.retry) && ValidWorkerSettings(ws) && IsHistory(ws, world, log, states, trails)
    requires Summarizes(s, log)
    ensures Conserved(ws, states[0], s, states[|log|])
  {
    HistoryTotals(ws, world, log, states, trails);
  }

  lemma RaisedRows(ws: WorkerSettings, world: World, log: seq<Iteration>, states: seq<Tables>, trails: seq<seq<Tables>>,
                   recovered: bool, partial: seq<Tables>, after: Tables)
    requires Representable(ws.retry) && ValidWorkerSettings(ws) && IsHistory(ws, world, log, states, trails)
    requires var at := world.clock(|log|);
             IsIteration(ws.retry, ws.limits, states[|log|], StaleBefore(ws, at), at, world.answers, ClaimedTotal(log),
                         recovered, partial, after)
    ensures |AttemptRows(after)| == |AttemptRows(states[0])| + CompletedTotal(log) + CompletedInTrail(partial)
  {
    hide IsIteration, AttemptRows;
    var at := world.clock(|log|);
    HistoryTotals(ws, world, log, states, trails);
    IterationAddsRows(ws.retry, ws.limits, states[|log|], StaleBefore(ws, at), at, world.answers, ClaimedTotal(log),
                      recovered, partial, after);
  }

  /**
   What the iterations of a history recovered, from the clock and the stale timeout alone: only jobs that were
   processing and last updated by the cutoff, the longest untouched first; an old one is left behind only when the
   recovery limit is full.
   */
  lemma RecoveredWereStale(ws: WorkerSettings, world: World, log: seq<Iteration>, states: seq<Tables>,
                           trails: seq<seq<Tables>>, i: nat)
    requires Representable(ws.retry) && ValidWorkerSettings(ws) && IsHistory(ws, world, log, states, trails)
    requires i < |log|
    ensures var cutoff := world.clock(i) - ws.retry.rounding(Units(ws.staleTimeout.value));
            var jobs, recovered := states[i].jobs, log[i].recovered;
            && (forall id | id in recovered ::
                  id in jobs && jobs[id].status == Processing && jobs[id].updatedAt <= cutoff)
            && (forall id | id in jobs && jobs[id].status == Processing && jobs[id].updatedAt > cutoff ::
                  id !in recovered)
            && (forall id | id in jobs && jobs[id].status == Processing && jobs[id].updatedAt <= cutoff
                            && id !in recovered ::
                  && |recovered| == ws.limits.recovery
                  && forall other | other in recovered :: jobs[other].updatedAt <= jobs[id].updatedAt)
  {
    hide IsIteration, DueJobs, StaleJobs, AllReported;
    assert IsRound(ws, world, log, states, trails, i);
    StaleJobsSelection(states[i].jobs, {}, StaleBefore(ws, world.clock(i)), ws.limits.recovery);
  }

  /**
   What the iterations of a history claimed, at the instant of their clock: jobs that are pending and due once the
   recovered ones are, the earliest due first; a due one is left behind only when the processing limit is full.
   */
  lemma ClaimedWereDueThen(ws: WorkerSettings, world: World, log: seq<Iteration>, states: seq<Tables>,
                           trails: seq<seq<Tables>>, i: nat)
    requires Representable(ws.retry) && ValidWorkerSettings(ws) && IsHistory(ws, world, log, states, trails)
    requires i < |log|
    ensures var at := world.clock(i);
            var jobs, recovered, claimed := states[i].jobs, log[i].recovered, log[i].cycle.claimed;
            && (forall id | id in claimed :: id in jobs &&
                  (id in recovered || (jobs[id].status == Pending && jobs[id].nextAttemptAt.Some?
                                       && jobs[id].nextAttemptAt.value <= at)))
            && (forall id | id in recovered && id !in claimed :: |claimed| == ws.limits.processing)
            && (forall id | id in jobs && jobs[id].status == Pending && jobs[id].nextAttemptAt.Some?
                            && jobs[id].nextAttemptAt.value <= at && id !in claimed ::
                  && |claimed| == ws.limits.processing
                  && forall other | other in claimed ::
                       (if other in recovered then at else jobs[other].nextAttemptAt.value)
                       <= jobs[id].nextAttemptAt.value)
  {
    hide IsIteration, DueJobs, StaleJobs, AllReported;
    assert IsRound(ws, world, log, states, trails, i);
    var at := world.clock(i);
    var middle := AfterRecovery(states[i], StaleBefore(ws, at), at, ws.limits.recovery);
    StaleJobsSelection(states[i].jobs, {}, StaleBefore(ws, at), ws.limits.recovery);
    DueJobsSelection(middle.jobs, {}, at, ws.limits.processing);
  }

  method RunWorker(database: Database, ws: WorkerSettings, world: World, bound: nat)
    returns (outcome: WorkerOutcome, ghost log: seq<Iteration>, ghost states: seq<Tables>,
             ghost trails: seq<seq<Tables>>, ghost recovered: bool, ghost partial: seq<Tables>)
    requires Representable(ws.retry) && database.locked == {}
    modifies database
    ensures database.locked == {}
    ensures old(database.statements) <= database.statements
    ensures outcome == Raised(DatabaseError) <==>
              !Smooth(database.faults, old(database.statements), database.statements)
    ensures !ws.pollInterval.Positive? <==> outcome == Raised(InvalidPollInterval)
    ensures ws.pollInterval.Positive? && !ws.staleTimeout.Positive? <==> outcome == Raised(InvalidStaleTimeout)
    ensures outcome == Raised(InvalidLimit) <==>
              && ws.pollInterval.Positive? && ws.staleTimeout.Positive?
              && (ws.limits.recovery < 1 || ws.limits.processing < 1)
    ensures outcome == Raised(InvalidTimeout) <==>
              && ws.pollInterval.Positive? && ws.staleTimeout.Positive?
              && ws.limits.recovery >= 1 && ws.limits.processing >= 1 && !ws.timeout.Positive?
    ensures !ValidWorkerSettings(ws) ==> database.tables == old(database.tables)
    ensures ValidWorkerSettings(ws) ==> IsHistory(ws, world, log, states, trails) && states[0] == old(database.tables)
    ensures outcome.Raised? && ValidWorkerSettings(ws) ==>
              (outcome.failure == InstantUnderflow <==>
                world.clock(|log|) - ws.retry.rounding(Units(ws.staleTimeout.value)) < 0)
    ensures outcome.Raised? && ValidWorkerSettings(ws) && outcome.failure != InstantUnderflow ==>
              var at := world.clock(|log|);
              || outcome.failure == DatabaseError
              || StoppedBy(ws.retry, ws.limits, states[|log|], at - ws.retry.rounding(Units(ws.staleTimeout.value)), at,
                           world.answers, ClaimedTotal(log), partial, outcome.failure)
    ensures outcome.Stopped? ==> ValidWorkerSettings(ws) && database.tables == states[|log|]
    ensures outcome.Stopped? ==> StopsAfter(world, |log|) && Summarizes(outcome.summary, log)
    ensures outcome.Stopped? ==> Conserved(ws, old(database.tables), outcome.summary, database.tables)
    ensures outcome.StillRunning? ==>
              ValidWorkerSettings(ws) && |log| == bound && Unstopped(world, bound) && database.tables == states[bound]
    ensures outcome.Raised? && ValidWorkerSettings(ws) ==>
              var at := world.clock(|log|);
              && Unstopped(world, |log|) && !world.stops(2 * |log|)
              && IsIteration(ws.retry, ws.limits, states[|log|], StaleBefore(ws, at), at, world.answers,
                             ClaimedTotal(log), recovered, partial, database.tables)
    ensures outcome.Raised? && ValidWorkerSettings(ws) ==>
              |AttemptRows(database.tables)|
                  == |AttemptRows(old(database.tables))| + CompletedTotal(log) + CompletedInTrail(partial)
  {
    hide IsHistory, IsIteration, Answered, Conserved, AttemptRows, StoppedBy;
    hide RecoveredTotal, ClaimedTotal, CompletedTotal, Unstopped, StopsAfter;
    log, states, trails, recovered, partial := [], [], [], false, [];
    if !ws.pollInterval.Positive? {
      outcome := Raised(InvalidPollInterval);
      return;
    }
    if !ws.staleTimeout.Positive? {
      outcome := Raised(InvalidStaleTimeout);
      return;
    }
    if ws.limits.recovery < 1 || ws.limits.processing < 1 {
      outcome := Raised(InvalidLimit);
      return;
    }
    if !ws.timeout.Positive? {
      outcome := Raised(InvalidTimeout);
      return;
    }
    var iterationsStarted: nat, iterationsCompleted: nat := 0, 0;
    var totalRecovered: nat, totalClaimed: nat, totalCompleted: nat := 0, 0, 0;
    var finalIteration := None;
    states := [database.tables];
    EmptyHistory(ws, world, states);
    StopPoints(world, 0);

    while iterationsCompleted < bound
      invariant database.locked == {}
      invariant old(database.statements) <= database.statements
      invariant Smooth(database.faults, old(database.statements), database.statements)
      invariant iterationsStarted == iterationsCompleted == |log| <= bound
      invariant IsHistory(ws, world, log, states, trails) && |states| == |log| + 1 && states[0] == old(database.tables)
      invariant database.tables == states[|log|]
      invariant Summarizes(Summary(iterationsStarted, iterationsCompleted, totalRecovered, totalClaimed, totalCompleted,
                                   true, finalIteration), log)
      invariant Unstopped(world, |log|)
      invariant !recovered && partial == []
    {
      StopPoints(world, iterationsCompleted);
      if world.stops(2 * iterationsCompleted) {
        outcome := Stopped(Summary(iterationsStarted, iterationsCompleted, totalRecovered, totalClaimed, totalCompleted,
                                   true, finalIteration));
        ConservedBySummary(ws, world, outcome.summary, log, states, trails);
        return;
      }
      var at := world.clock(iterationsCompleted);
      var staleBefore := StaleBefore(ws, at);
      if staleBefore < 0 {
        outcome := Raised(InstantUnderflow);
        NothingHappened(ws, world, log, database.tables);
        RaisedRows(ws, world, log, states, trails, recovered, partial, database.tables);
        return;
      }
      iterationsStarted := iterationsStarted + 1;
      var iteration;
      iteration, recovered, partial := RunIteration(database, ws.retry, ws.limits, ws.timeout, staleBefore, at,
                                                    world.answers, totalClaimed);
      if iteration.Err? {
        outcome := Raised(iteration.error);
        RaisedRows(ws, world, log, states, trails, recovered, partial, database.tables);
        return;
      }
      iterationsCompleted := iterationsCompleted + 1;
      totalRecovered := totalRecovered + |iteration.value.recovered|;
      totalClaimed := totalClaimed + |iteration.value.cycle.claimed|;
      totalCompleted := totalCompleted + |iteration.value.cycle.completed|;
      finalIteration := Some(iteration.value);
      HistoryExtends(ws, world, log, states, trails, iteration.value, partial, database.tables);
      TotalsExtend(log, iteration.value);
      log, states, trails := log + [iteration.value], states + [database.tables], trails + [partial];
      recovered, partial := false, [];
      StopPoints(world, iterationsCompleted);
      if world.stops(2 * iterationsCompleted - 1) {
        outcome := Stopped(Summary(iterationsStarted, iterationsCompleted, totalRecovered, totalClaimed, totalCompleted,
                                   true, finalIteration));
        ConservedBySummary(ws, world, outcome.summary, log, states, trails);
        return;
      }
      if world.waits(iterationsCompleted - 1) {
        outcome := Stopped(Summary(iterationsStarted, iterationsCompleted, totalRecovered, totalClaimed, totalCompleted,
                                   true, finalIteration));
        ConservedBySummary(ws, world, outcome.summary, log, states, trails);
        return;
      }
    }
    outcome := StillRunning;
  }

  lemma EmptyHistory(ws: WorkerSettings, world: World, states: seq<Tables>)
    requires Representable(ws.retry) && ValidWorkerSettings(ws) && |states| == 1
    ensures IsHistory(ws, world, [], states, [])
    ensures RecoveredTotal([]) == ClaimedTotal([]) == CompletedTotal([]) == 0
  {
  }

  /** How the answers decide between stopping here and going on. */
  lemma StopPoints(world: World, n: nat)
    ensures Unstopped(world, 0)
    ensures Unstopped(world, n) && world.stops(2 * n) ==> StopsAfter(world, n)
    ensures n > 0 && Unstopped(world, n - 1) && !world.stops(2 * (n - 1)) ==>
              if world.stops(2 * n - 1) || world.waits(n - 1) then StopsAfter(world, n) else Unstopped(world, n)
  {
  }

  lemma NothingHappened(ws: WorkerSettings, world: World, log: seq<Iteration>, t: Tables)
    requires Representable(ws.retry) && ValidWorkerSettings(ws)
    ensures var at := world.clock(|log|);
            IsIteration(ws.retry, ws.limits, t, StaleBefore(ws, at), at, world.answers, ClaimedTotal(log), false, [], t)
  {
  }
}
