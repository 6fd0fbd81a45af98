/**
 Statements over whole runs of the protocol: how states follow each other, how attempts are
 serialized, and what must happen between two claims or two replays of one job.
 */
module ProtocolTraces {
  import opened Wrappers
  import opened DeliveryTables
  import opened RetryPolicy
  import opened JobQueue
  import opened Protocol
  import opened ProtocolInvariants

  /** The state before step n of a run. */
  ghost function StateAt(cfg: Settings, steps: seq<Step>, n: nat): State
    requires ValidSettings(cfg) && IsRun(cfg, steps) && n <= |steps|
  {
    PrefixIsRun(cfg, steps, n);
    Execute(cfg, steps[..n]).value
  }

  lemma StateFollows(cfg: Settings, steps: seq<Step>, n: nat)
    requires ValidSettings(cfg) && IsRun(cfg, steps) && n < |steps|
    ensures Next(cfg, StateAt(cfg, steps, n), steps[n]) == Some(StateAt(cfg, steps, n + 1))
    ensures Inv(cfg, StateAt(cfg, steps, n)) && Inv(cfg, StateAt(cfg, steps, n + 1))
  {
    PrefixIsRun(cfg, steps, n);
    RunsKeepInv(cfg, steps[..n]);
    RunsKeepInv(cfg, steps[..n + 1]);
  }

  // ---------------------------------------------------------------- bounds in every reachable state

  /** Every job row and every copy of one in flight stays within the budget, whatever the interleaving. */
  lemma BudgetInEveryState(cfg: Settings, steps: seq<Step>)
    requires ValidSettings(cfg) && IsRun(cfg, steps)
    ensures var s := Execute(cfg, steps).value;
            forall j | j in s.tables.jobs :: JobRules(cfg, s.tables.jobs[j])
    ensures var s := Execute(cfg, steps).value;
            forall sid | sid in s.sessions && Snapshot(s.sessions[sid]).Some? ::
              JobRules(cfg, Snapshot(s.sessions[sid]).value)
              && Snapshot(s.sessions[sid]).value.attemptCount < cfg.maxAttempts
    ensures var s := Execute(cfg, steps).value;
            forall sid | sid in s.sessions && s.sessions[sid].Written? :: JobRules(cfg, s.sessions[sid].row)
  {
    RunsKeepInv(cfg, steps);
    var s := Execute(cfg, steps).value;
    forall sid | sid in s.sessions ensures SessionOk(cfg, s.tables, s.sessions[sid]) {
    }
  }

  /** The job as a completion session loaded it. */
  function Snapshot(session: Session): Option<Job> {
    match session
    case Loaded(_, job, _) => Some(job)
    case Numbered(ByWorker(_, job, _), _, _) => Some(job)
    case Inserted(ByWorker(_, job, _), _, _) => Some(job)
    case Written(ByWorker(_, job, _), _, _, _) => Some(job)
    case _ => None
  }

  /** Open claims, recoveries, replays and job writes never hold the same row. */
  lemma LocksAreExclusive(cfg: Settings, steps: seq<Step>, a: SessionId, b: SessionId)
    requires ValidSettings(cfg) && IsRun(cfg, steps) && a != b
    requires a in Execute(cfg, steps).value.sessions && b in Execute(cfg, steps).value.sessions
    ensures Held(Execute(cfg, steps).value.sessions[a]) !! Held(Execute(cfg, steps).value.sessions[b])
  {
    RunsKeepInv(cfg, steps);
  }

  // ---------------------------------------------------------------- the unique key serializes deliveries

  /** The event a delivery session works on and the number it computed. */
  function Numbering(session: Session): Option<(EventId, int)> {
    match session
    case Numbered(_, event, number) => Some((event, number))
    case Inserted(_, event, a) => Some((event, a.number))
    case Written(_, event, a, _) => Some((event, a.number))
    case _ => None
  }

  ghost predicate Grows(s: State, later: State) {
    && s.spent <= later.spent
    && (forall e | e in s.tables.attempts ::
          e in later.tables.attempts && s.tables.attempts[e] <= later.tables.attempts[e])
  }

  ghost predicate KeepsNumbering(s: State, later: State, sid: SessionId) {
    sid in s.spent && (sid in s.sessions ==> Numbering(s.sessions[sid]).Some?) ==>
      && sid in later.spent
      && (sid in later.sessions ==> sid in s.sessions && Numbering(later.sessions[sid]) == Numbering(s.sessions[sid]))
  }

  lemma StepGrows(cfg: Settings, s: State, step: Step, sid: SessionId)
    requires ValidSettings(cfg) && Inv(cfg, s) && Next(cfg, s, step).Some?
    ensures Grows(s, Next(cfg, s, step).value)
    ensures KeepsNumbering(s, Next(cfg, s, step).value, sid)
  {
    if step.Commit? {
      CommitGrows(cfg, s, step.sid, sid);
    } else {
      OthersGrow(cfg, s, step, sid);
    }
  }

  lemma CommitGrows(cfg: Settings, s: State, mover: SessionId, sid: SessionId)
    requires ValidSettings(cfg) && Inv(cfg, s) && DoCommit(s, mover).Some?
    ensures Grows(s, DoCommit(s, mover).value) && KeepsNumbering(s, DoCommit(s, mover).value, sid)
  {
    assert SessionOk(cfg, s.tables, s.sessions[mover]);
  }

  lemma OthersGrow(cfg: Settings, s: State, step: Step, sid: SessionId)
    requires ValidSettings(cfg) && Inv(cfg, s) && Next(cfg, s, step).Some? && !step.Commit?
    ensures Grows(s, Next(cfg, s, step).value) && KeepsNumbering(s, Next(cfg, s, step).value, sid)
  {
    hide DueJobs, StaleJobs, DecideRetry, Flushed;
  }

  lemma {:induction false} RunGrows(cfg: Settings, steps: seq<Step>, p: nat, q: nat, sid: SessionId)
    requires ValidSettings(cfg) && IsRun(cfg, steps) && p <= q <= |steps|
    ensures Grows(StateAt(cfg, steps, p), StateAt(cfg, steps, q))
    ensures KeepsNumbering(StateAt(cfg, steps, p), StateAt(cfg, steps, q), sid)
    decreases q - p
  {
    if p < q {
      RunGrows(cfg, steps, p, q - 1, sid);
      StateFollows(cfg, steps, q - 1);
      StepGrows(cfg, StateAt(cfg, steps, q - 1), steps[q - 1], sid);
    }
  }

  /** Committed attempt numbers of an event are exactly 1 .. n, in commit order, with no gap and no repeat. */
  lemma NumbersAreConsecutive(cfg: Settings, steps: seq<Step>, event: EventId, i: nat)
    requires ValidSettings(cfg) && IsRun(cfg, steps)
    requires i < |AttemptsOf(Execute(cfg, steps).value.tables, event)|
    ensures AttemptsOf(Execute(cfg, steps).value.tables, event)[i].number == i + 1
  {
    RunsKeepInv(cfg, steps);
  }

  /**
   A delivery that reads the maximum at step i and commits its attempt at step k finds, at its commit,
   exactly the attempts it counted: no attempt of the event, by a worker or by hand, committed in between.
   */
  lemma DeliveriesAreSerialized(cfg: Settings, steps: seq<Step>, i: nat, k: nat, sid: SessionId)
    requires ValidSettings(cfg) && IsRun(cfg, steps) && i < k < |steps|
    requires steps[i] == ReadMaximum(sid) || (steps[i].StartManual? && steps[i].sid == sid)
    requires steps[k] == Commit(sid)
    ensures sid in StateAt(cfg, steps, k).sessions && Numbering(StateAt(cfg, steps, k).sessions[sid]).Some?
    ensures var event := Numbering(StateAt(cfg, steps, k).sessions[sid]).value.0;
            && AttemptsOf(StateAt(cfg, steps, i).tables, event) == AttemptsOf(StateAt(cfg, steps, k).tables, event)
            && |AttemptsOf(StateAt(cfg, steps, k + 1).tables, event)|
                == |AttemptsOf(StateAt(cfg, steps, i).tables, event)| + 1
            && (forall m | i <= m <= k ::
                  AttemptsOf(StateAt(cfg, steps, m).tables, event) == AttemptsOf(StateAt(cfg, steps, i).tables, event))
  {
    NumberIsStillNext(cfg, steps, i, k, sid);
    var event := Numbering(StateAt(cfg, steps, k).sessions[sid]).value.0;
    StateFollows(cfg, steps, k);
    CommittingAppends(cfg, StateAt(cfg, steps, k), sid);
    forall m | i <= m <= k
      ensures AttemptsOf(StateAt(cfg, steps, m).tables, event) == AttemptsOf(StateAt(cfg, steps, i).tables, event)
    {
      NothingBetween(cfg, steps, i, m, k, event);
    }
  }

  lemma NothingBetween(cfg: Settings, steps: seq<Step>, i: nat, m: nat, k: nat, event: EventId)
    requires ValidSettings(cfg) && IsRun(cfg, steps) && i <= m <= k <= |steps|
    requires event in StateAt(cfg, steps, i).tables.attempts
    requires AttemptsOf(StateAt(cfg, steps, i).tables, event) == AttemptsOf(StateAt(cfg, steps, k).tables, event)
    ensures AttemptsOf(StateAt(cfg, steps, m).tables, event) == AttemptsOf(StateAt(cfg, steps, i).tables, event)
  {
    RunGrows(cfg, steps, i, m, 0);
    RunGrows(cfg, steps, m, k, 0);
  }

  lemma CommittingAppends(cfg: Settings, s: State, sid: SessionId)
    requires ValidSettings(cfg) && Inv(cfg, s) && Next(cfg, s, Commit(sid)).Some?
    requires sid in s.sessions && Numbering(s.sessions[sid]).Some?
    ensures var event := Numbering(s.sessions[sid]).value.0;
            |AttemptsOf(Next(cfg, s, Commit(sid)).value.tables, event)| == |AttemptsOf(s.tables, event)| + 1
  {
  }

  /** Computing a number leaves the tables alone and gives the next number. */
  lemma NumberingStep(cfg: Settings, s: State, step: Step, sid: SessionId)
    requires ValidSettings(cfg) && Inv(cfg, s) && Next(cfg, s, step).Some?
    requires step == ReadMaximum(sid) || (step.StartManual? && step.sid == sid)
    ensures var n := Next(cfg, s, step).value;
            && n.tables == s.tables && sid in n.sessions && sid in n.spent && n.sessions[sid].Numbered?
            && n.sessions[sid].event in s.tables.attempts
            && n.sessions[sid].number == |s.tables.attempts[n.sessions[sid].event]| + 1
  {
    StepKeeps(cfg, s, step);
    var n := Next(cfg, s, step).value;
    assert SessionOk(cfg, n.tables, n.sessions[sid]);
    NextNumberIsLength(s.tables.attempts[n.sessions[sid].event]);
  }

  lemma NumberIsStillNext(cfg: Settings, steps: seq<Step>, i: nat, k: nat, sid: SessionId)
    requires ValidSettings(cfg) && IsRun(cfg, steps) && i < k < |steps|
    requires steps[i] == ReadMaximum(sid) || (steps[i].StartManual? && steps[i].sid == sid)
    requires steps[k] == Commit(sid)
    ensures sid in StateAt(cfg, steps, k).sessions && Numbering(StateAt(cfg, steps, k).sessions[sid]).Some?
    ensures var event := Numbering(StateAt(cfg, steps, k).sessions[sid]).value.0;
            event in StateAt(cfg, steps, i).tables.attempts &&
            AttemptsOf(StateAt(cfg, steps, i).tables, event) == AttemptsOf(StateAt(cfg, steps, k).tables, event)
  {
    hide Next, Inv;
    StateFollows(cfg, steps, i);
    NumberingStep(cfg, StateAt(cfg, steps, i), steps[i], sid);
    RunGrows(cfg, steps, i + 1, k, sid);
    StateFollows(cfg, steps, k);
    CommittedNumberIsNext(cfg, StateAt(cfg, steps, k), sid);
  }

  lemma CommittedNumberIsNext(cfg: Settings, s: State, sid: SessionId)
    requires ValidSettings(cfg) && Inv(cfg, s) && Next(cfg, s, Commit(sid)).Some?
    ensures sid in s.sessions
    ensures Numbering(s.sessions[sid]).Some? ==>
              var (event, number) := Numbering(s.sessions[sid]).value;
              event in s.tables.attempts && number == |s.tables.attempts[event]| + 1
  {
    assert SessionOk(cfg, s.tables, s.sessions[sid]);
  }

  // ---------------------------------------------------------------- between two claims, between two replays

  ghost predicate ClaimCommits(s: State, step: Step, id: JobId) {
    step.Commit? && step.sid in s.sessions && s.sessions[step.sid].Claiming? && id in s.sessions[step.sid].ids
  }

  ghost predicate RecoveryCommits(s: State, step: Step, id: JobId) {
    step.Commit? && step.sid in s.sessions && s.sessions[step.sid].Recovering? && id in s.sessions[step.sid].ids
  }

  ghost predicate ReplayCommits(s: State, step: Step, id: JobId) {
    step.Commit? && step.sid in s.sessions && s.sessions[step.sid].Replaying? && s.sessions[step.sid].id == id
  }

  ghost predicate CompletionCommits(s: State, step: Step, id: JobId) {
    step.Commit? && step.sid in s.sessions && s.sessions[step.sid].Written? && s.sessions[step.sid].source.ByWorker?
    && s.sessions[step.sid].source.id == id
  }

  /** Commits that put a job back to pending: a recovery, a failed completion with budget left, or a replay. */
  ghost predicate ReturnsToPending(s: State, step: Step, id: JobId) {
    || RecoveryCommits(s, step, id)
    || (CompletionCommits(s, step, id) && s.sessions[step.sid].attempt.outcome.DeliveryFailed?
        && s.sessions[step.sid].row.status.Pending?)
    || ReplayCommits(s, step, id)
  }

  /** Ingestion adds the event and one job that is pending, due at once and unspent, and nothing else. */
  lemma IngestAdds(cfg: Settings, s: State, event: EventId, id: JobId, endpoint: EndpointId, now: int)
    requires ValidSettings(cfg) && Next(cfg, s, Ingest(event, id, endpoint, now)).Some?
    ensures event !in s.tables.events && id !in s.tables.jobs && endpoint in s.tables.endpoints
    ensures var n := Next(cfg, s, Ingest(event, id, endpoint, now)).value;
            && n.tables.endpoints == s.tables.endpoints && n.tables.events == s.tables.events[event := endpoint]
            && n.tables.jobs == s.tables.jobs[id := Job(event, Pending, Some(now), 0, now, now)]
            && n.tables.attempts == s.tables.attempts[event := []] && n.history == s.history[event := []]
            && n.sessions == s.sessions
  {
  }

  /** An event may be ingested for every known endpoint, active or not. */
  lemma IngestIsPossible(cfg: Settings, s: State, event: EventId, id: JobId, endpoint: EndpointId, now: int)
    requires ValidSettings(cfg)
    ensures Next(cfg, s, Ingest(event, id, endpoint, now)).Some? <==>
              event !in s.tables.events && id !in s.tables.jobs && endpoint in s.tables.endpoints
  {
  }

  lemma OnlyCommitsMoveJobs(cfg: Settings, s: State, step: Step, id: JobId)
    requires ValidSettings(cfg) && Inv(cfg, s) && Next(cfg, s, step).Some? && id in s.tables.jobs && !step.Commit?
    ensures var n := Next(cfg, s, step).value; id in n.tables.jobs && n.tables.jobs[id] == s.tables.jobs[id]
  {
  }

  /** How one commit moves one job: not at all, or as its session's kind prescribes. */
  lemma CommitMoves(cfg: Settings, s: State, sid: SessionId, id: JobId)
    requires ValidSettings(cfg) && Inv(cfg, s) && DoCommit(s, sid).Some? && id in s.tables.jobs
    ensures id in DoCommit(s, sid).value.tables.jobs
    ensures var step, was, now := Commit(sid), s.tables.jobs[id], DoCommit(s, sid).value.tables.jobs[id];
            && (ClaimCommits(s, step, id) ==>
                  && was.status == Pending
                  && now == Job(was.event, Processing, was.nextAttemptAt, was.attemptCount, was.createdAt,
                                s.sessions[sid].at))
            && (RecoveryCommits(s, step, id) ==>
                  var at := s.sessions[sid].at;
                  && was.status == Processing
                  && now == Job(was.event, Pending, Some(at), was.attemptCount, was.createdAt, at))
            && (ReplayCommits(s, step, id) ==>
                  var at := s.sessions[sid].at;
                  && (was.status == Succeeded || was.status == DeadLetter)
                  && now == Job(was.event, Pending, Some(at), 0, was.createdAt, at))
            && (CompletionCommits(s, step, id) ==> now == s.sessions[sid].row && !now.status.Processing?)
            && now.event == was.event && now.createdAt == was.createdAt
            && (now != was ==> || ClaimCommits(s, step, id) || RecoveryCommits(s, step, id)
                               || ReplayCommits(s, step, id) || CompletionCommits(s, step, id))
  {
    assert SessionOk(cfg, s.tables, s.sessions[sid]);
  }

  /** The rows a session holds are changed by nobody else. */
  lemma HeldRowsStay(cfg: Settings, s: State, step: Step, sid: SessionId, j: JobId)
    requires ValidSettings(cfg) && Inv(cfg, s) && Next(cfg, s, step).Some? && j in s.tables.jobs
    requires sid in s.sessions && j in Held(s.sessions[sid]) && step != Commit(sid)
    ensures j in Next(cfg, s, step).value.tables.jobs && Next(cfg, s, step).value.tables.jobs[j] == s.tables.jobs[j]
  {
    if step.Commit? {
      CommitMoves(cfg, s, step.sid, j);
      assert Held(s.sessions[step.sid]) !! Held(s.sessions[sid]);
    } else {
      OnlyCommitsMoveJobs(cfg, s, step, j);
    }
  }

  /** How one step can move one job: exactly the transitions of the services. */
  lemma StatusMoves(cfg: Settings, s: State, step: Step, id: JobId)
    requires ValidSettings(cfg) && Inv(cfg, s) && Next(cfg, s, step).Some? && id in s.tables.jobs
    ensures id in Next(cfg, s, step).value.tables.jobs
    ensures var was, now := s.tables.jobs[id].status, Next(cfg, s, step).value.tables.jobs[id].status;
            && (was != now ==>
                  ClaimCommits(s, step, id) || ReturnsToPending(s, step, id) || CompletionCommits(s, step, id))
            && (was.Pending? && !now.Pending? ==> ClaimCommits(s, step, id) || CompletionCommits(s, step, id))
            && (!was.Processing? && now.Processing? ==> ClaimCommits(s, step, id))
            && (!was.Pending? && now.Pending? ==> ReturnsToPending(s, step, id))
            && (Active(was) && !Active(now) ==> CompletionCommits(s, step, id))
            && (ClaimCommits(s, step, id) ==> was.Pending? && now.Processing?)
            && (ReplayCommits(s, step, id) ==> !Active(was) && now.Pending?)
  {
    if step.Commit? {
      CommitMoves(cfg, s, step.sid, id);
      if CompletionCommits(s, step, id) && s.sessions[step.sid].row.status.Pending? {
        CommittedFailure(cfg, s, step.sid, id);
      }
    } else {
      OnlyCommitsMoveJobs(cfg, s, step, id);
    }
  }

  /** A completion that puts its job to pending has recorded a failure. */
  lemma CommittedFailure(cfg: Settings, s: State, sid: SessionId, id: JobId)
    requires Inv(cfg, s) && CompletionCommits(s, Commit(sid), id) && s.sessions[sid].row.status.Pending?
    ensures s.sessions[sid].attempt.outcome.DeliveryFailed?
  {
    assert SessionOk(cfg, s.tables, s.sessions[sid]);
  }

  lemma {:induction false} SomeReturn(cfg: Settings, steps: seq<Step>, p: nat, q: nat, id: JobId)
    requires ValidSettings(cfg) && IsRun(cfg, steps) && p <= q <= |steps|
    requires id in StateAt(cfg, steps, p).tables.jobs && !StateAt(cfg, steps, p).tables.jobs[id].status.Pending?
    requires id in StateAt(cfg, steps, q).tables.jobs && StateAt(cfg, steps, q).tables.jobs[id].status.Pending?
    ensures exists m | p <= m < q :: ReturnsToPending(StateAt(cfg, steps, m), steps[m], id)
    decreases q - p
  {
    StateFollows(cfg, steps, p);
    StatusMoves(cfg, StateAt(cfg, steps, p), steps[p], id);
    if !StateAt(cfg, steps, p + 1).tables.jobs[id].status.Pending? {
      SomeReturn(cfg, steps, p + 1, q, id);
    }
  }

  /** Two committed claims of one job have a committed return to pending between them. */
  lemma ClaimsAreSeparated(cfg: Settings, steps: seq<Step>, i: nat, k: nat, id: JobId)
    requires ValidSettings(cfg) && IsRun(cfg, steps) && i < k < |steps|
    requires ClaimCommits(StateAt(cfg, steps, i), steps[i], id)
    requires ClaimCommits(StateAt(cfg, steps, k), steps[k], id)
    ensures exists m | i < m < k :: ReturnsToPending(StateAt(cfg, steps, m), steps[m], id)
  {
    StateFollows(cfg, steps, i);
    StateFollows(cfg, steps, k);
    var a, b := StateAt(cfg, steps, i), StateAt(cfg, steps, k);
    assert SessionOk(cfg, a.tables, a.sessions[steps[i].sid]);
    assert SessionOk(cfg, b.tables, b.sessions[steps[k].sid]);
    StatusMoves(cfg, a, steps[i], id);
    StatusMoves(cfg, b, steps[k], id);
    SomeReturn(cfg, steps, i + 1, k, id);
  }

  lemma {:induction false} SomeCompletion(cfg: Settings, steps: seq<Step>, p: nat, q: nat, id: JobId)
    requires ValidSettings(cfg) && IsRun(cfg, steps) && p <= q <= |steps|
    requires id in StateAt(cfg, steps, p).tables.jobs && Active(StateAt(cfg, steps, p).tables.jobs[id].status)
    requires id in StateAt(cfg, steps, q).tables.jobs && !Active(StateAt(cfg, steps, q).tables.jobs[id].status)
    ensures exists m | p <= m < q :: CompletionCommits(StateAt(cfg, steps, m), steps[m], id)
    decreases q - p
  {
    StateFollows(cfg, steps, p);
    StatusMoves(cfg, StateAt(cfg, steps, p), steps[p], id);
    if Active(StateAt(cfg, steps, p + 1).tables.jobs[id].status) {
      SomeCompletion(cfg, steps, p + 1, q, id);
    }
  }

  /** Two committed replays of one job have a committed worker attempt between them. */
  lemma ReplaysAreSeparated(cfg: Settings, steps: seq<Step>, i: nat, k: nat, id: JobId)
    requires ValidSettings(cfg) && IsRun(cfg, steps) && i < k < |steps|
    requires ReplayCommits(StateAt(cfg, steps, i), steps[i], id)
    requires ReplayCommits(StateAt(cfg, steps, k), steps[k], id)
    ensures exists m | i < m < k :: CompletionCommits(StateAt(cfg, steps, m), steps[m], id)
  {
    StateFollows(cfg, steps, i);
    StateFollows(cfg, steps, k);
    var a, b := StateAt(cfg, steps, i), StateAt(cfg, steps, k);
    assert SessionOk(cfg, a.tables, a.sessions[steps[i].sid]);
    assert SessionOk(cfg, b.tables, b.sessions[steps[k].sid]);
    StatusMoves(cfg, a, steps[i], id);
    StatusMoves(cfg, b, steps[k], id);
    SomeCompletion(cfg, steps, i + 1, k, id);
  }
}
