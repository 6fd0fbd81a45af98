/**
 What a job row says about the deliveries that really happened.

 The exact history of a job can be lost: a completion writes attempt_count and status computed from
 a job it loaded without a lock.  This file proves exactly when it is kept, that it is kept in
 every run where no worker attempt of the event commits between a completion's job read and its
 maximum read, and the retry budget that follows.
 */
module ProtocolHistory {
  import opened RetryPolicy
  import opened DeliveryTables
  import opened JobQueue
  import opened Protocol
  import opened ProtocolInvariants
  import opened ProtocolTraces

  /** The outcomes of the worker attempts since ingestion or the last replay. */
  function Cycle(h: seq<Entry>): seq<Outcome> {
    if h == [] then []
    else
      match h[|h| - 1]
      case Replayed => []
      case Delivered(byWorker, outcome) => if byWorker then Cycle(h[..|h| - 1]) + [outcome] else Cycle(h[..|h| - 1])
  }

  function Replays(h: seq<Entry>): nat {
    if h == [] then 0 else Replays(h[..|h| - 1]) + if h[|h| - 1].Replayed? then 1 else 0
  }

  predicate AllFailed(outcomes: seq<Outcome>) {
    forall i :: 0 <= i < |outcomes| ==> outcomes[i].DeliveryFailed?
  }

  /** The row tells the truth about the current cycle. */
  predicate Exact(cfg: Settings, job: Job, h: seq<Entry>) {
    var c := Cycle(h);
    && job.attemptCount == |c|
    && (forall i :: 0 <= i < |c| - 1 ==> c[i].DeliveryFailed?)
    && (job.status.Succeeded? <==> c != [] && c[|c| - 1].DeliverySucceeded?)
    && (job.status.DeadLetter? <==> |c| == cfg.maxAttempts && AllFailed(c))
    && (Active(job.status) <==> |c| < cfg.maxAttempts && AllFailed(c))
  }

  ghost predicate AllExact(cfg: Settings, s: State) {
    forall j | j in s.tables.jobs :: Exact(cfg, s.tables.jobs[j], HistoryOf(s, s.tables.jobs[j].event))
  }

  ghost predicate IsWorkerCommit(s: State, step: Step) {
    step.Commit? && step.sid in s.sessions && s.sessions[step.sid].Written? && s.sessions[step.sid].source.ByWorker?
  }

  /** At its commit, the row is still active and still has the attempt count the completion loaded. */
  ghost predicate Undisturbed(s: State, sid: SessionId)
    requires IsWorkerCommit(s, Commit(sid))
  {
    var source := s.sessions[sid].source;
    && source.id in s.tables.jobs
    && Active(s.tables.jobs[source.id].status)
    && s.tables.jobs[source.id].attemptCount == source.loaded.attemptCount
  }

  lemma EntryExtends(h: seq<Entry>, entry: Entry)
    ensures var k := h + [entry];
            && Cycle(k)
                == (if entry.Replayed? then [] else if entry.byWorker then Cycle(h) + [entry.outcome] else Cycle(h))
            && Replays(k) == Replays(h) + (if entry.Replayed? then 1 else 0)
            && WorkerDeliveries(k) == WorkerDeliveries(h) + (if entry.Delivered? && entry.byWorker then 1 else 0)
  {
    var k := h + [entry];
    assert k[..|k| - 1] == h && k[|k| - 1] == entry;
  }

  lemma LogExtends(s: State, event: EventId, entry: Entry)
    ensures var h := HistoryOf(s, event);
            var k := HistoryOf(Logged(s, event, entry), event);
            && k == h + [entry]
            && Cycle(k)
                == (if entry.Replayed? then [] else if entry.byWorker then Cycle(h) + [entry.outcome] else Cycle(h))
            && Replays(k) == Replays(h) + (if entry.Replayed? then 1 else 0)
            && WorkerDeliveries(k) == WorkerDeliveries(h) + (if entry.Delivered? && entry.byWorker then 1 else 0)
    ensures forall e | e != event :: HistoryOf(Logged(s, event, entry), e) == HistoryOf(s, e)
  {
    EntryExtends(HistoryOf(s, event), entry);
  }

  /** A completion's commit keeps the history exact if and only if it is undisturbed. */
  lemma WorkerCommitExactness(cfg: Settings, s: State, sid: SessionId)
    requires ValidSettings(cfg) && Inv(cfg, s) && AllExact(cfg, s)
    requires IsWorkerCommit(s, Commit(sid))
    ensures Next(cfg, s, Commit(sid)).Some?
    ensures AllExact(cfg, Next(cfg, s, Commit(sid)).value) <==> Undisturbed(s, sid)
  {
    var session := s.sessions[sid];
    assert SessionOk(cfg, s.tables, session);
    var id, event, outcome := session.source.id, session.event, session.attempt.outcome;
    var n := Next(cfg, s, Commit(sid)).value;
    var h := HistoryOf(s, event);
    var w := WithJobs(WithAttempt(Closed(s, sid), event, session.attempt), s.tables.jobs[id := session.row]);
    LogExtends(w, event, Delivered(true, outcome));
    assert Exact(cfg, s.tables.jobs[id], h);
    ExactExtension(cfg, s.tables.jobs[id], session.source.loaded, session.row, h, outcome);
    assert Cycle(HistoryOf(n, event)) == Cycle(h) + [outcome];
    assert n.tables.jobs[id] == session.row;
    forall j | j in n.tables.jobs && j != id
      ensures Exact(cfg, n.tables.jobs[j], HistoryOf(n, n.tables.jobs[j].event))
    {
      assert Exact(cfg, s.tables.jobs[j], HistoryOf(s, s.tables.jobs[j].event));
    }
  }

  lemma ExactExtension(cfg: Settings, job: Job, loaded: Job, row: Job, h: seq<Entry>, outcome: Outcome)
    requires ValidSettings(cfg) && Exact(cfg, job, h) && JobRules(cfg, loaded) && loaded.status.Processing?
    requires row.attemptCount == loaded.attemptCount + 1
    requires row.status == (if outcome.DeliverySucceeded? then Succeeded
                            else if row.attemptCount >= cfg.maxAttempts then DeadLetter else Pending)
    ensures Exact(cfg, row, h + [Delivered(true, outcome)]) <==>
              Active(job.status) && job.attemptCount == loaded.attemptCount
  {
    var c := Cycle(h);
    var k := h + [Delivered(true, outcome)];
    assert k[..|k| - 1] == h;
    assert Cycle(k) == c + [outcome] && Cycle(k)[|c|] == outcome;
    if Active(job.status) && job.attemptCount == loaded.attemptCount {
      assert AllFailed(c);
      assert forall i :: 0 <= i < |c| ==> Cycle(k)[i] == c[i];
    } else if job.attemptCount == loaded.attemptCount {
      assert |c| < cfg.maxAttempts;
      assert !AllFailed(c);
      var i :| 0 <= i < |c| && !c[i].DeliveryFailed?;
      assert Cycle(k)[i] == c[i] && i < |Cycle(k)| - 1;
    }
  }

  lemma ReplayStartsExact(cfg: Settings, job: Job, h: seq<Entry>, at: int)
    requires ValidSettings(cfg)
    ensures Exact(cfg, ReplayedRow(job, at), h + [Replayed])
  {
    EntryExtends(h, Replayed);
  }

  lemma ManualKeepsExact(cfg: Settings, job: Job, h: seq<Entry>, outcome: Outcome)
    ensures Exact(cfg, job, h + [Delivered(false, outcome)]) <==> Exact(cfg, job, h)
  {
    EntryExtends(h, Delivered(false, outcome));
  }

  /** One job under a commit that is not a completion. */
  lemma OtherCommitKeepsExact(cfg: Settings, s: State, sid: SessionId, j: JobId)
    requires ValidSettings(cfg) && Inv(cfg, s) && Next(cfg, s, Commit(sid)).Some?
    requires !IsWorkerCommit(s, Commit(sid)) && j in s.tables.jobs
    requires Exact(cfg, s.tables.jobs[j], HistoryOf(s, s.tables.jobs[j].event))
    ensures var n := Next(cfg, s, Commit(sid)).value;
            j in n.tables.jobs && Exact(cfg, n.tables.jobs[j], HistoryOf(n, n.tables.jobs[j].event))
  {
    var session := s.sessions[sid];
    assert SessionOk(cfg, s.tables, session);
    match session {
      case Replaying(id, at) =>
        ReplayStartsExact(cfg, s.tables.jobs[id], HistoryOf(s, s.tables.jobs[id].event), at);
      case Inserted(source, event, a) =>
        ManualKeepsExact(cfg, s.tables.jobs[j], HistoryOf(s, event), a.outcome);
      case _ =>
    }
  }

  /** Every other step keeps the history exact on its own. */
  lemma OtherStepsKeepExact(cfg: Settings, s: State, step: Step)
    requires ValidSettings(cfg) && Inv(cfg, s) && AllExact(cfg, s) && Next(cfg, s, step).Some?
    requires !IsWorkerCommit(s, step)
    ensures AllExact(cfg, Next(cfg, s, step).value)
  {
    var n := Next(cfg, s, step).value;
    if step.Commit? {
      CommitKeepsJobs(cfg, s, step.sid);
      forall j | j in n.tables.jobs
        ensures Exact(cfg, n.tables.jobs[j], HistoryOf(n, n.tables.jobs[j].event))
      {
        OtherCommitKeepsExact(cfg, s, step.sid, j);
      }
    } else {
      forall j | j in n.tables.jobs
        ensures Exact(cfg, n.tables.jobs[j], HistoryOf(n, n.tables.jobs[j].event))
      {
        if j in s.tables.jobs {
          assert Exact(cfg, s.tables.jobs[j], HistoryOf(s, s.tables.jobs[j].event));
        }
      }
    }
  }

  lemma CommitKeepsJobs(cfg: Settings, s: State, sid: SessionId)
    requires ValidSettings(cfg) && Inv(cfg, s) && Next(cfg, s, Commit(sid)).Some?
    ensures Next(cfg, s, Commit(sid)).value.tables.jobs.Keys == s.tables.jobs.Keys
  {
    assert SessionOk(cfg, s.tables, s.sessions[sid]);
  }

  ghost predicate ExactThroughout(cfg: Settings, steps: seq<Step>)
    requires ValidSettings(cfg) && IsRun(cfg, steps)
  {
    forall n | 0 <= n <= |steps| :: AllExact(cfg, StateAt(cfg, steps, n))
  }

  ghost predicate CommitsUndisturbed(cfg: Settings, steps: seq<Step>)
    requires ValidSettings(cfg) && IsRun(cfg, steps)
  {
    forall n | 0 <= n < |steps| && IsWorkerCommit(StateAt(cfg, steps, n), steps[n]) ::
      Undisturbed(StateAt(cfg, steps, n), steps[n].sid)
  }

  lemma {:induction false} ExactUpTo(cfg: Settings, steps: seq<Step>, n: nat)
    requires ValidSettings(cfg) && IsRun(cfg, steps) && CommitsUndisturbed(cfg, steps) && n <= |steps|
    ensures AllExact(cfg, StateAt(cfg, steps, n))
    decreases n
  {
    hide Next, Inv, AllExact, Undisturbed;
    if n == 0 {
      InitialIsExact(cfg, steps);
    } else {
      ExactUpTo(cfg, steps, n - 1);
      StateFollows(cfg, steps, n - 1);
      var s, step := StateAt(cfg, steps, n - 1), steps[n - 1];
      if IsWorkerCommit(s, step) {
        WorkerCommitExactness(cfg, s, step.sid);
      } else {
        OtherStepsKeepExact(cfg, s, step);
      }
    }
  }

  lemma InitialIsExact(cfg: Settings, steps: seq<Step>)
    requires ValidSettings(cfg) && IsRun(cfg, steps)
    ensures AllExact(cfg, StateAt(cfg, steps, 0))
  {
    assert steps[..0] == [];
  }

  /** A run tells the truth in all of its states exactly when every completion commits undisturbed. */
  lemma ExactHistoryIff(cfg: Settings, steps: seq<Step>)
    requires ValidSettings(cfg) && IsRun(cfg, steps)
    ensures ExactThroughout(cfg, steps) <==> CommitsUndisturbed(cfg, steps)
  {
    if CommitsUndisturbed(cfg, steps) {
      forall n | 0 <= n <= |steps| ensures AllExact(cfg, StateAt(cfg, steps, n)) {
        ExactUpTo(cfg, steps, n);
      }
    }
    if ExactThroughout(cfg, steps) {
      forall n | 0 <= n < |steps| && IsWorkerCommit(StateAt(cfg, steps, n), steps[n])
        ensures Undisturbed(StateAt(cfg, steps, n), steps[n].sid)
      {
        StateFollows(cfg, steps, n);
        assert AllExact(cfg, StateAt(cfg, steps, n)) && AllExact(cfg, StateAt(cfg, steps, n + 1));
        WorkerCommitExactness(cfg, StateAt(cfg, steps, n), steps[n].sid);
      }
    }
  }

  // ---------------------------------------------------------------- quiet runs

  ghost predicate WorkerCommitsFor(s: State, step: Step, event: EventId) {
    IsWorkerCommit(s, step) && s.sessions[step.sid].event == event
  }

  /** No worker attempt of the event commits between a completion's job read and its maximum read. */
  ghost predicate Quiet(cfg: Settings, steps: seq<Step>)
    requires ValidSettings(cfg) && IsRun(cfg, steps)
  {
    forall i, k, m | 0 <= i < m < k < |steps| && steps[i].LoadJob? && steps[k] == ReadMaximum(steps[i].sid)
                     && steps[i].id in StateAt(cfg, steps, i).tables.jobs ::
      !WorkerCommitsFor(StateAt(cfg, steps, m), steps[m], StateAt(cfg, steps, i).tables.jobs[steps[i].id].event)
  }

  /** While no worker attempt commits, the row of a loaded job stays active with the loaded count. */
  ghost predicate SeenOk(s: State, id: JobId, loaded: Job, seen: nat) {
    var now := WorkerDeliveries(HistoryOf(s, loaded.event));
    && seen <= now
    && (seen == now ==>
          id in s.tables.jobs && Active(s.tables.jobs[id].status)
          && s.tables.jobs[id].attemptCount == loaded.attemptCount)
  }

  ghost predicate QuietSession(s: State, session: Session) {
    match session
    case Loaded(id, job, seen) => SeenOk(s, id, job, seen)
    case Numbered(ByWorker(id, loaded, seen), event, number) =>
      && SeenOk(s, id, loaded, seen)
      && (number == |AttemptsOf(s.tables, event)| + 1 ==> WorkerDeliveries(HistoryOf(s, event)) == seen)
    case Inserted(ByWorker(id, loaded, seen), event, a) =>
      SeenOk(s, id, loaded, seen) && WorkerDeliveries(HistoryOf(s, event)) == seen
    case Written(ByWorker(id, loaded, seen), event, a, row) =>
      SeenOk(s, id, loaded, seen) && WorkerDeliveries(HistoryOf(s, event)) == seen
    case _ => true
  }

  ghost predicate QuietState(s: State) {
    forall sid | sid in s.sessions :: QuietSession(s, s.sessions[sid])
  }

  /** The maximum is read while the worker attempts are still those of the job read. */
  ghost predicate QuietStep(s: State, step: Step) {
    step.ReadMaximum? && step.sid in s.sessions && s.sessions[step.sid].Loaded? ==>
      WorkerDeliveries(HistoryOf(s, s.sessions[step.sid].job.event)) == s.sessions[step.sid].seen
  }

  /** What one step adds to one event's history and attempts. */
  lemma LogEffects(cfg: Settings, s: State, step: Step, event: EventId)
    requires ValidSettings(cfg) && Inv(cfg, s) && Next(cfg, s, step).Some? && event in s.tables.events
    ensures var n := Next(cfg, s, step).value;
            && WorkerDeliveries(HistoryOf(n, event))
                 == WorkerDeliveries(HistoryOf(s, event)) + (if WorkerCommitsFor(s, step, event) then 1 else 0)
            && |AttemptsOf(s.tables, event)| <= |AttemptsOf(n.tables, event)|
            && (WorkerCommitsFor(s, step, event) ==> |AttemptsOf(n.tables, event)| == |AttemptsOf(s.tables, event)| + 1)
  {
    AttemptEffects(cfg, s, step, event);
    if step.Commit? {
      CommitLogs(cfg, s, step.sid, event);
    }
  }

  lemma AttemptEffects(cfg: Settings, s: State, step: Step, event: EventId)
    requires ValidSettings(cfg) && Inv(cfg, s) && Next(cfg, s, step).Some? && event in s.tables.events
    ensures var n := Next(cfg, s, step).value;
            && |AttemptsOf(s.tables, event)| <= |AttemptsOf(n.tables, event)|
            && (WorkerCommitsFor(s, step, event) ==> |AttemptsOf(n.tables, event)| == |AttemptsOf(s.tables, event)| + 1)
  {
    if step.Commit? {
      assert SessionOk(cfg, s.tables, s.sessions[step.sid]);
    }
  }

  lemma CommitLogs(cfg: Settings, s: State, sid: SessionId, event: EventId)
    requires ValidSettings(cfg) && Inv(cfg, s) && Next(cfg, s, Commit(sid)).Some?
    ensures var n := Next(cfg, s, Commit(sid)).value;
            WorkerDeliveries(HistoryOf(n, event))
              == WorkerDeliveries(HistoryOf(s, event)) + (if WorkerCommitsFor(s, Commit(sid), event) then 1 else 0)
  {
    var session := s.sessions[sid];
    assert SessionOk(cfg, s.tables, session);
    match session {
      case Replaying(j, at) =>
        LogExtends(WithJobs(Closed(s, sid), s.tables.jobs[j := ReplayedRow(s.tables.jobs[j], at)]),
                   s.tables.jobs[j].event, Replayed);
      case Inserted(source, e, a) =>
        LogExtends(WithAttempt(Closed(s, sid), e, a), e, Delivered(false, a.outcome));
      case Written(source, e, a, row) =>
        LogExtends(WithJobs(WithAttempt(Closed(s, sid), e, a), s.tables.jobs[source.id := row]), e,
                   Delivered(true, a.outcome));
      case _ =>
    }
  }

  /** Without a worker commit for its event, an active row stays active with its count. */
  lemma RowEffects(cfg: Settings, s: State, step: Step, id: JobId)
    requires ValidSettings(cfg) && Inv(cfg, s) && Next(cfg, s, step).Some? && id in s.tables.jobs
    ensures var n := Next(cfg, s, step).value;
            && id in n.tables.jobs && n.tables.jobs[id].event == s.tables.jobs[id].event
            && (Active(s.tables.jobs[id].status) && !WorkerCommitsFor(s, step, s.tables.jobs[id].event) ==>
                  Active(n.tables.jobs[id].status) && n.tables.jobs[id].attemptCount == s.tables.jobs[id].attemptCount)
  {
    if step.Commit? {
      assert SessionOk(cfg, s.tables, s.sessions[step.sid]);
    }
  }

  lemma StepEffects(cfg: Settings, s: State, step: Step, id: JobId)
    requires ValidSettings(cfg) && Inv(cfg, s) && Next(cfg, s, step).Some? && id in s.tables.jobs
    ensures var n := Next(cfg, s, step).value;
            var event := s.tables.jobs[id].event;
            var was, now := WorkerDeliveries(HistoryOf(s, event)), WorkerDeliveries(HistoryOf(n, event));
            && now == was + (if WorkerCommitsFor(s, step, event) then 1 else 0)
            && id in n.tables.jobs && n.tables.jobs[id].event == event
            && |AttemptsOf(s.tables, event)| <= |AttemptsOf(n.tables, event)|
            && (WorkerCommitsFor(s, step, event) ==> |AttemptsOf(n.tables, event)| == |AttemptsOf(s.tables, event)| + 1)
            && (Active(s.tables.jobs[id].status) && now == was ==>
                  Active(n.tables.jobs[id].status) && n.tables.jobs[id].attemptCount == s.tables.jobs[id].attemptCount)
  {
    LogEffects(cfg, s, step, s.tables.jobs[id].event);
    RowEffects(cfg, s, step, id);
  }

  lemma SeenOkSurvives(cfg: Settings, s: State, step: Step, id: JobId, loaded: Job, seen: nat)
    requires ValidSettings(cfg) && Inv(cfg, s) && Next(cfg, s, step).Some?
    requires id in s.tables.jobs && s.tables.jobs[id].event == loaded.event && SeenOk(s, id, loaded, seen)
    ensures SeenOk(Next(cfg, s, step).value, id, loaded, seen)
  {
    StepEffects(cfg, s, step, id);
  }

  /** A session the step leaves alone stays quiet. */
  lemma QuietSessionSurvives(cfg: Settings, s: State, step: Step, sid: SessionId)
    requires ValidSettings(cfg) && Inv(cfg, s) && QuietState(s) && Next(cfg, s, step).Some?
    requires sid in s.sessions && sid in Next(cfg, s, step).value.sessions
    requires Next(cfg, s, step).value.sessions[sid] == s.sessions[sid]
    ensures QuietSession(Next(cfg, s, step).value, s.sessions[sid])
  {
    var n := Next(cfg, s, step).value;
    var session := s.sessions[sid];
    assert SessionOk(cfg, s.tables, session) && QuietSession(s, session);
    StepKeeps(cfg, s, step);
    assert SessionOk(cfg, n.tables, session);
    match session {
      case Loaded(id, job, seen) => SeenOkSurvives(cfg, s, step, id, job, seen);
      case Numbered(source, event, number) =>
        if source.ByWorker? {
          SeenOkSurvives(cfg, s, step, source.id, source.loaded, source.seen);
          StepEffects(cfg, s, step, source.id);
        }
      case Inserted(source, event, a) =>
        if source.ByWorker? {
          SeenOkSurvives(cfg, s, step, source.id, source.loaded, source.seen);
          StepEffects(cfg, s, step, source.id);
        }
      case Written(source, event, a, row) =>
        SeenOkSurvives(cfg, s, step, source.id, source.loaded, source.seen);
        StepEffects(cfg, s, step, source.id);
      case _ =>
    }
  }

  /** The session that moves. */
  lemma QuietMover(cfg: Settings, s: State, step: Step, sid: SessionId)
    requires ValidSettings(cfg) && Inv(cfg, s) && QuietState(s) && QuietStep(s, step) && Next(cfg, s, step).Some?
    requires sid in Next(cfg, s, step).value.sessions
    requires sid !in s.sessions || Next(cfg, s, step).value.sessions[sid] != s.sessions[sid]
    ensures QuietSession(Next(cfg, s, step).value, Next(cfg, s, step).value.sessions[sid])
  {
    hide DueJobs, StaleJobs, DecideRetry, RecordAttempt, Flushed, ClaimedJobs, RecoveredJobs;
    if sid in s.sessions {
      assert SessionOk(cfg, s.tables, s.sessions[sid]) && QuietSession(s, s.sessions[sid]);
      if step.Insert? {
        NextNumberIsLength(s.tables.attempts[s.sessions[sid].event]);
      }
    }
  }

  lemma QuietStepKeeps(cfg: Settings, s: State, step: Step)
    requires ValidSettings(cfg) && Inv(cfg, s) && QuietState(s) && QuietStep(s, step) && Next(cfg, s, step).Some?
    ensures QuietState(Next(cfg, s, step).value)
  {
    var n := Next(cfg, s, step).value;
    forall sid | sid in n.sessions ensures QuietSession(n, n.sessions[sid]) {
      if sid in s.sessions && n.sessions[sid] == s.sessions[sid] {
        QuietSessionSurvives(cfg, s, step, sid);
      } else {
        QuietMover(cfg, s, step, sid);
      }
    }
  }

  /** A session is in Loaded because it just loaded its job, or because it was there already. */
  lemma LoadedByLoading(cfg: Settings, s: State, step: Step, sid: SessionId)
    requires ValidSettings(cfg) && Next(cfg, s, step).Some?
    requires sid in Next(cfg, s, step).value.sessions && Next(cfg, s, step).value.sessions[sid].Loaded?
    ensures var session := Next(cfg, s, step).value.sessions[sid];
            || (sid in s.sessions && s.sessions[sid] == session)
            || (step == LoadJob(sid, session.id) && session.id in s.tables.jobs
                && s.tables.jobs[session.id] == session.job
                && WorkerDeliveries(HistoryOf(s, session.job.event)) == session.seen)
  {
  }

  /** The job read behind a session that is about to read the maximum. */
  lemma {:induction false} JobReadBehind(cfg: Settings, steps: seq<Step>, n: nat, sid: SessionId)
    requires ValidSettings(cfg) && IsRun(cfg, steps) && n <= |steps|
    requires sid in StateAt(cfg, steps, n).sessions && StateAt(cfg, steps, n).sessions[sid].Loaded?
    ensures exists i :: 0 <= i < n && JobReadAt(cfg, steps, i, n, sid)
    decreases n
  {
    if n > 0 {
      StateFollows(cfg, steps, n - 1);
      var s := StateAt(cfg, steps, n - 1);
      LoadedByLoading(cfg, s, steps[n - 1], sid);
      if sid in s.sessions && s.sessions[sid] == StateAt(cfg, steps, n).sessions[sid] {
        JobReadBehind(cfg, steps, n - 1, sid);
        var i :| 0 <= i < n - 1 && JobReadAt(cfg, steps, i, n - 1, sid);
        assert JobReadAt(cfg, steps, i, n, sid);
      } else {
        assert JobReadAt(cfg, steps, n - 1, n, sid);
      }
    }
  }

  ghost predicate JobReadAt(cfg: Settings, steps: seq<Step>, i: nat, n: nat, sid: SessionId)
    requires ValidSettings(cfg) && IsRun(cfg, steps) && i < n <= |steps|
    requires sid in StateAt(cfg, steps, n).sessions && StateAt(cfg, steps, n).sessions[sid].Loaded?
  {
    var session := StateAt(cfg, steps, n).sessions[sid];
    var s := StateAt(cfg, steps, i);
    && steps[i] == LoadJob(sid, session.id)
    && session.id in s.tables.jobs && s.tables.jobs[session.id] == session.job
    && WorkerDeliveries(HistoryOf(s, session.job.event)) == session.seen
  }

  lemma {:induction false} NoCommitNoChange(cfg: Settings, steps: seq<Step>, p: nat, q: nat, id: JobId, event: EventId)
    requires ValidSettings(cfg) && IsRun(cfg, steps) && p <= q <= |steps|
    requires id in StateAt(cfg, steps, p).tables.jobs && StateAt(cfg, steps, p).tables.jobs[id].event == event
    requires forall m | p <= m < q :: !WorkerCommitsFor(StateAt(cfg, steps, m), steps[m], event)
    ensures id in StateAt(cfg, steps, q).tables.jobs && StateAt(cfg, steps, q).tables.jobs[id].event == event
    ensures WorkerDeliveries(HistoryOf(StateAt(cfg, steps, q), event))
            == WorkerDeliveries(HistoryOf(StateAt(cfg, steps, p), event))
    decreases q - p
  {
    if p < q {
      NoCommitNoChange(cfg, steps, p, q - 1, id, event);
      StateFollows(cfg, steps, q - 1);
      StepEffects(cfg, StateAt(cfg, steps, q - 1), steps[q - 1], id);
    }
  }

  lemma QuietRunsTakeQuietSteps(cfg: Settings, steps: seq<Step>, k: nat)
    requires ValidSettings(cfg) && IsRun(cfg, steps) && Quiet(cfg, steps) && k < |steps|
    ensures QuietStep(StateAt(cfg, steps, k), steps[k])
  {
    var s := StateAt(cfg, steps, k);
    if steps[k].ReadMaximum? && steps[k].sid in s.sessions && s.sessions[steps[k].sid].Loaded? {
      var sid := steps[k].sid;
      JobReadBehind(cfg, steps, k, sid);
      var i :| 0 <= i < k && JobReadAt(cfg, steps, i, k, sid);
      var id, event := s.sessions[sid].id, s.sessions[sid].job.event;
      assert steps[k] == ReadMaximum(steps[i].sid);
      StateFollows(cfg, steps, i);
      var first := StateAt(cfg, steps, i);
      assert !IsWorkerCommit(first, steps[i]);
      forall m | i <= m < k ensures !WorkerCommitsFor(StateAt(cfg, steps, m), steps[m], event) {
      }
      NoCommitNoChange(cfg, steps, i, k, id, event);
    }
  }

  lemma {:induction false} QuietUpTo(cfg: Settings, steps: seq<Step>, n: nat)
    requires ValidSettings(cfg) && IsRun(cfg, steps) && Quiet(cfg, steps) && n <= |steps|
    ensures QuietState(StateAt(cfg, steps, n))
    decreases n
  {
    if n == 0 {
      assert steps[..0] == [];
    } else {
      QuietUpTo(cfg, steps, n - 1);
      StateFollows(cfg, steps, n - 1);
      QuietRunsTakeQuietSteps(cfg, steps, n - 1);
      QuietStepKeeps(cfg, StateAt(cfg, steps, n - 1), steps[n - 1]);
    }
  }

  /** In a quiet run every completion commits undisturbed. */
  lemma QuietRunsAreUndisturbed(cfg: Settings, steps: seq<Step>)
    requires ValidSettings(cfg) && IsRun(cfg, steps) && Quiet(cfg, steps)
    ensures CommitsUndisturbed(cfg, steps)
  {
    forall n | 0 <= n < |steps| && IsWorkerCommit(StateAt(cfg, steps, n), steps[n])
      ensures Undisturbed(StateAt(cfg, steps, n), steps[n].sid)
    {
      QuietUpTo(cfg, steps, n);
      StateFollows(cfg, steps, n);
      var s := StateAt(cfg, steps, n);
      assert SessionOk(cfg, s.tables, s.sessions[steps[n].sid]) && QuietSession(s, s.sessions[steps[n].sid]);
    }
  }

  /** In a quiet run every job row tells the truth in every state. */
  lemma QuietRunsAreExact(cfg: Settings, steps: seq<Step>)
    requires ValidSettings(cfg) && IsRun(cfg, steps) && Quiet(cfg, steps)
    ensures ExactThroughout(cfg, steps)
  {
    QuietRunsAreUndisturbed(cfg, steps);
    ExactHistoryIff(cfg, steps);
  }

  // ---------------------------------------------------------------- the retry budget

  /** Attempts left in the current cycle. */
  function Remaining(cfg: Settings, job: Job): int {
    cfg.maxAttempts - job.attemptCount
  }

  ghost predicate Disturbs(s: State, step: Step, id: JobId) {
    CompletionCommits(s, step, id) && !Undisturbed(s, step.sid)
  }

  /** The completions of a job, among the first n steps, that another session's commit had disturbed. */
  ghost function Disturbances(cfg: Settings, steps: seq<Step>, n: nat, id: JobId): nat
    requires ValidSettings(cfg) && IsRun(cfg, steps) && n <= |steps|
  {
    if n == 0 then 0
    else Disturbances(cfg, steps, n - 1, id) + if Disturbs(StateAt(cfg, steps, n - 1), steps[n - 1], id) then 1 else 0
  }

  /** The completions of a job are the worker attempts of its event. */
  lemma CompletionsAreAttempts(cfg: Settings, s: State, step: Step, id: JobId)
    requires ValidSettings(cfg) && Inv(cfg, s) && Next(cfg, s, step).Some? && id in s.tables.jobs
    ensures s.tables.jobs[id].event in s.tables.events
    ensures CompletionCommits(s, step, id) <==> WorkerCommitsFor(s, step, s.tables.jobs[id].event)
  {
    if step.Commit? {
      assert SessionOk(cfg, s.tables, s.sessions[step.sid]);
    }
  }

  /** Only a replay adds a replay to the history. */
  lemma ReplaysLogged(cfg: Settings, s: State, step: Step, id: JobId)
    requires ValidSettings(cfg) && Inv(cfg, s) && Next(cfg, s, step).Some? && id in s.tables.jobs
    ensures var event := s.tables.jobs[id].event;
            Replays(HistoryOf(Next(cfg, s, step).value, event))
              == Replays(HistoryOf(s, event)) + (if ReplayCommits(s, step, id) then 1 else 0)
  {
    if step.Commit? {
      CommitLogsReplays(cfg, s, step.sid, id);
    } else {
      OtherStepsLogNothing(cfg, s, step, id);
    }
  }

  lemma OtherStepsLogNothing(cfg: Settings, s: State, step: Step, id: JobId)
    requires ValidSettings(cfg) && Inv(cfg, s) && Next(cfg, s, step).Some? && id in s.tables.jobs && !step.Commit?
    ensures HistoryOf(Next(cfg, s, step).value, s.tables.jobs[id].event) == HistoryOf(s, s.tables.jobs[id].event)
  {
  }

  lemma CommitLogsReplays(cfg: Settings, s: State, sid: SessionId, id: JobId)
    requires ValidSettings(cfg) && Inv(cfg, s) && DoCommit(s, sid).Some? && id in s.tables.jobs
    ensures var event := s.tables.jobs[id].event;
            Replays(HistoryOf(DoCommit(s, sid).value, event))
              == Replays(HistoryOf(s, event)) + (if ReplayCommits(s, Commit(sid), id) then 1 else 0)
  {
    var session := s.sessions[sid];
    assert SessionOk(cfg, s.tables, session);
    match session {
      case Replaying(j, at) =>
        LogExtends(WithJobs(Closed(s, sid), s.tables.jobs[j := ReplayedRow(s.tables.jobs[j], at)]),
                   s.tables.jobs[j].event, Replayed);
      case Inserted(source, e, a) =>
        LogExtends(WithAttempt(Closed(s, sid), e, a), e, Delivered(false, a.outcome));
      case Written(source, e, a, row) =>
        LogExtends(WithJobs(WithAttempt(Closed(s, sid), e, a), s.tables.jobs[source.id := row]), e,
                   Delivered(true, a.outcome));
      case _ =>
    }
  }

  /** What one step does to the attempts left, disturbed or not. */
  lemma SpendingStep(cfg: Settings, s: State, step: Step, id: JobId)
    requires ValidSettings(cfg) && Inv(cfg, s) && Next(cfg, s, step).Some? && id in s.tables.jobs
    ensures var n := Next(cfg, s, step).value;
            && id in n.tables.jobs && n.tables.jobs[id].event == s.tables.jobs[id].event
            && var was, now := Remaining(cfg, s.tables.jobs[id]), Remaining(cfg, n.tables.jobs[id]);
            && 0 <= was && 0 <= now
            && (CompletionCommits(s, step, id) ==> now < cfg.maxAttempts)
            && (CompletionCommits(s, step, id) && Undisturbed(s, step.sid) ==> now == was - 1)
            && (ReplayCommits(s, step, id) ==> now == cfg.maxAttempts)
            && (!CompletionCommits(s, step, id) && !ReplayCommits(s, step, id) ==> now == was)
  {
    StepKeeps(cfg, s, step);
    if step.Commit? {
      CommitMoves(cfg, s, step.sid, id);
      SpentByCompletion(cfg, s, step, id);
    } else {
      OnlyCommitsMoveJobs(cfg, s, step, id);
    }
  }

  lemma SpentByCompletion(cfg: Settings, s: State, step: Step, id: JobId)
    requires ValidSettings(cfg) && Inv(cfg, s) && id in s.tables.jobs
    ensures CompletionCommits(s, step, id) ==>
              var session := s.sessions[step.sid];
              && session.row.attemptCount == session.source.loaded.attemptCount + 1 && session.row.attemptCount >= 1
              && session.row.event == s.tables.jobs[id].event
  {
    if CompletionCommits(s, step, id) {
      assert SessionOk(cfg, s.tables, s.sessions[step.sid]);
    }
  }

  /** Worker attempts and the attempts left, against the cycles opened by ingestion, replays and disturbances. */
  ghost predicate WithinBudget(cfg: Settings, s: State, id: JobId, disturbances: nat) {
    id in s.tables.jobs ==>
      var h := HistoryOf(s, s.tables.jobs[id].event);
      WorkerDeliveries(h) + Remaining(cfg, s.tables.jobs[id]) <= (Replays(h) + disturbances + 1) * cfg.maxAttempts
  }

  lemma OneMoreCycle(cycles: nat, max: int)
    ensures (cycles + 1) * max == cycles * max + max
  {
  }

  lemma MoreDisturbances(cycles: nat, more: nat, max: int)
    requires max >= 0
    ensures cycles * max <= (cycles + more) * max
  {
  }

  lemma StepWithinBudget(cfg: Settings, s: State, step: Step, id: JobId, disturbances: nat)
    requires ValidSettings(cfg) && Inv(cfg, s) && Next(cfg, s, step).Some? && id in s.tables.jobs
    requires WithinBudget(cfg, s, id, disturbances)
    ensures WithinBudget(cfg, Next(cfg, s, step).value, id, disturbances + if Disturbs(s, step, id) then 1 else 0)
  {
    hide Next, Inv, Undisturbed, WorkerDeliveries, Replays, CompletionCommits, ReplayCommits;
    var event := s.tables.jobs[id].event;
    CompletionsAreAttempts(cfg, s, step, id);
    SpendingStep(cfg, s, step, id);
    LogEffects(cfg, s, step, event);
    ReplaysLogged(cfg, s, step, id);
    EitherCommit(s, step, id);
    OneMoreCycle(Replays(HistoryOf(s, event)) + disturbances + 1, cfg.maxAttempts);
  }

  lemma EitherCommit(s: State, step: Step, id: JobId)
    ensures !(CompletionCommits(s, step, id) && ReplayCommits(s, step, id))
  {
  }

  lemma IngestedWithinBudget(cfg: Settings, s: State, step: Step, id: JobId, disturbances: nat)
    requires ValidSettings(cfg) && Inv(cfg, s) && Next(cfg, s, step).Some? && id !in s.tables.jobs
    ensures WithinBudget(cfg, Next(cfg, s, step).value, id, disturbances)
  {
    if step.Commit? {
      CommitKeepsJobs(cfg, s, step.sid);
    }
    MoreDisturbances(1, disturbances, cfg.maxAttempts);
  }

  lemma {:induction false} BudgetUpTo(cfg: Settings, steps: seq<Step>, n: nat, id: JobId)
    requires ValidSettings(cfg) && IsRun(cfg, steps) && n <= |steps|
    ensures WithinBudget(cfg, StateAt(cfg, steps, n), id, Disturbances(cfg, steps, n, id))
    decreases n
  {
    hide Next, Inv, Disturbs, WorkerDeliveries, Replays;
    if n == 0 {
      assert steps[..0] == [];
    } else {
      BudgetUpTo(cfg, steps, n - 1, id);
      StateFollows(cfg, steps, n - 1);
      var s, step := StateAt(cfg, steps, n - 1), steps[n - 1];
      if id in s.tables.jobs {
        StepWithinBudget(cfg, s, step, id, Disturbances(cfg, steps, n - 1, id));
      } else {
        IngestedWithinBudget(cfg, s, step, id, Disturbances(cfg, steps, n, id));
      }
    }
  }

  /**
   In every run, with r replays and d disturbed completions of a job, at most (r + d + 1) * max_attempts worker
   attempts of its event commit.
   */
  lemma RetryBudgetInAnyRun(cfg: Settings, steps: seq<Step>, id: JobId)
    requires ValidSettings(cfg) && IsRun(cfg, steps)
    requires id in Execute(cfg, steps).value.tables.jobs
    ensures var s := Execute(cfg, steps).value;
            var h := HistoryOf(s, s.tables.jobs[id].event);
            WorkerDeliveries(h) <= (Replays(h) + Disturbances(cfg, steps, |steps|, id) + 1) * cfg.maxAttempts
  {
    hide Next, Disturbances, WorkerDeliveries, Replays;
    BudgetUpTo(cfg, steps, |steps|, id);
    RunsKeepInv(cfg, steps);
    assert steps[..|steps|] == steps;
  }

  lemma {:induction false} NoDisturbances(cfg: Settings, steps: seq<Step>, n: nat, id: JobId)
    requires ValidSettings(cfg) && IsRun(cfg, steps) && CommitsUndisturbed(cfg, steps) && n <= |steps|
    ensures Disturbances(cfg, steps, n, id) == 0
    decreases n
  {
    hide Next, Inv, Undisturbed;
    if n > 0 {
      NoDisturbances(cfg, steps, n - 1, id);
      assert IsWorkerCommit(StateAt(cfg, steps, n - 1), steps[n - 1]) ==>
          Undisturbed(StateAt(cfg, steps, n - 1), steps[n - 1].sid);
    }
  }

  /** With r replays, an undisturbed run commits at most (r + 1) * max_attempts worker attempts of an event. */
  lemma RetryBudget(cfg: Settings, steps: seq<Step>, id: JobId)
    requires ValidSettings(cfg) && IsRun(cfg, steps) && CommitsUndisturbed(cfg, steps)
    requires id in Execute(cfg, steps).value.tables.jobs
    ensures var s := Execute(cfg, steps).value;
            var h := HistoryOf(s, s.tables.jobs[id].event);
            WorkerDeliveries(h) <= (Replays(h) + 1) * cfg.maxAttempts
  {
    hide CommitsUndisturbed, Disturbances, WorkerDeliveries, Replays;
    NoDisturbances(cfg, steps, |steps|, id);
    RetryBudgetInAnyRun(cfg, steps, id);
  }

  /**
   In an undisturbed run a committed completion of a job uses one attempt of its cycle, a replay refills the
   cycle, and no other step - recovery, claim and manual delivery included - touches it.
   */
  lemma BudgetIsSpentByCompletionsOnly(cfg: Settings, steps: seq<Step>, n: nat, id: JobId)
    requires ValidSettings(cfg) && IsRun(cfg, steps) && CommitsUndisturbed(cfg, steps) && n < |steps|
    requires id in StateAt(cfg, steps, n).tables.jobs
    ensures id in StateAt(cfg, steps, n + 1).tables.jobs
    ensures var s := StateAt(cfg, steps, n);
            var was := Remaining(cfg, s.tables.jobs[id]);
            var now := Remaining(cfg, StateAt(cfg, steps, n + 1).tables.jobs[id]);
            && 0 <= now
            && (CompletionCommits(s, steps[n], id) ==> now == was - 1)
            && (ReplayCommits(s, steps[n], id) ==> now == cfg.maxAttempts)
            && (!CompletionCommits(s, steps[n], id) && !ReplayCommits(s, steps[n], id) ==> now == was)
  {
    hide Next, Inv, Undisturbed;
    StateFollows(cfg, steps, n);
    var s, step := StateAt(cfg, steps, n), steps[n];
    assert IsWorkerCommit(s, step) ==> Undisturbed(s, step.sid);
    SpendingStep(cfg, s, step, id);
  }
}
