/**
 What each transaction of the services does to the committed tables when no other session is open, as
 functions of the tables and of what the outside world answers; and that running the statements of
 the protocol one after the other, undisturbed, does exactly that.
 */
module DeliveryTransactions {
  import opened Wrappers
  import opened RetryPolicy
  import opened DeliveryTables
  import opened JobQueue
  import opened Protocol

  datatype Failure =
    | InvalidPollInterval | InvalidStaleTimeout | InvalidLimit | InvalidTimeout | InvalidInterval | InstantUnderflow
    | EventNotFound | EndpointNotFound | EndpointInactive
    | JobNotFound | JobNotProcessing | JobNotReplayable
    | PostRaised | IntegrityError | PolicyError(error: RetryError) | DatabaseError

  /** What the clocks and the HTTP client answer during one delivery and its decision. */
  datatype Exchange = Exchange(post: Post, startedNs: int, finishedNs: int, attemptedAt: int, decisionAt: int)

  /** Delays that are Python numbers of one kind or another; whether they make sense is for the policy to say. */
  predicate Representable(cfg: Settings) {
    ValidNumber(cfg.baseDelay) && ValidNumber(cfg.maxDelay)
  }

  /** UNIQUE(event_id) of the job table. */
  predicate OneJobPerEvent(t: Tables) {
    forall a, b :: a in t.jobs && b in t.jobs && t.jobs[a].event == t.jobs[b].event ==> a == b
  }

  function AfterClaim(t: Tables, at: int, limit: nat): Tables {
    t.(jobs := ClaimedJobs(t.jobs, DueJobs(t.jobs, {}, at, limit), at))
  }

  function AfterRecovery(t: Tables, before: int, at: int, limit: nat): Tables {
    t.(jobs := RecoveredJobs(t.jobs, StaleJobs(t.jobs, {}, before, limit), at))
  }

  /** prepare_webhook_delivery: the number of the next attempt. */
  function Prepare(t: Tables, event: EventId): Result<int, Failure> {
    if event !in t.events then Err(EventNotFound)
    else if t.events[event] !in t.endpoints then Err(EndpointNotFound)
    else if !t.endpoints[t.events[event]] then Err(EndpointInactive)
    else Ok(NextNumber(AttemptsOf(t, event)))
  }

  /** The attempt a delivery inserts. */
  function Deliver(t: Tables, event: EventId, x: Exchange): Result<Attempt, Failure> {
    var number := Prepare(t, event);
    if number.Err? then Err(number.error) else
    var a := RecordAttempt(number.value, x.post, DurationMs(x.startedNs, x.finishedNs), x.attemptedAt);
    if a.None? then Err(PostRaised)
    else if !AttemptChecks(a.value) || NumberTaken(AttemptsOf(t, event), number.value) then Err(IntegrityError)
    else Ok(a.value)
  }

  function WithDelivery(t: Tables, event: EventId, a: Attempt): Tables {
    t.(attempts := t.attempts[event := AttemptsOf(t, event) + [a]])
  }

  /** The tables after one completed job. */
  function Complete(cfg: Settings, t: Tables, id: JobId, x: Exchange): Result<Tables, Failure>
    requires Representable(cfg)
  {
    if id !in t.jobs then Err(JobNotFound) else
    var job := t.jobs[id];
    if !job.status.Processing? then Err(JobNotProcessing) else
    var a := Deliver(t, job.event, x);
    if a.Err? then Err(a.error) else
    var d := DecideRetry(a.value.outcome, job.attemptCount + 1, x.decisionAt, cfg.maxAttempts, cfg.baseDelay,
                         cfg.maxDelay, cfg.rounding);
    if d.Err? then Err(PolicyError(d.error)) else
    Ok(WithDelivery(t, job.event, a.value).(jobs := t.jobs[id := CompletedRow(job, d.value, x.decisionAt)]))
  }

  predicate Terminal(status: Status) {
    status.Succeeded? || status.DeadLetter?
  }

  /** The refusal of a replay of this event; None when its job may be replayed. */
  function ReplayRefusal(t: Tables, event: EventId): Option<Failure> {
    if event !in t.events then Some(EventNotFound)
    else if t.events[event] !in t.endpoints then Some(EndpointNotFound)
    else if !t.endpoints[t.events[event]] then Some(EndpointInactive)
    else if forall id | id in t.jobs :: t.jobs[id].event != event then Some(JobNotFound)
    else if forall id | id in t.jobs && t.jobs[id].event == event :: !Terminal(t.jobs[id].status)
    then Some(JobNotReplayable)
    else None
  }

  // ---------------------------------------------------------------- what they come to, column by column

  /** Which refusal answers which event, in the order of the checks, and the number of an attempt that may be made. */
  lemma PreparationCases(t: Tables, event: EventId)
    ensures var r := Prepare(t, event);
            && (r == Err(EventNotFound) <==> event !in t.events)
            && (r == Err(EndpointNotFound) <==> event in t.events && t.events[event] !in t.endpoints)
            && (r == Err(EndpointInactive) <==>
                  event in t.events && t.events[event] in t.endpoints && !t.endpoints[t.events[event]])
            && (r.Ok? <==> event in t.events && t.events[event] in t.endpoints && t.endpoints[t.events[event]])
    ensures var r, rows := Prepare(t, event), if event in t.attempts then t.attempts[event] else [];
            r.Ok? ==>
              && (rows == [] ==> r.value == 1)
              && (rows != [] ==> exists i :: 0 <= i < |rows| && r.value == rows[i].number + 1)
              && (forall i :: 0 <= i < |rows| ==> rows[i].number < r.value)
  {
  }

  /** A delivery that may be made fails on an unexpected exception and on a status no row may hold, and only then. */
  lemma DeliveryCases(t: Tables, event: EventId, x: Exchange)
    ensures var r, number := Deliver(t, event, x), Prepare(t, event);
            && (number.Err? ==> r == Err(number.error))
            && (number.Ok? && x.post.UnexpectedError? ==> r == Err(PostRaised))
            && (number.Ok? && !x.post.UnexpectedError? ==>
                  if number.value < 1 || (x.post.Response? && !(100 <= x.post.code <= 599)) then
                    r == Err(IntegrityError)
                  else
                    && r.Ok? && r.value.number == number.value && r.value.attemptedAt == x.attemptedAt
                    && (r.value.outcome == DeliverySucceeded <==> x.post.Response? && 200 <= x.post.code <= 299)
                    && r.value.responseStatus == (if x.post.Response? then Some(x.post.code) else None))
  {
    PreparationCases(t, event);
    var number := Prepare(t, event);
    if number.Ok? && number.value >= 1 {
      ClassificationIsExact(number.value, x.post, x.startedNs, x.finishedNs, x.attemptedAt);
    }
  }

  /**
   A completion, column by column: who is refused, and what the row and the attempts of a job are afterwards in each
   case of the outcome and of the attempts left.  The wait before a retry is the delay formula's.
   */
  lemma CompletionCases(cfg: Settings, t: Tables, id: JobId, x: Exchange)
    requires Representable(cfg)
    ensures Complete(cfg, t, id, x) == Err(JobNotFound) <==> id !in t.jobs
    ensures Complete(cfg, t, id, x) == Err(JobNotProcessing) <==> id in t.jobs && t.jobs[id].status != Processing
    ensures id in t.jobs && t.jobs[id].status == Processing ==>
              var job, r := t.jobs[id], Complete(cfg, t, id, x);
              var n, a := job.attemptCount + 1, Deliver(t, job.event, x);
              && (a.Err? ==> r == Err(a.error))
              && (a.Ok? && n < 1 ==> r == Err(PolicyError(InvalidAttemptNumber)))
              && (a.Ok? && n >= 1 && cfg.maxAttempts < 1 ==> r == Err(PolicyError(InvalidMaxAttempts)))
              && (a.Ok? && n >= 1 && cfg.maxAttempts >= 1 && (!cfg.baseDelay.Positive? || !cfg.maxDelay.Positive?) ==>
                    r == Err(PolicyError(InvalidDelay)))
    ensures id in t.jobs && t.jobs[id].status == Processing && t.jobs[id].attemptCount >= 0 && cfg.maxAttempts >= 1
            && cfg.baseDelay.Positive? && cfg.maxDelay.Positive? && Deliver(t, t.jobs[id].event, x).Ok? ==>
              var job, r := t.jobs[id], Complete(cfg, t, id, x);
              var n, a := job.attemptCount + 1, Deliver(t, job.event, x).value;
              var base, top := Units(cfg.baseDelay.value), Units(cfg.maxDelay.value);
              var next := x.decisionAt + cfg.rounding(Least(base * Pow2(n - 1), top));
              var rows := if job.event in t.attempts then t.attempts[job.event] else [];
              var attempts := t.attempts[job.event := rows + [a]];
              if base > top then r == Err(PolicyError(BaseAboveMaximum))
              else if a.outcome == DeliverySucceeded then
                r == Ok(Tables(t.endpoints, t.events,
                               t.jobs[id := Job(job.event, Succeeded, None, n, job.createdAt, x.decisionAt)],
                               attempts))
              else if n >= cfg.maxAttempts then
                r == Ok(Tables(t.endpoints, t.events,
                               t.jobs[id := Job(job.event, DeadLetter, None, n, job.createdAt, x.decisionAt)],
                               attempts))
              else if next > 315_537_897_599_999_999 then r == Err(PolicyError(InstantOutOfRange))
              else
                r == Ok(Tables(t.endpoints, t.events,
                               t.jobs[id := Job(job.event, Pending, Some(next), n, job.createdAt, x.decisionAt)],
                               attempts))
  {
    if id in t.jobs && t.jobs[id].status == Processing {
      var job := t.jobs[id];
      DeliveryCases(t, job.event, x);
      PreparationCases(t, job.event);
      var a := Deliver(t, job.event, x);
      if a.Ok? {
        PolicyCases(cfg, job.attemptCount + 1, a.value.outcome, x.decisionAt);
      }
    }
  }

  lemma PolicyCases(cfg: Settings, n: int, outcome: Outcome, at: int)
    requires Representable(cfg)
    ensures var r := DecideRetry(outcome, n, at, cfg.maxAttempts, cfg.baseDelay, cfg.maxDelay, cfg.rounding);
            if n < 1 then r == Err(InvalidAttemptNumber)
            else if cfg.maxAttempts < 1 then r == Err(InvalidMaxAttempts)
            else if !cfg.baseDelay.Positive? || !cfg.maxDelay.Positive? then r == Err(InvalidDelay)
            else
              var base, top := Units(cfg.baseDelay.value), Units(cfg.maxDelay.value);
              var next := at + cfg.rounding(Least(base * Pow2(n - 1), top));
              if base > top then r == Err(BaseAboveMaximum)
              else if outcome == DeliverySucceeded then r == Ok(MarkSucceeded)
              else if n >= cfg.maxAttempts then r == Ok(MarkDeadLetter)
              else if next > 315_537_897_599_999_999 then r == Err(InstantOutOfRange)
              else r == Ok(RetryAt(next))
  {
    DecisionRefusals(outcome, n, at, cfg.maxAttempts, cfg.baseDelay, cfg.maxDelay, cfg.rounding);
    if n >= 1 && cfg.maxAttempts >= 1 && cfg.baseDelay.Positive? && cfg.maxDelay.Positive? {
      if Units(cfg.baseDelay.value) <= Units(cfg.maxDelay.value) {
        DecisionCases(outcome, n, at, cfg.maxAttempts, cfg.baseDelay, cfg.maxDelay, cfg.rounding);
      }
    }
  }

  /** Which refusal answers which replay, in the order of the checks; exactly a finished job is accepted. */
  lemma ReplayCases(t: Tables, event: EventId)
    ensures var r := ReplayRefusal(t, event);
            && (r == Some(EventNotFound) <==> event !in t.events)
            && (r == Some(EndpointNotFound) <==> event in t.events && t.events[event] !in t.endpoints)
            && (r == Some(EndpointInactive) <==>
                  event in t.events && t.events[event] in t.endpoints && !t.endpoints[t.events[event]])
    ensures event in t.events && t.events[event] in t.endpoints && t.endpoints[t.events[event]] ==>
              var r := ReplayRefusal(t, event);
              && (r == Some(JobNotFound) <==> forall j | j in t.jobs :: t.jobs[j].event != event)
              && (r == None <==>
                    exists j :: j in t.jobs && t.jobs[j].event == event
                                && (t.jobs[j].status == Succeeded || t.jobs[j].status == DeadLetter))
              && (r != None && r != Some(JobNotFound) ==> r == Some(JobNotReplayable))
  {
  }

  // ---------------------------------------------------------------- the transactions are undisturbed protocol sessions

  /** From a quiet state with a fresh session name, the statements of one session run to its commit. */
  predicate Quiescent(s: State, sid: SessionId) {
    s.sessions == map[] && sid !in s.spent
  }

  function Run(cfg: Settings, s: State, steps: seq<Step>): Option<State>
    requires ValidSettings(cfg)
    decreases |steps|
  {
    if steps == [] then Some(s)
    else
      var next := Next(cfg, s, steps[0]);
      if next.None? then None else Run(cfg, next.value, steps[1..])
  }

  function AndThen(cfg: Settings, r: Option<State>, step: Step): Option<State>
    requires ValidSettings(cfg)
  {
    if r.None? then None else Next(cfg, r.value, step)
  }

  lemma RunStep(cfg: Settings, r: Option<State>, steps: seq<Step>)
    requires ValidSettings(cfg) && r.Some? && steps != []
    ensures var next := AndThen(cfg, r, steps[0]);
            Run(cfg, r.value, steps) == if next.None? then None else Run(cfg, next.value, steps[1..])
  {
  }

  lemma RunTwo(cfg: Settings, s: State, a: Step, b: Step)
    requires ValidSettings(cfg)
    ensures Run(cfg, s, [a, b]) == AndThen(cfg, Next(cfg, s, a), b)
  {
    hide Next;
    var m := Next(cfg, s, a);
    assert [a, b][1..] == [b];
    if m.Some? {
      RunStep(cfg, m, [b]);
      assert [b][1..] == [];
    }
  }

  lemma RunThree(cfg: Settings, s: State, a: Step, b: Step, c: Step)
    requires ValidSettings(cfg)
    ensures Run(cfg, s, [a, b, c]) == AndThen(cfg, AndThen(cfg, Next(cfg, s, a), b), c)
  {
    hide Next;
    var m := Next(cfg, s, a);
    assert [a, b, c][1..] == [b, c];
    if m.Some? {
      RunTwo(cfg, m.value, b, c);
    }
  }

  lemma RunFive(cfg: Settings, s: State, a: Step, b: Step, c: Step, d: Step, e: Step)
    requires ValidSettings(cfg)
    ensures Run(cfg, s, [a, b, c, d, e])
            == AndThen(cfg, AndThen(cfg, AndThen(cfg, AndThen(cfg, Next(cfg, s, a), b), c), d), e)
  {
    hide Next;
    var s1 := Next(cfg, s, a);
    assert [a, b, c, d, e][1..] == [b, c, d, e];
    if s1.Some? {
      var s2 := AndThen(cfg, s1, b);
      RunStep(cfg, s1, [b, c, d, e]);
      assert [b, c, d, e][1..] == [c, d, e];
      if s2.Some? {
        var s3 := AndThen(cfg, s2, c);
        RunStep(cfg, s2, [c, d, e]);
        assert [c, d, e][1..] == [d, e];
        if s3.Some? {
          RunTwo(cfg, s3.value, d, e);
        }
      }
    }
  }

  lemma ClaimIsASession(cfg: Settings, s: State, sid: SessionId, at: int, limit: nat)
    requires ValidSettings(cfg) && Quiescent(s, sid) && limit >= 1
    ensures var r := Run(cfg, s, [Claim(sid, at, limit), Commit(sid)]);
            r.Some? && r.value.tables == AfterClaim(s.tables, at, limit) && r.value.sessions == map[]
            && r.value.history == s.history
  {
    assert Locked(s) == {};
    RunTwo(cfg, s, Claim(sid, at, limit), Commit(sid));
  }

  lemma RecoveryIsASession(cfg: Settings, s: State, sid: SessionId, before: int, at: int, limit: nat)
    requires ValidSettings(cfg) && Quiescent(s, sid) && limit >= 1 && before <= at
    ensures var r := Run(cfg, s, [Recover(sid, before, at, limit), Commit(sid)]);
            r.Some? && r.value.tables == AfterRecovery(s.tables, before, at, limit) && r.value.sessions == map[]
            && r.value.history == s.history
  {
    assert Locked(s) == {};
    RunTwo(cfg, s, Recover(sid, before, at, limit), Commit(sid));
  }

  /** A replay of an event's job runs undisturbed exactly when it is not refused. */
  lemma ReplayIsASession(cfg: Settings, s: State, sid: SessionId, event: EventId, id: JobId, at: int)
    requires ValidSettings(cfg) && Quiescent(s, sid)
    requires OneJobPerEvent(s.tables) && id in s.tables.jobs && s.tables.jobs[id].event == event
    ensures var r := Run(cfg, s, [Replay(sid, event, id, at), Commit(sid)]);
            && (r.Some? <==> ReplayRefusal(s.tables, event).None?)
            && (r.Some? ==>
                  r.value.tables == s.tables.(jobs := s.tables.jobs[id := ReplayedRow(s.tables.jobs[id], at)])
                  && r.value.sessions == map[])
  {
    assert Locked(s) == {};
    RunTwo(cfg, s, Replay(sid, event, id, at), Commit(sid));
    assert ReplayRefusal(s.tables, event).None? <==> Deliverable(s.tables, event) && Terminal(s.tables.jobs[id].status);
    var n := DoReplay(s, sid, event, id, at);
    if n.Some? {
      assert DoCommit(n.value, sid).value.sessions == map[];
    }
  }

  /** A delivery by hand runs undisturbed exactly when it does not fail, adds its attempt and touches no job. */
  lemma ManualDeliveryIsASession(cfg: Settings, s: State, sid: SessionId, event: EventId, x: Exchange)
    requires ValidSettings(cfg) && Quiescent(s, sid)
    ensures var r := Run(cfg, s,
                         [StartManual(sid, event), Insert(sid, x.post, x.startedNs, x.finishedNs, x.attemptedAt),
                          Commit(sid)]);
            && (r.Some? <==> Deliver(s.tables, event, x).Ok?)
            && (r.Some? ==>
                  r.value.tables == WithDelivery(s.tables, event, Deliver(s.tables, event, x).value)
                  && r.value.sessions == map[])
  {
    RunThree(cfg, s, StartManual(sid, event), Insert(sid, x.post, x.startedNs, x.finishedNs, x.attemptedAt),
             Commit(sid));
    var s1 := DoStartManual(s, sid, event);
    if s1.None? { return; }
    assert s1.value.sessions.Keys == {sid};
    InsertIsDeliver(s1.value, sid, x);
    var s2 := DoInsert(s1.value, sid, x.post, x.startedNs, x.finishedNs, x.attemptedAt);
    if s2.None? { return; }
    assert DoCommit(s2.value, sid).value.sessions == map[];
  }

  function CompletionSteps(sid: SessionId, id: JobId, x: Exchange): seq<Step> {
    [LoadJob(sid, id), ReadMaximum(sid), Insert(sid, x.post, x.startedNs, x.finishedNs, x.attemptedAt),
     WriteJob(sid, x.decisionAt), Commit(sid)]
  }

  /**
   A completion succeeds exactly when its five protocol steps can run undisturbed, and does the same to the tables.
   */
  lemma CompletionIsASession(cfg: Settings, s: State, sid: SessionId, id: JobId, x: Exchange)
    requires ValidSettings(cfg) && Quiescent(s, sid)
    ensures var r := Run(cfg, s, CompletionSteps(sid, id, x));
            && (r.Some? <==> Complete(cfg, s.tables, id, x).Ok?)
            && (r.Some? ==> r.value.tables == Complete(cfg, s.tables, id, x).value && r.value.sessions == map[])
  {
    var steps := CompletionSteps(sid, id, x);
    RunFive(cfg, s, steps[0], steps[1], steps[2], steps[3], steps[4]);
    var r := AndThen(cfg, AndThen(cfg, Next(cfg, s, steps[0]), steps[1]), steps[2]);
    DeliverySteps(cfg, s, sid, id, x);
    if r.Some? {
      WritingSteps(cfg, r.value, sid, x.decisionAt);
    }
  }

  /** The session a completion has open once its attempt is inserted. */
  function Delivering(s: State, id: JobId, a: Attempt): Session
    requires id in s.tables.jobs
  {
    var job := s.tables.jobs[id];
    Inserted(ByWorker(id, job, WorkerDeliveries(HistoryOf(s, job.event))), job.event, a)
  }

  lemma DeliverySteps(cfg: Settings, s: State, sid: SessionId, id: JobId, x: Exchange)
    requires ValidSettings(cfg) && Quiescent(s, sid)
    ensures var steps := CompletionSteps(sid, id, x);
            var r := AndThen(cfg, AndThen(cfg, Next(cfg, s, steps[0]), steps[1]), steps[2]);
            && (r.Some? <==>
                  id in s.tables.jobs && s.tables.jobs[id].status.Processing?
                  && Deliver(s.tables, s.tables.jobs[id].event, x).Ok?)
            && (r.Some? ==> r.value.tables == s.tables
                            && r.value.sessions.Keys == {sid}
                            && r.value.sessions[sid]
                               == Delivering(s, id, Deliver(s.tables, s.tables.jobs[id].event, x).value))
  {
    var s1 := DoLoadJob(s, sid, id);
    if s1.None? { return; }
    var s2 := DoReadMaximum(s1.value, sid);
    if s2.None? { return; }
    assert s2.value.sessions.Keys == {sid};
    InsertIsDeliver(s2.value, sid, x);
  }

  lemma InsertIsDeliver(s: State, sid: SessionId, x: Exchange)
    requires s.sessions.Keys == {sid} && s.sessions[sid].Numbered? && Deliverable(s.tables, s.sessions[sid].event)
    requires s.sessions[sid].number == NextNumber(AttemptsOf(s.tables, s.sessions[sid].event))
    ensures var n := DoInsert(s, sid, x.post, x.startedNs, x.finishedNs, x.attemptedAt);
            var a := Deliver(s.tables, s.sessions[sid].event, x);
            && (n.Some? <==> a.Ok?)
            && (n.Some? ==> n.value == Moved(s, sid, Inserted(s.sessions[sid].source, s.sessions[sid].event, a.value)))
  {
    assert forall other | other in s.sessions ::
        !HoldsNumber(s.sessions[other], s.sessions[sid].event, s.sessions[sid].number);
  }

  lemma WritingSteps(cfg: Settings, s: State, sid: SessionId, decisionAt: int)
    requires ValidSettings(cfg) && s.sessions.Keys == {sid} && s.sessions[sid].Inserted?
    requires s.sessions[sid].source.ByWorker?
    requires var source := s.sessions[sid].source;
             source.id in s.tables.jobs && s.tables.jobs[source.id] == source.loaded
    ensures var session := s.sessions[sid];
            var job := session.source.loaded;
            var r := AndThen(cfg, Next(cfg, s, WriteJob(sid, decisionAt)), Commit(sid));
            var d := DecideRetry(session.attempt.outcome, job.attemptCount + 1, decisionAt, cfg.maxAttempts,
                                 cfg.baseDelay, cfg.maxDelay, cfg.rounding);
            && (r.Some? <==> d.Ok?)
            && (r.Some? ==> r.value.sessions == map[])
            && (r.Some? ==>
                  r.value.tables.jobs == s.tables.jobs[session.source.id := CompletedRow(job, d.value, decisionAt)])
            && (r.Some? ==>
                  r.value.tables
                  == WithDelivery(s.tables, session.event, session.attempt).(jobs := r.value.tables.jobs))
  {
    assert Locked(s) == {};
    var n := DoWriteJob(cfg, s, sid, decisionAt);
    if n.Some? {
      assert DoCommit(n.value, sid).value.sessions == map[];
    }
  }
}
