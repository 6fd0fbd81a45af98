/**
 What every step of the protocol keeps, with no assumption on how sessions interleave: row locks
 exclude each other, every row and every snapshot in flight respects the attempt budget, and the
 attempt numbers of an event are 1 .. n.
 */
module ProtocolInvariants {
  import opened DeliveryTables
  import opened JobQueue
  import opened Protocol

  ghost predicate TablesOk(cfg: Settings, s: State) {
    var t := s.tables;
    && t.attempts.Keys == t.events.Keys == s.history.Keys
    && (forall j | j in t.jobs :: JobRules(cfg, t.jobs[j]) && t.jobs[j].event in t.events)
    && (forall j, k | j in t.jobs && k in t.jobs && j != k :: t.jobs[j].event != t.jobs[k].event)
    && (forall e | e in t.attempts :: Consecutive(t.attempts[e]))
  }

  predicate SourceOk(cfg: Settings, t: Tables, source: Source, event: EventId) {
    source.ByWorker? ==>
      && source.id in t.jobs && t.jobs[source.id].event == event && source.loaded.event == event
      && source.loaded.status.Processing? && JobRules(cfg, source.loaded)
  }

  /** The decision a flushed job row carries. */
  predicate RowOk(cfg: Settings, source: Source, event: EventId, a: Attempt, row: Job) {
    && source.ByWorker? && JobRules(cfg, row) && row.event == event
    && row.attemptCount == source.loaded.attemptCount + 1
    && row.status == (if a.outcome.DeliverySucceeded? then Succeeded
                      else if row.attemptCount >= cfg.maxAttempts then DeadLetter else Pending)
  }

  predicate SessionOk(cfg: Settings, t: Tables, session: Session) {
    match session
    case Claiming(ids, _) => forall j | j in ids :: j in t.jobs && t.jobs[j].status.Pending?
    case Recovering(ids, _) => forall j | j in ids :: j in t.jobs && t.jobs[j].status.Processing?
    case Replaying(id, _) => id in t.jobs && !Active(t.jobs[id].status)
    case Loaded(id, job, _) =>
      id in t.jobs && t.jobs[id].event == job.event && job.status.Processing? && JobRules(cfg, job)
    case Numbered(source, event, number) =>
      event in t.attempts && SourceOk(cfg, t, source, event) && 1 <= number <= |t.attempts[event]| + 1
    case Inserted(source, event, a) =>
      event in t.attempts && SourceOk(cfg, t, source, event) && a.number == |t.attempts[event]| + 1
    case Written(source, event, a, row) =>
      && event in t.attempts && SourceOk(cfg, t, source, event) && a.number == |t.attempts[event]| + 1
      && RowOk(cfg, source, event, a, row) && row.createdAt == t.jobs[source.id].createdAt
  }

  ghost predicate SessionsOk(cfg: Settings, s: State) {
    && (forall sid | sid in s.sessions :: sid in s.spent && SessionOk(cfg, s.tables, s.sessions[sid]))
    && (forall a, b | a in s.sessions && b in s.sessions && a != b :: Held(s.sessions[a]) !! Held(s.sessions[b]))
  }

  /** No two sessions hold an uncommitted attempt of one event. */
  ghost predicate OneInserter(s: State) {
    forall a, b, e | a in s.sessions && b in s.sessions && a != b ::
      !(Inserts(s.sessions[a], e) && Inserts(s.sessions[b], e))
  }

  predicate Inserts(session: Session, event: EventId) {
    (session.Inserted? || session.Written?) && session.event == event
  }

  ghost predicate Inv(cfg: Settings, s: State) {
    TablesOk(cfg, s) && SessionsOk(cfg, s) && OneInserter(s)
  }

  // ---------------------------------------------------------------- sessions opening, moving, closing

  lemma HeldAreLocked(s: State, sid: SessionId)
    requires sid in s.sessions
    ensures Held(s.sessions[sid]) <= Locked(s)
  {
    forall j | j in Held(s.sessions[sid]) ensures j in Locked(s) {
      assert sid in s.sessions && j in Held(s.sessions[sid]);
    }
  }

  lemma OpeningKeeps(cfg: Settings, s: State, sid: SessionId, session: Session)
    requires ValidSettings(cfg) && Inv(cfg, s) && sid !in s.spent
    requires SessionOk(cfg, s.tables, session) && Held(session) !! Locked(s)
    requires !session.Inserted? && !session.Written?
    ensures Inv(cfg, Opened(s, sid, session))
  {
    var n := Opened(s, sid, session);
    forall a, b | a in n.sessions && b in n.sessions && a != b
      ensures Held(n.sessions[a]) !! Held(n.sessions[b])
    {
      if a != sid { HeldAreLocked(s, a); }
      if b != sid { HeldAreLocked(s, b); }
    }
  }

  lemma MovingKeeps(cfg: Settings, s: State, sid: SessionId, session: Session)
    requires ValidSettings(cfg) && Inv(cfg, s) && sid in s.sessions && Held(s.sessions[sid]) == {}
    requires SessionOk(cfg, s.tables, session) && Held(session) !! Locked(s)
    requires forall other, e | other in s.sessions && other != sid ::
            !(Inserts(session, e) && Inserts(s.sessions[other], e))
    ensures Inv(cfg, Moved(s, sid, session))
  {
    var n := Moved(s, sid, session);
    forall a, b | a in n.sessions && b in n.sessions && a != b
      ensures Held(n.sessions[a]) !! Held(n.sessions[b])
    {
      if a != sid { HeldAreLocked(s, a); }
      if b != sid { HeldAreLocked(s, b); }
    }
  }

  lemma ClosingKeeps(cfg: Settings, s: State, sid: SessionId)
    requires ValidSettings(cfg) && Inv(cfg, s)
    ensures Inv(cfg, Closed(s, sid))
  {
  }

  // ---------------------------------------------------------------- the statements

  lemma IngestKeeps(cfg: Settings, s: State, event: EventId, id: JobId, endpoint: EndpointId, now: int)
    requires ValidSettings(cfg) && Inv(cfg, s) && DoIngest(s, event, id, endpoint, now).Some?
    ensures Inv(cfg, DoIngest(s, event, id, endpoint, now).value)
  {
    var n := DoIngest(s, event, id, endpoint, now).value;
    forall sid | sid in n.sessions ensures SessionOk(cfg, n.tables, n.sessions[sid]) {
      assert SessionOk(cfg, s.tables, s.sessions[sid]);
    }
  }

  lemma ClaimKeeps(cfg: Settings, s: State, sid: SessionId, at: int, limit: nat)
    requires ValidSettings(cfg) && Inv(cfg, s) && DoClaim(s, sid, at, limit).Some?
    ensures Inv(cfg, DoClaim(s, sid, at, limit).value)
  {
    DueJobsSelection(s.tables.jobs, Locked(s), at, limit);
    OpeningKeeps(cfg, s, sid, Claiming(DueJobs(s.tables.jobs, Locked(s), at, limit), at));
  }

  lemma RecoverKeeps(cfg: Settings, s: State, sid: SessionId, before: int, at: int, limit: nat)
    requires ValidSettings(cfg) && Inv(cfg, s) && DoRecover(s, sid, before, at, limit).Some?
    ensures Inv(cfg, DoRecover(s, sid, before, at, limit).value)
  {
    StaleJobsSelection(s.tables.jobs, Locked(s), before, limit);
    OpeningKeeps(cfg, s, sid, Recovering(StaleJobs(s.tables.jobs, Locked(s), before, limit), at));
  }

  lemma ReadMaximumKeeps(cfg: Settings, s: State, sid: SessionId)
    requires ValidSettings(cfg) && Inv(cfg, s) && DoReadMaximum(s, sid).Some?
    ensures Inv(cfg, DoReadMaximum(s, sid).value)
  {
    var session := s.sessions[sid];
    assert SessionOk(cfg, s.tables, session);
    var event := session.job.event;
    NextNumberIsLength(s.tables.attempts[event]);
    MovingKeeps(cfg, s, sid, DoReadMaximum(s, sid).value.sessions[sid]);
  }

  lemma StartManualKeeps(cfg: Settings, s: State, sid: SessionId, event: EventId)
    requires ValidSettings(cfg) && Inv(cfg, s) && DoStartManual(s, sid, event).Some?
    ensures Inv(cfg, DoStartManual(s, sid, event).value)
  {
    NextNumberIsLength(s.tables.attempts[event]);
    OpeningKeeps(cfg, s, sid, DoStartManual(s, sid, event).value.sessions[sid]);
  }

  /** A free number is the next one, and nobody else can be holding it. */
  lemma InsertKeeps(cfg: Settings, s: State, sid: SessionId, post: Post, startedNs: int, finishedNs: int, at: int)
    requires ValidSettings(cfg) && Inv(cfg, s) && DoInsert(s, sid, post, startedNs, finishedNs, at).Some?
    ensures Inv(cfg, DoInsert(s, sid, post, startedNs, finishedNs, at).value)
  {
    var prior := s.sessions[sid];
    assert SessionOk(cfg, s.tables, prior);
    var rows := s.tables.attempts[prior.event];
    NextNumberIsLength(rows);
    ClassificationIsExact(prior.number, post, startedNs, finishedNs, at);
    var session := DoInsert(s, sid, post, startedNs, finishedNs, at).value.sessions[sid];
    assert session.attempt.number == |rows| + 1;
    forall other, e | other in s.sessions && other != sid
      ensures !(Inserts(session, e) && Inserts(s.sessions[other], e))
    {
      assert SessionOk(cfg, s.tables, s.sessions[other]);
      assert !HoldsNumber(s.sessions[other], prior.event, prior.number);
    }
    MovingKeeps(cfg, s, sid, session);
  }

  lemma WriteJobKeeps(cfg: Settings, s: State, sid: SessionId, decisionAt: int)
    requires ValidSettings(cfg) && Inv(cfg, s) && DoWriteJob(cfg, s, sid, decisionAt).Some?
    ensures Inv(cfg, DoWriteJob(cfg, s, sid, decisionAt).value)
  {
    var prior := s.sessions[sid];
    assert SessionOk(cfg, s.tables, prior);
    FlushKeepsRules(cfg, s.tables.jobs[prior.source.id], prior.source.loaded, prior.attempt.outcome, decisionAt);
    MovingKeeps(cfg, s, sid, DoWriteJob(cfg, s, sid, decisionAt).value.sessions[sid]);
  }

  // ---------------------------------------------------------------- the commits

  /** Committing new values for rows the session had locked cannot disturb another session. */
  lemma JobWritesKeepOthers(cfg: Settings, s: State, sid: SessionId, jobs: Jobs)
    requires ValidSettings(cfg) && Inv(cfg, s) && sid in s.sessions && jobs.Keys == s.tables.jobs.Keys
    requires forall j | j in jobs :: jobs[j].event == s.tables.jobs[j].event && JobRules(cfg, jobs[j])
    requires forall j | j in jobs && j !in Held(s.sessions[sid]) :: jobs[j] == s.tables.jobs[j]
    ensures Inv(cfg, WithJobs(Closed(s, sid), jobs))
  {
    var n := WithJobs(Closed(s, sid), jobs);
    forall other | other in n.sessions
      ensures SessionOk(cfg, n.tables, n.sessions[other])
    {
      assert SessionOk(cfg, s.tables, s.sessions[other]);
      assert Held(s.sessions[other]) !! Held(s.sessions[sid]);
      if s.sessions[other].Claiming? || s.sessions[other].Recovering? {
        forall j | j in s.sessions[other].ids ensures j in jobs && jobs[j] == s.tables.jobs[j] {
          assert j in Held(s.sessions[other]);
        }
      }
    }
  }

  /** Appending the attempt of the one session that holds the next number leaves every other session valid. */
  lemma AttemptKeepsOthers(cfg: Settings, s: State, event: EventId, a: Attempt, entry: Entry)
    requires ValidSettings(cfg) && Inv(cfg, s) && event in s.tables.attempts
    requires a.number == |s.tables.attempts[event]| + 1
    requires forall other | other in s.sessions :: !Inserts(s.sessions[other], event)
    ensures Inv(cfg, Logged(WithAttempt(s, event, a), event, entry))
  {
    var n := Logged(WithAttempt(s, event, a), event, entry);
    forall other | other in n.sessions ensures SessionOk(cfg, n.tables, n.sessions[other]) {
      assert SessionOk(cfg, s.tables, s.sessions[other]);
    }
    forall e | e in n.tables.attempts ensures Consecutive(n.tables.attempts[e]) {
      assert Consecutive(s.tables.attempts[e]);
    }
  }

  lemma CommitKeeps(cfg: Settings, s: State, sid: SessionId)
    requires ValidSettings(cfg) && Inv(cfg, s) && DoCommit(s, sid).Some?
    ensures Inv(cfg, DoCommit(s, sid).value)
  {
    var session := s.sessions[sid];
    var jobs := s.tables.jobs;
    assert SessionOk(cfg, s.tables, session);
    match session {
      case Claiming(ids, at) =>
        JobWritesKeepOthers(cfg, s, sid, ClaimedJobs(jobs, ids, at));
      case Recovering(ids, at) =>
        JobWritesKeepOthers(cfg, s, sid, RecoveredJobs(jobs, ids, at));
      case Replaying(id, at) =>
        JobWritesKeepOthers(cfg, s, sid, jobs[id := ReplayedRow(jobs[id], at)]);
      case Inserted(source, event, a) =>
        ClosingKeeps(cfg, s, sid);
        AttemptKeepsOthers(cfg, Closed(s, sid), event, a, Delivered(false, a.outcome));
      case Written(source, event, a, row) =>
        var w := WithJobs(Closed(s, sid), jobs[source.id := row]);
        JobWritesKeepOthers(cfg, s, sid, jobs[source.id := row]);
        AttemptKeepsOthers(cfg, w, event, a, Delivered(true, a.outcome));
        assert DoCommit(s, sid).value == Logged(WithAttempt(w, event, a), event, Delivered(true, a.outcome));
    }
  }

  lemma StepKeeps(cfg: Settings, s: State, step: Step)
    requires ValidSettings(cfg) && Inv(cfg, s) && Next(cfg, s, step).Some?
    ensures Inv(cfg, Next(cfg, s, step).value)
  {
    match step {
      case AddEndpoint(endpoint) =>
      case SetActive(endpoint, active) =>
      case Ingest(event, id, endpoint, now) => IngestKeeps(cfg, s, event, id, endpoint, now);
      case Claim(sid, at, limit) => ClaimKeeps(cfg, s, sid, at, limit);
      case Recover(sid, before, at, limit) => RecoverKeeps(cfg, s, sid, before, at, limit);
      case Replay(sid, event, id, at) => OpeningKeeps(cfg, s, sid, Replaying(id, at));
      case LoadJob(sid, id) => OpeningKeeps(cfg, s, sid, Next(cfg, s, step).value.sessions[sid]);
      case ReadMaximum(sid) => ReadMaximumKeeps(cfg, s, sid);
      case StartManual(sid, event) => StartManualKeeps(cfg, s, sid, event);
      case Insert(sid, post, startedNs, finishedNs, at) => InsertKeeps(cfg, s, sid, post, startedNs, finishedNs, at);
      case WriteJob(sid, decisionAt) => WriteJobKeeps(cfg, s, sid, decisionAt);
      case Commit(sid) => CommitKeeps(cfg, s, sid);
      case Abort(sid) => ClosingKeeps(cfg, s, sid);
    }
  }

  lemma {:induction false} RunsKeepInv(cfg: Settings, steps: seq<Step>)
    requires ValidSettings(cfg) && IsRun(cfg, steps)
    ensures Inv(cfg, Execute(cfg, steps).value)
    decreases |steps|
  {
    if steps != [] {
      var init := steps[..|steps| - 1];
      RunsKeepInv(cfg, init);
      StepKeeps(cfg, Execute(cfg, init).value, steps[|steps| - 1]);
    }
  }
}
