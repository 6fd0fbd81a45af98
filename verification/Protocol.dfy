/**
 The delivery-job protocol as interleaved database sessions on READ COMMITTED.

 Every step is one statement or one commit of some session; sessions of any number of workers,
 operators and API clients interleave freely, may stop anywhere (Abort), and use arbitrary clocks.
 Row locks are what the open sessions hold.  history and the seen field are auxiliary: they record
 what happened and no step reads them to decide anything.
 */
module Protocol {
  import opened Wrappers
  import opened RetryPolicy
  import opened DeliveryTables
  import opened JobQueue

  type SessionId = int

  datatype Source = ByWorker(id: JobId, loaded: Job, seen: nat) | ByHand

  /** An open transaction: what it has read and what it has flushed but not committed. */
  datatype Session =
    | Claiming(ids: seq<JobId>, at: int)
    | Recovering(ids: seq<JobId>, at: int)
    | Replaying(id: JobId, at: int)
    | Loaded(id: JobId, job: Job, seen: nat)
    | Numbered(source: Source, event: EventId, number: int)
    | Inserted(source: Source, event: EventId, attempt: Attempt)
    | Written(source: Source, event: EventId, attempt: Attempt, row: Job)

  datatype Entry = Delivered(byWorker: bool, outcome: Outcome) | Replayed

  datatype State = State(tables: Tables, sessions: map<SessionId, Session>, spent: set<SessionId>,
                         history: map<EventId, seq<Entry>>)

  datatype Step =
    | AddEndpoint(endpoint: EndpointId)
    | SetActive(endpoint: EndpointId, active: bool)
    | Ingest(event: EventId, id: JobId, endpoint: EndpointId, now: int)
    | Claim(sid: SessionId, at: int, limit: nat)
    | Recover(sid: SessionId, before: int, at: int, limit: nat)
    | Replay(sid: SessionId, event: EventId, id: JobId, at: int)
    | LoadJob(sid: SessionId, id: JobId)
    | ReadMaximum(sid: SessionId)
    | StartManual(sid: SessionId, event: EventId)
    | Insert(sid: SessionId, post: Post, startedNs: int, finishedNs: int, attemptedAt: int)
    | WriteJob(sid: SessionId, decisionAt: int)
    | Commit(sid: SessionId)
    | Abort(sid: SessionId)

  const INITIAL: State := State(Tables(map[], map[], map[], map[]), map[], {}, map[])

  function HistoryOf(s: State, event: EventId): seq<Entry> {
    if event in s.history then s.history[event] else []
  }

  /** The job rows a session has locked. */
  function Held(session: Session): set<JobId> {
    match session
    case Claiming(ids, _) => set j | j in ids
    case Recovering(ids, _) => set j | j in ids
    case Replaying(id, _) => {id}
    case Written(ByWorker(id, _, _), _, _, _) => {id}
    case _ => {}
  }

  function Locked(s: State): set<JobId> {
    set sid, j | sid in s.sessions && j in Held(s.sessions[sid]) :: j
  }

  /** Whether a session holds an uncommitted attempt row under this unique key. */
  predicate HoldsNumber(session: Session, event: EventId, number: int) {
    (session.Inserted? || session.Written?) && session.event == event && session.attempt.number == number
  }

  function Opened(s: State, sid: SessionId, session: Session): State {
    s.(sessions := s.sessions[sid := session], spent := s.spent + {sid})
  }

  function Moved(s: State, sid: SessionId, session: Session): State {
    s.(sessions := s.sessions[sid := session])
  }

  function Closed(s: State, sid: SessionId): State {
    s.(sessions := s.sessions - {sid})
  }

  function WithJobs(s: State, jobs: Jobs): State {
    s.(tables := s.tables.(jobs := jobs))
  }

  function Logged(s: State, event: EventId, entry: Entry): State {
    s.(history := s.history[event := HistoryOf(s, event) + [entry]])
  }

  function WithAttempt(s: State, event: EventId, a: Attempt): State {
    s.(tables := s.tables.(attempts := s.tables.attempts[event := AttemptsOf(s.tables, event) + [a]]))
  }

  function WorkerDeliveries(h: seq<Entry>): nat {
    if h == [] then 0
    else WorkerDeliveries(h[..|h| - 1]) + if h[|h| - 1].Delivered? && h[|h| - 1].byWorker then 1 else 0
  }

  // ---------------------------------------------------------------- statements

  function DoIngest(s: State, event: EventId, id: JobId, endpoint: EndpointId, now: int): Option<State> {
    var t := s.tables;
    if event in t.events || id in t.jobs || endpoint !in t.endpoints then None
    else Some(s.(tables := Tables(t.endpoints, t.events[event := endpoint], t.jobs[id := NewJob(event, now)],
                                  t.attempts[event := []]),
                 history := s.history[event := []]))
  }

  function DoClaim(s: State, sid: SessionId, at: int, limit: nat): Option<State> {
    if sid in s.spent || limit < 1 then None
    else Some(Opened(s, sid, Claiming(DueJobs(s.tables.jobs, Locked(s), at, limit), at)))
  }

  function DoRecover(s: State, sid: SessionId, before: int, at: int, limit: nat): Option<State> {
    if sid in s.spent || limit < 1 || at < before then None
    else Some(Opened(s, sid, Recovering(StaleJobs(s.tables.jobs, Locked(s), before, limit), at)))
  }

  /** FOR UPDATE without SKIP LOCKED waits: the step is possible only once the row is free. */
  function DoReplay(s: State, sid: SessionId, event: EventId, id: JobId, at: int): Option<State> {
    if sid in s.spent || !Deliverable(s.tables, event) then None
    else if id !in s.tables.jobs || s.tables.jobs[id].event != event then None
    else if id in Locked(s) || Active(s.tables.jobs[id].status) then None
    else Some(Opened(s, sid, Replaying(id, at)))
  }

  function DoLoadJob(s: State, sid: SessionId, id: JobId): Option<State> {
    if sid in s.spent || id !in s.tables.jobs || !s.tables.jobs[id].status.Processing? then None
    else
      var job := s.tables.jobs[id];
      Some(Opened(s, sid, Loaded(id, job, WorkerDeliveries(HistoryOf(s, job.event)))))
  }

  function DoReadMaximum(s: State, sid: SessionId): Option<State> {
    if sid !in s.sessions || !s.sessions[sid].Loaded? then None
    else
      var session := s.sessions[sid];
      var event := session.job.event;
      if !Deliverable(s.tables, event) then None
      else Some(Moved(s, sid, Numbered(ByWorker(session.id, session.job, session.seen), event,
                                       NextNumber(AttemptsOf(s.tables, event)))))
  }

  function DoStartManual(s: State, sid: SessionId, event: EventId): Option<State> {
    if sid in s.spent || !Deliverable(s.tables, event) then None
    else Some(Opened(s, sid, Numbered(ByHand, event, NextNumber(AttemptsOf(s.tables, event)))))
  }

  /** A number that is committed fails the statement; one that another session holds makes it wait. */
  function DoInsert(s: State, sid: SessionId, post: Post, startedNs: int, finishedNs: int,
                    attemptedAt: int): Option<State> {
    if sid !in s.sessions || !s.sessions[sid].Numbered? then None
    else
      var session := s.sessions[sid];
      var a := RecordAttempt(session.number, post, DurationMs(startedNs, finishedNs), attemptedAt);
      if a.None? || !AttemptChecks(a.value) then None
      else if NumberTaken(AttemptsOf(s.tables, session.event), session.number) then None
      else if exists other | other in s.sessions :: HoldsNumber(s.sessions[other], session.event, session.number)
      then None
      else Some(Moved(s, sid, Inserted(session.source, session.event, a.value)))
  }

  function DoWriteJob(cfg: Settings, s: State, sid: SessionId, decisionAt: int): Option<State>
    requires ValidSettings(cfg)
  {
    if sid !in s.sessions || !s.sessions[sid].Inserted? || !s.sessions[sid].source.ByWorker? then None
    else
      var session := s.sessions[sid];
      var id, loaded := session.source.id, session.source.loaded;
      if id !in s.tables.jobs || id in Locked(s) then None
      else
        var d := DecideRetry(session.attempt.outcome, loaded.attemptCount + 1, decisionAt,
                             cfg.maxAttempts, cfg.baseDelay, cfg.maxDelay, cfg.rounding);
        if d.Err? then None
        else
          var row := Flushed(s.tables.jobs[id], loaded, CompletedRow(loaded, d.value, decisionAt));
          if !JobChecks(row) then None
          else Some(Moved(s, sid, Written(session.source, session.event, session.attempt, row)))
  }

  function DoCommit(s: State, sid: SessionId): Option<State> {
    if sid !in s.sessions then None
    else
      var session := s.sessions[sid];
      var jobs := s.tables.jobs;
      match session
      case Claiming(ids, at) => Some(WithJobs(Closed(s, sid), ClaimedJobs(jobs, ids, at)))
      case Recovering(ids, at) => Some(WithJobs(Closed(s, sid), RecoveredJobs(jobs, ids, at)))
      case Replaying(id, at) =>
        if id !in jobs then None
        else Some(Logged(WithJobs(Closed(s, sid), jobs[id := ReplayedRow(jobs[id], at)]), jobs[id].event, Replayed))
      case Inserted(ByHand, event, a) =>
        Some(Logged(WithAttempt(Closed(s, sid), event, a), event, Delivered(false, a.outcome)))
      case Written(ByWorker(id, _, _), event, a, row) =>
        Some(Logged(WithJobs(WithAttempt(Closed(s, sid), event, a), jobs[id := row]), event,
                    Delivered(true, a.outcome)))
      case _ => None
  }

  /** The state after one step; None when the step is not possible there. */
  function Next(cfg: Settings, s: State, step: Step): Option<State>
    requires ValidSettings(cfg)
  {
    match step
    case AddEndpoint(endpoint) =>
      if endpoint in s.tables.endpoints then None
      else Some(s.(tables := s.tables.(endpoints := s.tables.endpoints[endpoint := true])))
    case SetActive(endpoint, active) =>
      if endpoint !in s.tables.endpoints then None
      else Some(s.(tables := s.tables.(endpoints := s.tables.endpoints[endpoint := active])))
    case Ingest(event, id, endpoint, now) => DoIngest(s, event, id, endpoint, now)
    case Claim(sid, at, limit) => DoClaim(s, sid, at, limit)
    case Recover(sid, before, at, limit) => DoRecover(s, sid, before, at, limit)
    case Replay(sid, event, id, at) => DoReplay(s, sid, event, id, at)
    case LoadJob(sid, id) => DoLoadJob(s, sid, id)
    case ReadMaximum(sid) => DoReadMaximum(s, sid)
    case StartManual(sid, event) => DoStartManual(s, sid, event)
    case Insert(sid, post, startedNs, finishedNs, attemptedAt) =>
      DoInsert(s, sid, post, startedNs, finishedNs, attemptedAt)
    case WriteJob(sid, decisionAt) => DoWriteJob(cfg, s, sid, decisionAt)
    case Commit(sid) => DoCommit(s, sid)
    case Abort(sid) => if sid in s.sessions then Some(Closed(s, sid)) else None
  }

  /** The state a sequence of steps reaches from empty tables; None when it is not a run. */
  function Execute(cfg: Settings, steps: seq<Step>): Option<State>
    requires ValidSettings(cfg)
  {
    if steps == [] then Some(INITIAL)
    else
      var before := Execute(cfg, steps[..|steps| - 1]);
      if before.None? then None else Next(cfg, before.value, steps[|steps| - 1])
  }

  predicate IsRun(cfg: Settings, steps: seq<Step>)
    requires ValidSettings(cfg)
  {
    Execute(cfg, steps).Some?
  }

  /** Every prefix of a run is a run, and its states follow by the steps. */
  lemma {:induction false} PrefixIsRun(cfg: Settings, steps: seq<Step>, n: nat)
    requires ValidSettings(cfg) && IsRun(cfg, steps) && n <= |steps|
    ensures IsRun(cfg, steps[..n])
    ensures n < |steps| ==> IsRun(cfg, steps[..n + 1])
    ensures n < |steps| ==> Execute(cfg, steps[..n + 1]) == Next(cfg, Execute(cfg, steps[..n]).value, steps[n])
    decreases |steps|
  {
    if n == |steps| {
      assert steps[..n] == steps;
    } else {
      var init := steps[..|steps| - 1];
      PrefixIsRun(cfg, init, n);
      assert init[..n] == steps[..n];
      if n < |init| {
        assert init[..n + 1] == steps[..n + 1];
      } else {
        assert steps[..n + 1] == steps;
        assert steps[..n] == init;
      }
    }
  }
}
