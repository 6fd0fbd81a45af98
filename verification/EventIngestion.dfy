/**
 Idempotent event ingestion (event_service.py) as interleaved sessions.  The two lookups of one resolve,
 the savepoint, the flush of the event, the flush of its job, the unwinding of a failed flush and the
 commit are separate steps, and any flush may fail.  What a session has flushed is pending until it commits.
 */
module EventIngestion {
  import opened Wrappers
  import opened DeliveryTables
  import opened IdempotencyKey

  /** A JSONB document; equality of documents ignores key order, as the database's does. */
  datatype Json =
    | JNull | JBool(b: bool) | JNumber(n: real) | JText(s: string)
    | JArray(items: seq<Json>) | JObject(fields: map<string, Json>)

  datatype Request = Request(eventType: string, payload: Json)

  datatype EventRow = EventRow(endpoint: EndpointId, request: Request, key: Option<string>)

  datatype Store = Store(events: map<EventId, EventRow>, jobs: map<JobId, Job>)

  /** Rows flushed and not committed; the event row itself is the session's. */
  datatype Pending = Nothing | EventOnly(event: EventId, now: int) | EventAndJob(event: EventId, job: JobId, now: int)

  /** The violation the service resolves, and any other error of a flush, which it lets through. */
  datatype Violation = KeyTaken | OtherError

  datatype Verdict = Created(event: EventId) | Reused(event: EventId) | Conflict | Reraised | Failed

  /** Violated is a transaction whose last statement failed: it accepts nothing until it is unwound. */
  datatype Phase =
    | BeforeEquivalent(again: bool)
    | BeforeScoped(again: bool)
    | BeforeInsert
    | BeforeJob
    | Violated(violation: Violation)
    | Flushed
    | Answered(verdict: Verdict)

  /** savepoint is what was pending when the savepoint was set. */
  datatype Session = Session(row: EventRow, phase: Phase, pending: Pending, savepoint: Option<Pending>)

  datatype State = State(endpoints: set<EndpointId>, store: Store, sessions: map<int, Session>, spent: set<int>)

  datatype Step =
    | AddEndpoint(endpoint: EndpointId)
    | Start(sid: int, endpoint: EndpointId, request: Request, rawKey: Option<string>)
    | LookupEquivalent(sid: int)
    | LookupScoped(sid: int)
    | SetSavepoint(sid: int)
    | InsertEvent(sid: int, event: EventId, now: int)
    | InsertJob(sid: int, job: JobId)
    | FailFlush(sid: int)
    | Unwind(sid: int)
    | Commit(sid: int)
    | Abort(sid: int)

  const INITIAL: State := State({}, Store(map[], map[]), map[], {})

  predicate SameKey(a: EventRow, b: EventRow) {
    a.key.Some? && a.endpoint == b.endpoint && a.key == b.key
  }

  predicate Equivalent(a: EventRow, b: EventRow) {
    SameKey(a, b) && a.request == b.request
  }

  predicate EventHeld(s: State, event: EventId) {
    exists other | other in s.sessions ::
      s.sessions[other].pending != Nothing && s.sessions[other].pending.event == event
  }

  predicate KeyHeld(s: State, row: EventRow) {
    exists other | other in s.sessions ::
      s.sessions[other].pending != Nothing && SameKey(s.sessions[other].row, row)
  }

  predicate JobHeld(s: State, job: JobId) {
    exists other | other in s.sessions ::
      s.sessions[other].pending.EventAndJob? && s.sessions[other].pending.job == job
  }

  function Changed(s: State, sid: int, session: Session): State {
    s.(sessions := s.sessions[sid := session])
  }

  function Moved(s: State, sid: int, phase: Phase): State
    requires sid in s.sessions
  {
    Changed(s, sid, s.sessions[sid].(phase := phase))
  }

  function Added(store: Store, event: EventId, row: EventRow, job: JobId, now: int): Store {
    Store(store.events[event := row], store.jobs[job := NewJob(event, now)])
  }

  /** SELECT ... WHERE endpoint, key, event_type and payload match. */
  function EquivalentEvents(store: Store, row: EventRow): (found: set<EventId>)
    ensures forall e :: e in found <==> e in store.events && Equivalent(store.events[e], row)
  {
    set e | e in store.events && Equivalent(store.events[e], row)
  }

  /** SELECT ... WHERE endpoint and key match. */
  function ScopedEvents(store: Store, row: EventRow): (found: set<EventId>)
    ensures forall e :: e in found <==> e in store.events && SameKey(store.events[e], row)
  {
    set e | e in store.events && SameKey(store.events[e], row)
  }

  lemma Pick<T>(found: set<T>) returns (e: T)
    requires found != {}
    ensures e in found
  {
    e :| e in found;
  }

  lemma SingletonMember(found: set<EventId>)
    requires |found| == 1
    ensures exists e :: e in found && found == {e}
  {
    var e := Pick(found);
    assert |found - {e}| == 0;
    assert found == {e};
  }

  function DoStart(s: State, sid: int, endpoint: EndpointId, request: Request, rawKey: Option<string>): Option<State> {
    var key := NormalizeKey(rawKey);
    if sid in s.spent || key.Err? || endpoint !in s.endpoints then None
    else
      var phase := if key.value.None? then BeforeInsert else BeforeEquivalent(false);
      var session := Session(EventRow(endpoint, request, key.value), phase, Nothing, None);
      Some(Changed(s, sid, session).(spent := s.spent + {sid}))
  }

  function DoLookupEquivalent(s: State, sid: int): Option<State> {
    if sid !in s.sessions || !s.sessions[sid].phase.BeforeEquivalent? then None
    else
      var session := s.sessions[sid];
      var found := EquivalentEvents(s.store, session.row);
      if found == {} then Some(Moved(s, sid, BeforeScoped(session.phase.again)))
      else if |found| > 1 then None // one_or_none raises
      else
        SingletonMember(found);
        var e :| e in found && found == {e};
        Some(Moved(s, sid, Answered(Reused(e))))
  }

  /** The second resolve re-raises the violation when it finds no winner. */
  function DoLookupScoped(s: State, sid: int): Option<State> {
    if sid !in s.sessions || !s.sessions[sid].phase.BeforeScoped? then None
    else
      var session := s.sessions[sid];
      var found := ScopedEvents(s.store, session.row);
      if |found| > 1 then None // one_or_none raises
      else if found != {} then Some(Moved(s, sid, Answered(Conflict)))
      else if session.phase.again then Some(Moved(s, sid, Answered(Reraised)))
      else Some(Moved(s, sid, BeforeInsert))
  }

  /** The start of begin_nested. */
  function DoSetSavepoint(s: State, sid: int): Option<State> {
    if sid !in s.sessions || !s.sessions[sid].phase.BeforeInsert? || s.sessions[sid].savepoint.Some? then None
    else if s.sessions[sid].row.key.None? then None
    else Some(Changed(s, sid, s.sessions[sid].(savepoint := Some(s.sessions[sid].pending))))
  }

  predicate MayInsert(s: State, sid: int) {
    && sid in s.sessions && s.sessions[sid].phase.BeforeInsert?
    && (s.sessions[sid].row.key.Some? ==> s.sessions[sid].savepoint.Some?)
  }

  /** A committed identifier or key fails the statement; one that another session holds makes it wait. */
  function DoInsertEvent(s: State, sid: int, event: EventId, now: int): Option<State> {
    if !MayInsert(s, sid) then None
    else
      var session := s.sessions[sid];
      if event in s.store.events then Some(Moved(s, sid, Violated(OtherError)))
      else if EventHeld(s, event) then None
      else if ScopedEvents(s.store, session.row) != {} then Some(Moved(s, sid, Violated(KeyTaken)))
      else if KeyHeld(s, session.row) then None
      else Some(Changed(s, sid, session.(phase := BeforeJob, pending := EventOnly(event, now))))
  }

  /** The job's flush ends the savepoint when it succeeds. */
  function DoInsertJob(s: State, sid: int, job: JobId): Option<State> {
    if sid !in s.sessions || !s.sessions[sid].phase.BeforeJob? || !s.sessions[sid].pending.EventOnly? then None
    else
      var session := s.sessions[sid];
      var EventOnly(event, now) := session.pending;
      if job in s.store.jobs then Some(Moved(s, sid, Violated(OtherError)))
      else if JobHeld(s, job) then None
      else Some(Changed(s, sid, session.(phase := Flushed, pending := EventAndJob(event, job, now), savepoint := None)))
  }

  /** Any other error of either flush. */
  function DoFailFlush(s: State, sid: int): Option<State> {
    if !MayInsert(s, sid) && !(sid in s.sessions && s.sessions[sid].phase.BeforeJob?) then None
    else Some(Moved(s, sid, Violated(OtherError)))
  }

  /**
   What a failed flush leads to.  Under a savepoint, what was pending there is pending again, and a taken key is
   resolved once more.  Without one nothing is undone here: the transaction stays failed until the caller ends it.
   */
  function DoUnwind(s: State, sid: int): Option<State> {
    if sid !in s.sessions || !s.sessions[sid].phase.Violated? then None
    else
      var session := s.sessions[sid];
      match session.savepoint
      case Some(pending) =>
        var phase := if session.phase.violation.KeyTaken? then BeforeEquivalent(true) else Answered(Failed);
        Some(Changed(s, sid, session.(phase := phase, pending := pending, savepoint := None)))
      case None => Some(Moved(s, sid, Answered(Failed)))
  }

  function DoCommit(s: State, sid: int): Option<State> {
    if sid !in s.sessions || !s.sessions[sid].phase.Flushed? || !s.sessions[sid].pending.EventAndJob? then None
    else
      var session := s.sessions[sid];
      var EventAndJob(event, job, now) := session.pending;
      Some(Changed(s, sid, session.(phase := Answered(Created(event)), pending := Nothing))
           .(store := Added(s.store, event, session.row, job, now)))
  }

  function Next(s: State, step: Step): Option<State> {
    match step
    case AddEndpoint(endpoint) => Some(s.(endpoints := s.endpoints + {endpoint}))
    case Start(sid, endpoint, request, rawKey) => DoStart(s, sid, endpoint, request, rawKey)
    case LookupEquivalent(sid) => DoLookupEquivalent(s, sid)
    case LookupScoped(sid) => DoLookupScoped(s, sid)
    case SetSavepoint(sid) => DoSetSavepoint(s, sid)
    case InsertEvent(sid, event, now) => DoInsertEvent(s, sid, event, now)
    case InsertJob(sid, job) => DoInsertJob(s, sid, job)
    case FailFlush(sid) => DoFailFlush(s, sid)
    case Unwind(sid) => DoUnwind(s, sid)
    case Commit(sid) => DoCommit(s, sid)
    case Abort(sid) => if sid in s.sessions then Some(s.(sessions := s.sessions - {sid})) else None
  }

  function Execute(steps: seq<Step>): Option<State> {
    if steps == [] then Some(INITIAL)
    else
      var before := Execute(steps[..|steps| - 1]);
      if before.None? then None else Next(before.value, steps[|steps| - 1])
  }

  predicate IsRun(steps: seq<Step>) {
    Execute(steps).Some?
  }

  // ---------------------------------------------------------------- what every step keeps

  ghost predicate UniqueKeys(events: map<EventId, EventRow>) {
    forall a, b | a in events && b in events && SameKey(events[a], events[b]) :: a == b
  }

  /** Each event has exactly one job, made with it: pending, due at once, nothing spent. */
  ghost predicate Paired(store: Store) {
    && (forall e | e in store.events :: exists j :: j in store.jobs && store.jobs[j].event == e)
    && (forall j | j in store.jobs :: store.jobs[j].event in store.events)
    && (forall j, k | j in store.jobs && k in store.jobs && store.jobs[j].event == store.jobs[k].event :: j == k)
    && (forall j | j in store.jobs ::
          var job := store.jobs[j];
          job == Job(job.event, Pending, Some(job.createdAt), 0, job.createdAt, job.createdAt))
  }

  ghost predicate KeyBound(store: Store, row: EventRow) {
    exists e :: e in store.events && SameKey(store.events[e], row)
  }

  ghost predicate EquivalentStored(store: Store, row: EventRow) {
    exists e :: e in store.events && Equivalent(store.events[e], row)
  }

  /** What the savepoint of a keyed insert saves: nothing is pending before it. */
  function Guard(row: EventRow): Option<Pending> {
    if row.key.Some? then Some(Nothing) else None
  }

  ghost predicate PhaseOk(s: State, session: Session) {
    match session.phase
    case BeforeEquivalent(again) =>
      && session.row.key.Some? && session.pending == Nothing && session.savepoint == None
      && (again ==> KeyBound(s.store, session.row))
    case BeforeScoped(again) =>
      && session.row.key.Some? && session.pending == Nothing && session.savepoint == None
      && (again ==> KeyBound(s.store, session.row) && !EquivalentStored(s.store, session.row))
    case BeforeInsert =>
      session.pending == Nothing && (session.savepoint == None || session.savepoint == Guard(session.row))
    case BeforeJob => session.pending.EventOnly? && session.savepoint == Guard(session.row)
    case Violated(violation) =>
      && !session.pending.EventAndJob? && session.savepoint == Guard(session.row)
      && (violation.KeyTaken? ==> session.pending == Nothing && KeyBound(s.store, session.row))
    case Flushed => session.pending.EventAndJob? && session.savepoint == None
    case Answered(verdict) =>
      && verdict != Reraised && session.savepoint == None && !session.pending.EventAndJob?
      && (session.pending != Nothing ==> verdict == Failed && session.row.key == None)
  }

  /** What is pending is not committed yet, and its key is free. */
  ghost predicate PendingOk(store: Store, session: Session) {
    && (session.pending != Nothing ==> session.pending.event !in store.events && !KeyBound(store, session.row))
    && (session.pending.EventAndJob? ==> session.pending.job !in store.jobs)
  }

  ghost predicate SessionOk(s: State, session: Session) {
    PhaseOk(s, session) && PendingOk(s.store, session)
  }

  /** Two sessions never have the same identifier or key pending. */
  ghost predicate Apart(a: Session, b: Session) {
    a.pending != Nothing && b.pending != Nothing ==>
      && a.pending.event != b.pending.event && !SameKey(a.row, b.row)
      && (a.pending.EventAndJob? && b.pending.EventAndJob? ==> a.pending.job != b.pending.job)
  }

  ghost predicate Inv(s: State) {
    && UniqueKeys(s.store.events) && Paired(s.store)
    && (forall sid | sid in s.sessions :: sid in s.spent && SessionOk(s, s.sessions[sid]))
    && (forall a, b | a in s.sessions && b in s.sessions && a != b :: Apart(s.sessions[a], s.sessions[b]))
  }

  lemma AtMostOne(events: map<EventId, EventRow>, row: EventRow, found: set<EventId>)
    requires UniqueKeys(events)
    requires forall e :: e in found ==> e in events && SameKey(events[e], row)
    ensures |found| <= 1
  {
    if found != {} {
      var e := Pick(found);
      forall f | f in found ensures f == e {
        assert SameKey(events[f], events[e]);
      }
      assert found == {e};
    }
  }

  /** Replacing one session by one that is right for the store and apart from the others. */
  lemma ChangingKeeps(s: State, sid: int, session: Session)
    requires Inv(s) && sid in s.spent && SessionOk(s, session)
    requires forall other | other in s.sessions && other != sid ::
            Apart(session, s.sessions[other]) && Apart(s.sessions[other], session)
    ensures Inv(Changed(s, sid, session))
  {
    var n := Changed(s, sid, session);
    forall other | other in n.sessions ensures other in n.spent && SessionOk(n, n.sessions[other]) {
      if other != sid { assert SessionOk(s, s.sessions[other]); }
    }
  }

  /** A session that has nothing more pending than before stays apart from the others. */
  lemma MovingKeeps(s: State, sid: int, session: Session)
    requires Inv(s) && sid in s.sessions && SessionOk(s, session)
    requires session.row == s.sessions[sid].row
    requires session.pending == Nothing || session.pending == s.sessions[sid].pending
    ensures Inv(Changed(s, sid, session))
  {
    forall other | other in s.sessions && other != sid
      ensures Apart(session, s.sessions[other]) && Apart(s.sessions[other], session)
    {
      assert Apart(s.sessions[sid], s.sessions[other]) && Apart(s.sessions[other], s.sessions[sid]);
    }
    ChangingKeeps(s, sid, session);
  }

  lemma LookupEquivalentKeeps(s: State, sid: int)
    requires Inv(s) && sid in s.sessions && s.sessions[sid].phase.BeforeEquivalent?
    ensures DoLookupEquivalent(s, sid).Some? && Inv(DoLookupEquivalent(s, sid).value)
    ensures var phase := DoLookupEquivalent(s, sid).value.sessions[sid].phase;
            if EquivalentStored(s.store, s.sessions[sid].row)
            then phase.Answered? && phase.verdict.Reused? && phase.verdict.event in s.store.events
                 && Equivalent(s.store.events[phase.verdict.event], s.sessions[sid].row)
            else phase == BeforeScoped(s.sessions[sid].phase.again)
  {
    var session := s.sessions[sid];
    assert SessionOk(s, session);
    var found := EquivalentEvents(s.store, session.row);
    AtMostOne(s.store.events, session.row, found);
    if found != {} {
      var e := Pick(found);
      assert EquivalentStored(s.store, session.row);
    }
    MovingKeeps(s, sid, DoLookupEquivalent(s, sid).value.sessions[sid]);
  }

  /** The second resolve of a violated insert cannot find nothing: the re-raise is unreachable. */
  lemma LookupScopedKeeps(s: State, sid: int)
    requires Inv(s) && sid in s.sessions && s.sessions[sid].phase.BeforeScoped?
    ensures DoLookupScoped(s, sid).Some? && Inv(DoLookupScoped(s, sid).value)
    ensures DoLookupScoped(s, sid).value.sessions[sid].phase
              == if KeyBound(s.store, s.sessions[sid].row) then Answered(Conflict) else BeforeInsert
    ensures s.sessions[sid].phase.again ==>
              KeyBound(s.store, s.sessions[sid].row) && !EquivalentStored(s.store, s.sessions[sid].row)
  {
    var session := s.sessions[sid];
    assert SessionOk(s, session);
    var found := ScopedEvents(s.store, session.row);
    AtMostOne(s.store.events, session.row, found);
    if KeyBound(s.store, session.row) {
      var e :| e in s.store.events && SameKey(s.store.events[e], session.row);
      assert e in found;
    } else {
      assert forall e :: e !in found;
    }
    MovingKeeps(s, sid, DoLookupScoped(s, sid).value.sessions[sid]);
  }

  /** The event's flush: a taken key fails it, and otherwise the event alone is pending. */
  lemma InsertEventKeeps(s: State, sid: int, event: EventId, now: int)
    requires Inv(s) && DoInsertEvent(s, sid, event, now).Some?
    ensures Inv(DoInsertEvent(s, sid, event, now).value)
    ensures var n := DoInsertEvent(s, sid, event, now).value.sessions[sid];
            if event in s.store.events then n.phase == Violated(OtherError) && n.pending == Nothing
            else if KeyBound(s.store, s.sessions[sid].row) then n.phase == Violated(KeyTaken) && n.pending == Nothing
            else n.phase == BeforeJob && n.pending == EventOnly(event, now)
  {
    var session := s.sessions[sid];
    assert SessionOk(s, session);
    ScopedMeansBound(s.store, session.row);
    var n := DoInsertEvent(s, sid, event, now).value.sessions[sid];
    if n.phase.BeforeJob? {
      forall other | other in s.sessions && other != sid
        ensures Apart(n, s.sessions[other]) && Apart(s.sessions[other], n)
      {
        if s.sessions[other].pending != Nothing {
          assert s.sessions[other].pending.event != event && !SameKey(s.sessions[other].row, session.row);
        }
      }
      ChangingKeeps(s, sid, n);
    } else {
      MovingKeeps(s, sid, n);
    }
  }

  lemma ScopedMeansBound(store: Store, row: EventRow)
    ensures ScopedEvents(store, row) != {} <==> KeyBound(store, row)
    ensures row.key.None? ==> !KeyBound(store, row)
  {
    var found := ScopedEvents(store, row);
    if found != {} {
      var e := Pick(found);
      assert KeyBound(store, row);
    } else {
      assert forall e :: e !in found;
    }
  }

  /** The job's flush: a failure leaves the event pending, and success makes the two pending together. */
  lemma InsertJobKeeps(s: State, sid: int, job: JobId)
    requires Inv(s) && DoInsertJob(s, sid, job).Some?
    ensures Inv(DoInsertJob(s, sid, job).value)
    ensures var was, n := s.sessions[sid].pending, DoInsertJob(s, sid, job).value.sessions[sid];
            if job in s.store.jobs then n.phase == Violated(OtherError) && n.pending == was
            else n.phase == Flushed && n.pending == EventAndJob(was.event, job, was.now)
  {
    var session := s.sessions[sid];
    assert SessionOk(s, session);
    var n := DoInsertJob(s, sid, job).value.sessions[sid];
    if n.phase.Flushed? {
      forall other | other in s.sessions && other != sid
        ensures Apart(n, s.sessions[other]) && Apart(s.sessions[other], n)
      {
        assert Apart(session, s.sessions[other]) && Apart(s.sessions[other], session);
        if s.sessions[other].pending.EventAndJob? { assert s.sessions[other].pending.job != job; }
      }
      ChangingKeeps(s, sid, n);
    } else {
      MovingKeeps(s, sid, n);
    }
  }

  /**
   Unwinding a failed flush of a keyed request leaves neither event nor job behind, whichever flush failed.  An
   unkeyed request keeps what it had flushed, in a transaction that has failed for good and cannot commit.
   */
  lemma UnwindKeeps(s: State, sid: int)
    requires Inv(s) && DoUnwind(s, sid).Some?
    ensures Inv(DoUnwind(s, sid).value) && DoUnwind(s, sid).value.store == s.store
    ensures var was, n := s.sessions[sid], DoUnwind(s, sid).value.sessions[sid];
            && (was.row.key.Some? ==> n.pending == Nothing)
            && (was.row.key.None? ==> n.pending == was.pending && n.phase == Answered(Failed))
            && n.phase == if was.phase.violation.KeyTaken? then BeforeEquivalent(true) else Answered(Failed)
    ensures DoCommit(DoUnwind(s, sid).value, sid).None?
  {
    var session := s.sessions[sid];
    assert SessionOk(s, session);
    ScopedMeansBound(s.store, session.row);
    MovingKeeps(s, sid, DoUnwind(s, sid).value.sessions[sid]);
  }

  lemma AddedKeepsStore(store: Store, event: EventId, row: EventRow, job: JobId, now: int)
    requires UniqueKeys(store.events) && Paired(store)
    requires event !in store.events && job !in store.jobs && !KeyBound(store, row)
    ensures UniqueKeys(Added(store, event, row, job, now).events) && Paired(Added(store, event, row, job, now))
  {
    var n := Added(store, event, row, job, now);
    forall e | e in n.events ensures exists j :: j in n.jobs && n.jobs[j].event == e {
      if e == event {
        assert n.jobs[job].event == e;
      } else {
        var j :| j in store.jobs && store.jobs[j].event == e;
        assert n.jobs[j].event == e;
      }
    }
    forall a, b | a in n.events && b in n.events && SameKey(n.events[a], n.events[b]) ensures a == b {
    }
  }

  lemma CommitKeeps(s: State, sid: int)
    requires Inv(s) && DoCommit(s, sid).Some?
    ensures Inv(DoCommit(s, sid).value)
    ensures var EventAndJob(event, job, now) := s.sessions[sid].pending;
            && event !in s.store.events && job !in s.store.jobs
            && DoCommit(s, sid).value.store.events == s.store.events[event := s.sessions[sid].row]
            && DoCommit(s, sid).value.store.jobs == s.store.jobs[job := Job(event, Pending, Some(now), 0, now, now)]
  {
    var n := DoCommit(s, sid).value;
    var row := s.sessions[sid].row;
    var EventAndJob(event, job, now) := s.sessions[sid].pending;
    assert SessionOk(s, s.sessions[sid]);
    AddedKeepsStore(s.store, event, row, job, now);
    forall other | other in n.sessions ensures other in n.spent && SessionOk(n, n.sessions[other]) {
      if other != sid {
        assert SessionOk(s, s.sessions[other]) && Apart(s.sessions[other], s.sessions[sid]);
        StoreGrowth(s, n, s.sessions[other], event, row);
      }
    }
  }

  lemma StoreGrowth(s: State, n: State, session: Session, event: EventId, row: EventRow)
    requires SessionOk(s, session) && event !in s.store.events && n.store.events == s.store.events[event := row]
    requires UniqueKeys(n.store.events)
    requires session.pending != Nothing ==> !SameKey(session.row, row) && session.pending.event != event
    requires session.pending.EventAndJob? ==> session.pending.job !in n.store.jobs
    ensures SessionOk(n, session)
  {
    if KeyBound(s.store, session.row) {
      var e :| e in s.store.events && SameKey(s.store.events[e], session.row);
      assert e in n.store.events && SameKey(n.store.events[e], session.row);
      assert UniqueKeys(s.store.events) by {
        forall a, b | a in s.store.events && b in s.store.events && SameKey(s.store.events[a], s.store.events[b])
          ensures a == b
        {
          assert SameKey(n.store.events[a], n.store.events[b]);
        }
      }
      BinderDecides(s.store, session.row, e);
      BinderDecides(n.store, session.row, e);
    }
  }

  /** The one event bound to a key decides whether a request with that key is equivalent. */
  lemma BinderDecides(store: Store, row: EventRow, e: EventId)
    requires UniqueKeys(store.events) && e in store.events && SameKey(store.events[e], row)
    ensures KeyBound(store, row)
    ensures EquivalentStored(store, row) <==> store.events[e].request == row.request
  {
    if EquivalentStored(store, row) {
      var f :| f in store.events && Equivalent(store.events[f], row);
      assert SameKey(store.events[f], store.events[e]);
    } else {
      assert !Equivalent(store.events[e], row);
    }
  }

  lemma StepKeeps(s: State, step: Step)
    requires Inv(s) && Next(s, step).Some?
    ensures Inv(Next(s, step).value)
  {
    match step {
      case LookupEquivalent(sid) => LookupEquivalentKeeps(s, sid);
      case LookupScoped(sid) => LookupScopedKeeps(s, sid);
      case InsertEvent(sid, event, now) => InsertEventKeeps(s, sid, event, now);
      case InsertJob(sid, job) => InsertJobKeeps(s, sid, job);
      case Unwind(sid) => UnwindKeeps(s, sid);
      case Commit(sid) => CommitKeeps(s, sid);
      case _ => PlainStepKeeps(s, step);
    }
  }

  lemma PlainStepKeeps(s: State, step: Step)
    requires Inv(s) && Next(s, step).Some?
    requires step.AddEndpoint? || step.Start? || step.SetSavepoint? || step.FailFlush? || step.Abort?
    ensures Inv(Next(s, step).value)
  {
    var n := Next(s, step).value;
    forall sid | sid in n.sessions ensures sid in n.spent && SessionOk(n, n.sessions[sid]) {
      if sid in s.sessions { assert SessionOk(s, s.sessions[sid]); }
    }
    forall a, b | a in n.sessions && b in n.sessions && a != b ensures Apart(n.sessions[a], n.sessions[b]) {
      if a in s.sessions && b in s.sessions { assert Apart(s.sessions[a], s.sessions[b]); }
    }
  }

  lemma {:induction false} RunsKeepInv(steps: seq<Step>)
    requires IsRun(steps)
    ensures Inv(Execute(steps).value)
    decreases |steps|
  {
    if steps != [] {
      RunsKeepInv(steps[..|steps| - 1]);
      StepKeeps(Execute(steps[..|steps| - 1]).value, steps[|steps| - 1]);
    }
  }

  /**
   In every reachable state: at most one event per key, one fresh job per event, never a re-raise, and nothing
   pending behind an answer, except behind the failure of an unkeyed request.
   */
  lemma IngestionIsSafe(steps: seq<Step>)
    requires IsRun(steps)
    ensures var s := Execute(steps).value;
            && UniqueKeys(s.store.events) && Paired(s.store)
            && (forall sid | sid in s.sessions :: s.sessions[sid].phase != Answered(Reraised))
            && (forall sid | sid in s.sessions && s.sessions[sid].phase.Answered? && s.sessions[sid].pending != Nothing
                ::
                  s.sessions[sid].phase == Answered(Failed) && s.sessions[sid].row.key.None?)
  {
    RunsKeepInv(steps);
    var s := Execute(steps).value;
    forall sid | sid in s.sessions ensures SessionOk(s, s.sessions[sid]) {
    }
  }
}
