/**
 create_idempotent_webhook_event_with_delivery_job and its route as one session runs them, while other sessions
 take any steps before each of its statements.

 The trace lists what all sessions have done since the tables were empty, this one included.  Every statement
 here adds the step of EventIngestion that it is, so what is proved of the runs of EventIngestion holds of it.
 */
module EventIngestionSession {
  import opened Wrappers
  import opened DeliveryTables
  import opened IdempotencyKey
  import opened EventIngestion

  datatype CreationError =
    | InvalidKey(error: KeyError) | EndpointNotFound | IdempotencyConflict | MissingWinner | OtherInsertError

  datatype Creation = Creation(event: EventId, created: bool)

  datatype FlushOutcome = Done | Refused(violation: Violation)

  /** Which of the two flushes the database refuses for a reason of its own. */
  datatype Faults = Faults(eventFlush: bool, jobFlush: bool)

  const NO_FAULTS := Faults(false, false)

  /** Other sessions only add committed rows. */
  ghost predicate Grown(was: Store, now: Store) {
    && (forall e | e in was.events :: e in now.events && now.events[e] == was.events[e])
    && (forall j | j in was.jobs :: j in now.jobs && now.jobs[j] == was.jobs[j])
  }

  /** The transaction accepts no statement but its unwinding or its end. */
  predicate HasFailed(row: EventRow, phase: Phase) {
    phase.Violated? || (phase == Answered(Failed) && row.key.None?)
  }

  class IngestionSession {
    const sid: int
    var endpoints: set<EndpointId>
    var committed: Store
    var pending: Pending
    var savepoint: Option<Pending>
    var failed: bool
    ghost var trace: seq<Step>

    ghost function World(): State
      requires IsRun(trace)
      reads this
    {
      Execute(trace).value
    }

    ghost predicate Shared()
      reads this
    {
      IsRun(trace) && endpoints == World().endpoints && committed == World().store
    }

    /** Nothing has been sent for the request yet. */
    ghost predicate Unused()
      reads this
    {
      Shared() && sid !in World().spent && sid !in World().sessions && pending == Nothing && savepoint == None
      && !failed
    }

    /** The request is where the protocol's session is. */
    ghost predicate At(row: EventRow, phase: Phase)
      reads this
    {
      && Shared() && sid in World().sessions
      && World().sessions[sid] == Session(row, phase, pending, savepoint)
      && failed == HasFailed(row, phase)
    }

    constructor (sid: int, endpoints: set<EndpointId>, committed: Store, ghost trace: seq<Step>)
      requires IsRun(trace) && sid !in Execute(trace).value.spent && sid !in Execute(trace).value.sessions
      requires endpoints == Execute(trace).value.endpoints && committed == Execute(trace).value.store
      ensures Unused() && this.sid == sid && this.trace == trace
    {
      this.sid, this.endpoints, this.committed, this.trace := sid, endpoints, committed, trace;
      pending, savepoint, failed := Nothing, None, false;
    }

    /** Any steps of other sessions; callers know only the contract. */
    method Interfere()
      requires Shared()
      modifies this`endpoints, this`committed, this`trace
      ensures Shared() && old(trace) <= trace && Grown(old(committed), committed)
      ensures OwnUnchanged(sid, old(World()), World())
    {
    }

    /** Waiting until no other session has anything pending in the way of this insert. */
    method AwaitEvent(event: EventId, row: EventRow)
      requires Shared() && sid in World().sessions && World().sessions[sid].pending == Nothing
      modifies this`endpoints, this`committed, this`trace
      ensures Shared() && old(trace) <= trace && Grown(old(committed), committed)
      ensures OwnUnchanged(sid, old(World()), World())
      ensures !EventHeld(World(), event) && !KeyHeld(World(), row)
    {
      Interfere();
      trace := OthersGone(trace, sid);
    }

    method AwaitJob(job: JobId)
      requires Shared() && sid in World().sessions && !World().sessions[sid].pending.EventAndJob?
      modifies this`endpoints, this`committed, this`trace
      ensures Shared() && old(trace) <= trace && Grown(old(committed), committed)
      ensures OwnUnchanged(sid, old(World()), World())
      ensures !JobHeld(World(), job)
    {
      Interfere();
      trace := OthersGone(trace, sid);
    }

    ghost method Log(step: Step)
      requires IsRun(trace) && Next(World(), step).Some?
      modifies this`trace
      ensures IsRun(trace) && trace == old(trace) + [step] && World() == Next(old(World()), step).value
    {
      assert (trace + [step])[..|trace|] == trace;
      trace := trace + [step];
    }

    method Begin(endpoint: EndpointId, request: Request, rawKey: Option<string>)
      requires Unused() && endpoint in endpoints && NormalizeKey(rawKey).Ok?
      modifies this`trace
      ensures old(trace) <= trace
      ensures var row := EventRow(endpoint, request, NormalizeKey(rawKey).value);
              At(row, if row.key.Some? then BeforeEquivalent(false) else BeforeInsert)
    {
      Log(Start(sid, endpoint, request, rawKey));
    }

    method FindEquivalent(row: EventRow, ghost again: bool) returns (found: Option<EventId>)
      requires At(row, BeforeEquivalent(again))
      modifies this`endpoints, this`committed, this`trace
      ensures old(trace) <= trace && Grown(old(committed), committed)
      ensures At(row, if found.Some? then Answered(Reused(found.value)) else BeforeScoped(again))
      ensures found.Some? <==> EquivalentStored(committed, row)
      ensures found.Some? ==> found.value in committed.events && Equivalent(committed.events[found.value], row)
    {
      Interfere();
      RunsKeepInv(trace);
      LookupEquivalentKeeps(World(), sid);
      Log(LookupEquivalent(sid));
      var events := EquivalentEvents(committed, row);
      if events == {} {
        found := None;
      } else {
        AtMostOne(committed.events, row, events);
        SingletonMember(events);
        var e: EventId :| e in events && events == {e};
        found := Some(e);
      }
    }

    method FindScoped(row: EventRow, ghost again: bool) returns (found: bool)
      requires At(row, BeforeScoped(again))
      modifies this`endpoints, this`committed, this`trace
      ensures old(trace) <= trace && Grown(old(committed), committed)
      ensures At(row, if found then Answered(Conflict) else BeforeInsert)
      ensures found <==> KeyBound(committed, row)
      ensures again ==> found && !EquivalentStored(committed, row)
    {
      Interfere();
      RunsKeepInv(trace);
      LookupScopedKeeps(World(), sid);
      ScopedMeansBound(committed, row);
      Log(LookupScoped(sid));
      found := ScopedEvents(committed, row) != {};
    }

    /** The resolve step: a reuse, a conflict, or nothing; after a violation never nothing. */
    method ResolveExisting(row: EventRow, ghost again: bool) returns (r: Result<Option<Creation>, CreationError>)
      requires At(row, BeforeEquivalent(again))
      modifies this`endpoints, this`committed, this`trace
      ensures old(trace) <= trace && Grown(old(committed), committed)
      ensures r.Ok? && r.value.Some? ==> At(row, Answered(Reused(r.value.value.event))) && !r.value.value.created
      ensures r.Ok? && r.value.Some? ==> Reusable(committed, row, r.value.value.event)
      ensures r.Ok? && r.value.None? ==> At(row, BeforeInsert) && !again && !KeyBound(old(committed), row)
      ensures r.Err? ==> r.error == IdempotencyConflict && At(row, Answered(Conflict))
      ensures r.Err? ==> KeyBound(committed, row) && !EquivalentStored(old(committed), row)
      ensures EquivalentStored(old(committed), row) ==> r.Ok? && r.value.Some?
    {
      ghost var before := committed;
      RunsKeepInv(trace);
      var equivalent := FindEquivalent(row, again);
      GrowthKeeps(trace, before, committed, row);
      if equivalent.Some? {
        return Ok(Some(Creation(equivalent.value, false)));
      }
      ghost var middle := committed;
      var scoped := FindScoped(row, again);
      GrowthKeeps(trace, middle, committed, row);
      if scoped {
        return Err(IdempotencyConflict);
      }
      return Ok(None);
    }

    method BeginNested(row: EventRow)
      requires At(row, BeforeInsert) && row.key.Some? && savepoint == None
      modifies this`savepoint, this`trace
      ensures old(trace) <= trace && At(row, BeforeInsert) && savepoint == Some(old(pending))
    {
      Log(SetSavepoint(sid));
      savepoint := Some(pending);
    }

    /** INSERT of the event: refused for its identifier, its key or a fault, else pending. */
    method FlushEvent(row: EventRow, event: EventId, now: int, fault: bool) returns (outcome: FlushOutcome)
      requires At(row, BeforeInsert) && (row.key.Some? ==> savepoint.Some?)
      modifies this`endpoints, this`committed, this`pending, this`failed, this`trace
      ensures old(trace) <= trace && Grown(old(committed), committed)
      ensures outcome == Done ==> At(row, BeforeJob) && pending == EventOnly(event, now)
      ensures outcome.Refused? ==> At(row, Violated(outcome.violation)) && pending == old(pending)
      ensures outcome == Refused(KeyTaken) <==> !fault && event !in committed.events && KeyBound(committed, row)
      ensures outcome == Refused(OtherError) <==> fault || event in committed.events
    {
      hide Inv, KeyBound, DoInsertEvent, EventHeld, KeyHeld;
      RunsKeepInv(trace);
      NothingPending(World(), sid);
      AwaitEvent(event, row);
      ScopedMeansBound(committed, row);
      FreeInsert(World(), sid, event, now);
      if fault {
        Log(FailFlush(sid));
        failed := true;
        return Refused(OtherError);
      }
      Log(InsertEvent(sid, event, now));
      if event in committed.events {
        failed := true;
        return Refused(OtherError);
      }
      if ScopedEvents(committed, row) != {} {
        failed := true;
        return Refused(KeyTaken);
      }
      pending := EventOnly(event, now);
      return Done;
    }

    /** INSERT of the job.  A refusal leaves the event pending in a failed transaction. */
    method FlushJob(row: EventRow, job: JobId, fault: bool) returns (outcome: FlushOutcome)
      requires At(row, BeforeJob) && pending.EventOnly?
      modifies this`endpoints, this`committed, this`pending, this`savepoint, this`failed, this`trace
      ensures old(trace) <= trace && Grown(old(committed), committed)
      ensures outcome == Done ==> At(row, Flushed) && pending == EventAndJob(old(pending).event, job, old(pending).now)
      ensures outcome.Refused? ==>
                At(row, Violated(OtherError)) && pending == old(pending) && savepoint == old(savepoint)
      ensures outcome.Refused? <==> fault || job in committed.jobs
      ensures outcome.Refused? ==> outcome.violation == OtherError
    {
      AwaitJob(job);
      if fault {
        Log(FailFlush(sid));
        failed := true;
        return Refused(OtherError);
      }
      Log(InsertJob(sid, job));
      if job in committed.jobs {
        failed := true;
        return Refused(OtherError);
      }
      pending := EventAndJob(pending.event, job, pending.now);
      savepoint := None;
      return Done;
    }

    /** _create_webhook_event_with_delivery_job. */
    method CreateEventAndJob(row: EventRow, event: EventId, job: JobId, now: int, faults: Faults)
      returns (outcome: FlushOutcome)
      requires At(row, BeforeInsert) && (row.key.Some? ==> savepoint.Some?)
      modifies this`endpoints, this`committed, this`pending, this`savepoint, this`failed, this`trace
      ensures old(trace) <= trace && Grown(old(committed), committed)
      ensures outcome == Done ==> At(row, Flushed) && pending == EventAndJob(event, job, now)
      ensures outcome.Refused? ==> At(row, Violated(outcome.violation)) && savepoint == old(savepoint)
      ensures outcome.Refused? ==> pending == old(pending) || pending == EventOnly(event, now)
      ensures outcome == Refused(KeyTaken) ==> KeyBound(committed, row)
      ensures outcome == Refused(OtherError) ==>
                faults != NO_FAULTS || event in committed.events || job in committed.jobs
    {
      outcome := FlushEvent(row, event, now, faults.eventFlush);
      if outcome == Done {
        outcome := FlushJob(row, job, faults.jobFlush);
      }
    }

    /** Leaving begin_nested by an exception: what was pending at the savepoint is pending again. */
    method RollbackToSavepoint(row: EventRow, ghost violation: Violation)
      requires At(row, Violated(violation)) && savepoint.Some?
      modifies this`pending, this`savepoint, this`failed, this`trace
      ensures old(trace) <= trace && pending == old(savepoint).value && savepoint == None && !failed
      ensures At(row, if violation.KeyTaken? then BeforeEquivalent(true) else Answered(Failed))
    {
      RunsKeepInv(trace);
      UnwindKeeps(World(), sid);
      Log(Unwind(sid));
      pending := savepoint.value;
      savepoint := None;
      failed := false;
    }

    /** Without a savepoint the error propagates from a transaction that stays failed. */
    method Propagate(row: EventRow, ghost violation: Violation)
      requires At(row, Violated(violation)) && savepoint.None?
      modifies this`trace
      ensures old(trace) <= trace && At(row, Answered(Failed)) && failed
    {
      RunsKeepInv(trace);
      UnwindKeeps(World(), sid);
      assert PhaseOk(World(), World().sessions[sid]);
      Log(Unwind(sid));
    }

    method CreateUnkeyed(row: EventRow, event: EventId, job: JobId, now: int, faults: Faults)
      returns (r: Result<Creation, CreationError>)
      requires At(row, BeforeInsert) && row.key.None? && pending == Nothing && savepoint == None
      modifies this`endpoints, this`committed, this`pending, this`savepoint, this`failed, this`trace
      ensures old(trace) <= trace && Grown(old(committed), committed)
      ensures Outcome(row, event, job, now, r) && Decided(old(committed), committed, row, event, job, faults, r)
    {
      var outcome := CreateEventAndJob(row, event, job, now, faults);
      UnkeyedNeverBound(old(committed), row);
      UnkeyedNeverBound(committed, row);
      if outcome == Done {
        return Ok(Creation(event, true));
      }
      assert outcome.violation != KeyTaken;
      Propagate(row, outcome.violation);
      return Err(OtherInsertError);
    }

    /** The insert under begin_nested: what a refused one had flushed is gone. */
    method InsertNested(row: EventRow, event: EventId, job: JobId, now: int, faults: Faults)
      returns (outcome: FlushOutcome)
      requires At(row, BeforeInsert) && row.key.Some? && savepoint == None && pending == Nothing
      modifies this`endpoints, this`committed, this`pending, this`savepoint, this`failed, this`trace
      ensures old(trace) <= trace && Grown(old(committed), committed)
      ensures outcome == Done ==> At(row, Flushed) && pending == EventAndJob(event, job, now)
      ensures outcome.Refused? ==> pending == Nothing && !failed && savepoint == None
      ensures outcome.Refused? ==>
                At(row, if outcome.violation.KeyTaken? then BeforeEquivalent(true) else Answered(Failed))
      ensures outcome == Refused(KeyTaken) ==> KeyBound(committed, row)
      ensures outcome == Refused(OtherError) ==>
                faults != NO_FAULTS || event in committed.events || job in committed.jobs
    {
      hide KeyBound;
      BeginNested(row);
      outcome := CreateEventAndJob(row, event, job, now, faults);
      if outcome.Refused? {
        RollbackToSavepoint(row, outcome.violation);
      }
    }

    method CreateKeyed(row: EventRow, event: EventId, job: JobId, now: int, faults: Faults)
      returns (r: Result<Creation, CreationError>)
      requires At(row, BeforeEquivalent(false)) && row.key.Some? && pending == Nothing && savepoint == None
      modifies this`endpoints, this`committed, this`pending, this`savepoint, this`failed, this`trace
      ensures old(trace) <= trace && Grown(old(committed), committed)
      ensures Outcome(row, event, job, now, r) && Decided(old(committed), committed, row, event, job, faults, r)
    {
      hide Grown, KeyBound, EquivalentStored, Reusable;
      ghost var before := committed;
      var existing := ResolveExisting(row, false);
      GrowthKeeps(trace, before, committed, row);
      if existing.Err? {
        return Err(existing.error);
      }
      if existing.value.Some? {
        ReusableIsBound(committed, row, existing.value.value.event);
        return Ok(existing.value.value);
      }

      ghost var resolved := committed;
      var outcome := InsertNested(row, event, job, now, faults);
      GrowsOn(before, resolved, committed);
      GrowthKeeps(trace, before, committed, row);
      if outcome == Done {
        return Ok(Creation(event, true));
      }
      if outcome.violation == OtherError {
        return Err(OtherInsertError);
      }
      ghost var violated := committed;
      existing := ResolveExisting(row, true);
      GrowsOn(before, violated, committed);
      GrowthKeeps(trace, before, committed, row);
      if existing.Err? {
        GrowthKeeps(trace, violated, committed, row);
        return Err(existing.error);
      }
      if existing.value.None? {
        return Err(MissingWinner);
      }
      ReusableIsBound(committed, row, existing.value.value.event);
      return Ok(existing.value.value);
    }

    /**
     Each result is the protocol's: the session is where the protocol's session gives that answer.  An event
     committed before the call decides the answer; a free key with no fault in the way creates; an error of a keyed
     request leaves nothing pending and the transaction usable; an unkeyed one leaves a transaction that cannot commit.
     */
    method CreateIdempotent(endpoint: EndpointId, request: Request, rawKey: Option<string>,
                            event: EventId, job: JobId, now: int, faults: Faults)
      returns (r: Result<Creation, CreationError>)
      requires Unused()
      modifies this
      ensures old(trace) <= trace && Grown(old(committed), committed)
      ensures (r.Err? && r.error.InvalidKey?) <==> NormalizeKey(rawKey).Err?
      ensures r.Err? && r.error.InvalidKey? ==> NormalizeKey(rawKey) == Err(r.error.error)
      ensures r != Err(MissingWinner)
      ensures r == Err(EndpointNotFound) <==> NormalizeKey(rawKey).Ok? && endpoint !in old(endpoints)
      ensures r.Err? && (r.error.InvalidKey? || r.error.EndpointNotFound?) ==> Unused() && trace == old(trace)
      ensures r.Err? && NormalizeKey(rawKey) != Ok(None) ==> pending == Nothing && !failed
      ensures NormalizeKey(rawKey).Ok? && endpoint in old(endpoints) ==>
                Outcome(EventRow(endpoint, request, NormalizeKey(rawKey).value), event, job, now, r)
      ensures NormalizeKey(rawKey).Ok? && endpoint in old(endpoints) ==>
                Decided(old(committed), committed, EventRow(endpoint, request, NormalizeKey(rawKey).value), event, job,
                        faults, r)
    {
      var key := NormalizeKey(rawKey);
      if key.Err? {
        return Err(InvalidKey(key.error));
      }
      if endpoint !in endpoints {
        return Err(EndpointNotFound);
      }
      var row := EventRow(endpoint, request, key.value);
      Begin(endpoint, request, rawKey);
      if key.value.None? {
        r := CreateUnkeyed(row, event, job, now, faults);
      } else {
        r := CreateKeyed(row, event, job, now, faults);
      }
    }

    /** The route's commit: what is pending, event and job together, becomes visible. */
    method Commit(row: EventRow, ghost phase: Phase)
      requires At(row, phase) && !failed && (phase.Flushed? || (phase.Answered? && pending == Nothing))
      modifies this`committed, this`pending, this`trace
      ensures old(trace) <= trace && Shared() && pending == Nothing
      ensures committed == if phase.Flushed? then WithPending(old(committed), row, old(pending)) else old(committed)
    {
      RunsKeepInv(trace);
      assert PhaseOk(World(), World().sessions[sid]);
      if pending.EventAndJob? {
        Log(EventIngestion.Commit(sid));
        committed := WithPending(committed, row, pending);
        pending := Nothing;
      }
    }

    /** The end of a request that raised: everything pending is gone. */
    method Rollback()
      requires Shared()
      modifies this`pending, this`savepoint, this`failed, this`trace
      ensures old(trace) <= trace && Shared() && pending == Nothing && !failed
      ensures sid !in World().sessions
    {
      if sid in World().sessions {
        Log(Abort(sid));
      }
      pending, savepoint, failed := Nothing, None, false;
    }

    /**
     A whole POST.  It answers what the committed tables decide, each refusal in its case; besides what others commit,
     it commits the request's event with its pending job when it answers that it created one, and nothing otherwise.
     */
    method PostEvent(endpoint: EndpointId, request: Request, rawKey: Option<string>,
                     event: EventId, job: JobId, now: int, faults: Faults)
      returns (r: Result<Creation, CreationError>, ghost others: Store)
      requires Unused()
      modifies this
      ensures old(trace) <= trace && Shared() && pending == Nothing && Grown(old(committed), others)
      ensures (r.Err? && r.error.InvalidKey?) <==> NormalizeKey(rawKey).Err?
      ensures r.Err? && r.error.InvalidKey? ==> NormalizeKey(rawKey) == Err(r.error.error)
      ensures r == Err(EndpointNotFound) <==> NormalizeKey(rawKey).Ok? && endpoint !in old(endpoints)
      ensures r != Err(MissingWinner)
      ensures NormalizeKey(rawKey).Ok? && endpoint in old(endpoints) ==>
                Decided(old(committed), others, EventRow(endpoint, request, NormalizeKey(rawKey).value), event, job,
                        faults, r)
      ensures r.Ok? ==> NormalizeKey(rawKey).Ok?
      ensures r.Ok? && !r.value.created ==>
                Reusable(committed, EventRow(endpoint, request, NormalizeKey(rawKey).value), r.value.event)
      ensures r.Ok? && r.value.created ==>
                var row, newJob := EventRow(endpoint, request, NormalizeKey(rawKey).value),
                                   Job(event, Pending, Some(now), 0, now, now);
                && r.value.event == event && event !in others.events && job !in others.jobs
                && committed == Store(others.events[event := row], others.jobs[job := newJob])
      ensures r.Err? || !r.value.created ==> committed == others
      ensures UniqueKeys(others.events) && UniqueKeys(committed.events) && Paired(committed)
    {
      r := CreateIdempotent(endpoint, request, rawKey, event, job, now, faults);
      others := committed;
      RunsKeepInv(trace);
      if r.Ok? {
        assert PendingOk(World().store, World().sessions[sid]);
        Commit(EventRow(endpoint, request, NormalizeKey(rawKey).value), World().sessions[sid].phase);
      } else {
        Rollback();
      }
      RunsKeepInv(trace);
    }

    /** Where the session is after an answer, and what it has pending. */
    ghost predicate Outcome(row: EventRow, event: EventId, job: JobId, now: int, r: Result<Creation, CreationError>)
      reads this
    {
      match r
      case Ok(Creation(e, created)) =>
        if created then e == event && At(row, Flushed) && pending == EventAndJob(event, job, now)
        else At(row, Answered(Reused(e))) && pending == Nothing
      case Err(IdempotencyConflict) => At(row, Answered(Conflict)) && pending == Nothing
      case Err(OtherInsertError) =>
        && At(row, Answered(Failed)) && failed == row.key.None?
        && (row.key.Some? ==> pending == Nothing)
        && (pending == Nothing || pending == EventOnly(event, now))
      case Err(_) => false
    }
  }

  function WithPending(store: Store, row: EventRow, pending: Pending): Store {
    if pending.EventAndJob? then Added(store, pending.event, row, pending.job, pending.now) else store
  }

  predicate Reusable(store: Store, row: EventRow, event: EventId) {
    event in store.events && Equivalent(store.events[event], row)
  }

  /** How the committed tables decide the answer. */
  ghost predicate Decided(before: Store, after: Store, row: EventRow, event: EventId, job: JobId, faults: Faults,
                          r: Result<Creation, CreationError>)
  {
    && (EquivalentStored(before, row) ==> r.Ok? && !r.value.created)
    && (KeyBound(before, row) && !EquivalentStored(before, row) ==> r == Err(IdempotencyConflict))
    && (r.Ok? && !r.value.created ==> Reusable(after, row, r.value.event))
    && (r == Err(IdempotencyConflict) ==> KeyBound(after, row) && !EquivalentStored(before, row))
    && (r == Err(OtherInsertError) ==> faults != NO_FAULTS || event in after.events || job in after.jobs)
    && (!KeyBound(after, row) && faults == NO_FAULTS && event !in after.events && job !in after.jobs ==>
          r == Ok(Creation(event, true)))
  }

  /**
   The answer in terms of the columns: an event that had this endpoint and key before the call is reused when it has the
   same request and conflicts otherwise; when none has them and nothing is in the way, the request creates its event.
   */
  lemma AnswerByColumns(before: Store, after: Store, row: EventRow, event: EventId, job: JobId, faults: Faults,
                        r: Result<Creation, CreationError>)
    requires Decided(before, after, row, event, job, faults, r) && UniqueKeys(after.events) && Grown(before, after)
    ensures forall e :: e in before.events && row.key.Some?
                        && before.events[e].endpoint == row.endpoint && before.events[e].key == row.key ==>
              r == if before.events[e].request == row.request then Ok(Creation(e, false)) else Err(IdempotencyConflict)
    ensures (&& faults == NO_FAULTS && event !in after.events && job !in after.jobs
             && forall e :: e in after.events ==>
                  row.key.None? || after.events[e].endpoint != row.endpoint || after.events[e].key != row.key)
            ==> r == Ok(Creation(event, true))
    ensures r == Err(IdempotencyConflict) ==>
              row.key.Some? && exists e :: e in after.events && after.events[e].endpoint == row.endpoint
                                          && after.events[e].key == row.key
  {
    forall e | e in before.events && row.key.Some?
               && before.events[e].endpoint == row.endpoint && before.events[e].key == row.key
      ensures r == if before.events[e].request == row.request then Ok(Creation(e, false)) else Err(IdempotencyConflict)
    {
      BoundBefore(before, after, row, e);
    }
  }

  /** An event of this endpoint and key before the call is the only one that could be reused. */
  lemma BoundBefore(before: Store, after: Store, row: EventRow, e: EventId)
    requires UniqueKeys(after.events) && Grown(before, after) && e in before.events && row.key.Some?
    requires before.events[e].endpoint == row.endpoint && before.events[e].key == row.key
    ensures KeyBound(before, row)
    ensures EquivalentStored(before, row) <==> before.events[e].request == row.request
    ensures forall f :: Reusable(after, row, f) ==> f == e
  {
    assert SameKey(before.events[e], row);
    forall f | f in after.events && SameKey(after.events[f], row) ensures f == e {
      assert SameKey(after.events[f], after.events[e]);
    }
    if before.events[e].request == row.request {
      assert Equivalent(before.events[e], row);
    }
  }

  /** The steps of others leave one session where it is. */
  ghost predicate OwnUnchanged(sid: int, was: State, now: State) {
    && (sid in was.spent <==> sid in now.spent)
    && (sid in was.sessions <==> sid in now.sessions)
    && (sid in was.sessions ==> now.sessions[sid] == was.sessions[sid])
  }

  /** A bound key stays bound, to the same request. */
  lemma GrowthKeeps(trace: seq<Step>, was: Store, now: Store, row: EventRow)
    requires IsRun(trace) && Execute(trace).value.store == now && Grown(was, now)
    ensures KeyBound(was, row) ==> KeyBound(now, row) && (EquivalentStored(now, row) <==> EquivalentStored(was, row))
    ensures EquivalentStored(was, row) ==> KeyBound(was, row) && EquivalentStored(now, row)
    ensures row.key.None? ==> !KeyBound(was, row)
  {
    RunsKeepInv(trace);
    if EquivalentStored(was, row) {
      var e :| e in was.events && Equivalent(was.events[e], row);
      assert SameKey(was.events[e], row);
    }
    if KeyBound(was, row) {
      var e :| e in was.events && SameKey(was.events[e], row);
      assert e in now.events && SameKey(now.events[e], row);
      assert UniqueKeys(was.events) by {
        forall a, b | a in was.events && b in was.events && SameKey(was.events[a], was.events[b]) ensures a == b {
          assert SameKey(now.events[a], now.events[b]);
        }
      }
      BinderDecides(was, row, e);
      BinderDecides(now, row, e);
    }
  }

  lemma NothingPending(s: State, sid: int)
    requires Inv(s) && sid in s.sessions && s.sessions[sid].phase.BeforeInsert?
    ensures s.sessions[sid].pending == Nothing
  {
    assert PhaseOk(s, s.sessions[sid]);
  }

  /** What the insert of an event does once nobody holds its identifier or key. */
  lemma FreeInsert(s: State, sid: int, event: EventId, now: int)
    requires MayInsert(s, sid) && !EventHeld(s, event) && !KeyHeld(s, s.sessions[sid].row)
    ensures DoInsertEvent(s, sid, event, now) ==
              Some(if event in s.store.events then Moved(s, sid, Violated(OtherError))
                   else if ScopedEvents(s.store, s.sessions[sid].row) != {} then Moved(s, sid, Violated(KeyTaken))
                   else Changed(s, sid, s.sessions[sid].(phase := BeforeJob, pending := EventOnly(event, now))))
  {
  }

  lemma GrowsOn(was: Store, middle: Store, now: Store)
    requires Grown(was, middle) && Grown(middle, now)
    ensures Grown(was, now)
  {
  }

  lemma ReusableIsBound(store: Store, row: EventRow, event: EventId)
    requires Reusable(store, row, event)
    ensures KeyBound(store, row) && EquivalentStored(store, row)
  {
    assert SameKey(store.events[event], row);
  }

  lemma UnkeyedNeverBound(store: Store, row: EventRow)
    ensures row.key.None? ==> !KeyBound(store, row) && !EquivalentStored(store, row)
  {
  }

  /** One way to wait: every other session gives up. */
  ghost function OthersGone(trace: seq<Step>, sid: int): (longer: seq<Step>)
    requires IsRun(trace)
    ensures IsRun(longer) && trace <= longer
    ensures var was, now := Execute(trace).value, Execute(longer).value;
            now == was.(sessions := now.sessions) && now.sessions.Keys <= {sid} && OwnUnchanged(sid, was, now)
    decreases |Execute(trace).value.sessions|
  {
    var s := Execute(trace).value;
    if other :| other in s.sessions && other != sid then
      assert (trace + [Abort(other)])[..|trace|] == trace;
      OthersGone(trace + [Abort(other)], sid)
    else trace
  }
}
