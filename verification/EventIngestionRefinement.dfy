/**
 Ingestion as a map from (endpoint, key) to request: what each step does to the map, when the
 answer a session gets is the map's answer, and the one race in which it is not.
 */
module EventIngestionRefinement {
  import opened Wrappers
  import opened DeliveryTables
  import opened IdempotencyKey
  import opened EventIngestion

  predicate IsFor(row: EventRow, endpoint: EndpointId, key: string) {
    row.endpoint == endpoint && row.key == Some(key)
  }

  /** The request a key is bound to: the map the tables stand for. */
  ghost function Bound(store: Store, endpoint: EndpointId, key: string): Option<Request> {
    if exists e :: e in store.events && IsFor(store.events[e], endpoint, key) then
      var e: EventId :| e in store.events && IsFor(store.events[e], endpoint, key);
      Some(store.events[e].request)
    else None
  }

  lemma BoundIs(store: Store, e: EventId)
    requires UniqueKeys(store.events) && e in store.events && store.events[e].key.Some?
    ensures Bound(store, store.events[e].endpoint, store.events[e].key.value) == Some(store.events[e].request)
  {
    var endpoint, key := store.events[e].endpoint, store.events[e].key.value;
    assert IsFor(store.events[e], endpoint, key);
    forall f | f in store.events && IsFor(store.events[f], endpoint, key) ensures f == e {
      assert SameKey(store.events[e], store.events[f]);
    }
  }

  ghost function BoundTo(store: Store, row: EventRow): Option<Request>
    requires row.key.Some?
  {
    Bound(store, row.endpoint, row.key.value)
  }

  lemma BoundMeansStored(store: Store, row: EventRow)
    requires UniqueKeys(store.events) && row.key.Some?
    ensures BoundTo(store, row).Some? <==> KeyBound(store, row)
    ensures BoundTo(store, row) == Some(row.request) <==> EquivalentStored(store, row)
  {
    EquivalentIsBound(store, row);
    if KeyBound(store, row) {
      var e :| e in store.events && SameKey(store.events[e], row);
      BinderDecides(store, row, e);
      BoundIs(store, e);
    } else {
      forall e | e in store.events ensures !IsFor(store.events[e], row.endpoint, row.key.value) {
        assert !SameKey(store.events[e], row);
      }
    }
  }

  lemma EquivalentIsBound(store: Store, row: EventRow)
    ensures EquivalentStored(store, row) ==> KeyBound(store, row)
  {
    if EquivalentStored(store, row) {
      var e :| e in store.events && Equivalent(store.events[e], row);
      assert SameKey(store.events[e], row);
    }
  }

  /** A commit binds its free key to its request and touches no other key. */
  lemma CommitBinds(s: State, sid: int, endpoint: EndpointId, key: string)
    requires Inv(s) && DoCommit(s, sid).Some?
    ensures var row := s.sessions[sid].row;
            if IsFor(row, endpoint, key)
            then Bound(s.store, endpoint, key) == None
            && Bound(DoCommit(s, sid).value.store, endpoint, key) == Some(row.request)
            else Bound(DoCommit(s, sid).value.store, endpoint, key) == Bound(s.store, endpoint, key)
  {
    var n := DoCommit(s, sid).value;
    var row := s.sessions[sid].row;
    var EventAndJob(event, job, now) := s.sessions[sid].pending;
    CommitKeeps(s, sid);
    assert SessionOk(s, s.sessions[sid]);
    assert n.store.events == s.store.events[event := row];
    if IsFor(row, endpoint, key) {
      BoundMeansStored(s.store, row);
      assert n.store.events[event] == row;
      BoundIs(n.store, event);
    } else {
      var probe := EventRow(endpoint, row.request, Some(key));
      BoundMeansStored(s.store, probe);
      BoundMeansStored(n.store, probe);
      SameBindings(s.store, n.store, event, row, probe);
    }
  }

  lemma SameBindings(was: Store, now: Store, event: EventId, added: EventRow, probe: EventRow)
    requires UniqueKeys(was.events) && UniqueKeys(now.events) && event !in was.events
    requires now.events == was.events[event := added] && probe.key.Some? && !SameKey(added, probe)
    ensures BoundTo(now, probe) == BoundTo(was, probe)
  {
    BoundMeansStored(was, probe);
    BoundMeansStored(now, probe);
    if KeyBound(now, probe) {
      var e :| e in now.events && SameKey(now.events[e], probe);
      assert e in was.events && SameKey(was.events[e], probe);
      BoundIs(was, e);
      BoundIs(now, e);
    } else {
      forall e | e in was.events ensures !SameKey(was.events[e], probe) {
        assert e in now.events && now.events[e] == was.events[e];
      }
    }
  }

  // ---------------------------------------------------------------- runs

  lemma {:induction false} PrefixIsRun(steps: seq<Step>, n: nat)
    requires IsRun(steps) && n <= |steps|
    ensures IsRun(steps[..n])
    ensures n < |steps| ==> IsRun(steps[..n + 1])
    ensures n < |steps| ==> Execute(steps[..n + 1]) == Next(Execute(steps[..n]).value, steps[n])
    decreases |steps|
  {
    if n == |steps| {
      assert steps[..n] == steps;
    } else {
      var init := steps[..|steps| - 1];
      PrefixIsRun(init, n);
      assert init[..n] == steps[..n];
      if n < |init| {
        assert init[..n + 1] == steps[..n + 1];
      } else {
        assert steps[..n + 1] == steps;
        assert steps[..n] == init;
      }
    }
  }

  ghost function StateAt(steps: seq<Step>, n: nat): State
    requires IsRun(steps) && n <= |steps|
  {
    PrefixIsRun(steps, n);
    Execute(steps[..n]).value
  }

  lemma StateFollows(steps: seq<Step>, n: nat)
    requires IsRun(steps) && n < |steps|
    ensures Next(StateAt(steps, n), steps[n]) == Some(StateAt(steps, n + 1))
    ensures Inv(StateAt(steps, n)) && Inv(StateAt(steps, n + 1))
  {
    PrefixIsRun(steps, n);
    RunsKeepInv(steps[..n]);
    RunsKeepInv(steps[..n + 1]);
  }

  /** Every step of every run either leaves the map alone or binds one free key, at a commit. */
  lemma RunRefinesMap(steps: seq<Step>, n: nat, endpoint: EndpointId, key: string)
    requires IsRun(steps) && n < |steps|
    ensures var s, t, step := StateAt(steps, n), StateAt(steps, n + 1), steps[n];
            if step.Commit? && step.sid in s.sessions && IsFor(s.sessions[step.sid].row, endpoint, key)
            then Bound(s.store, endpoint, key) == None
            && Bound(t.store, endpoint, key) == Some(s.sessions[step.sid].row.request)
            else Bound(t.store, endpoint, key) == Bound(s.store, endpoint, key)
    ensures !steps[n].Commit? ==> StateAt(steps, n + 1).store == StateAt(steps, n).store
  {
    StateFollows(steps, n);
    if steps[n].Commit? {
      CommitBinds(StateAt(steps, n), steps[n].sid, endpoint, key);
    }
  }

  // ---------------------------------------------------------------- when a conflict answer is wrong

  ghost predicate CommitsEquivalent(s: State, step: Step, row: EventRow) {
    step.Commit? && step.sid in s.sessions && Equivalent(s.sessions[step.sid].row, row)
  }

  lemma StoredByCommits(s: State, step: Step, row: EventRow)
    requires Inv(s) && Next(s, step).Some?
    ensures EquivalentStored(Next(s, step).value.store, row) <==>
              EquivalentStored(s.store, row) || CommitsEquivalent(s, step, row)
  {
    var n := Next(s, step).value;
    if step.Commit? {
      var added, event := s.sessions[step.sid].row, s.sessions[step.sid].pending.event;
      assert SessionOk(s, s.sessions[step.sid]);
      assert n.store.events == s.store.events[event := added];
      if EquivalentStored(s.store, row) {
        var e :| e in s.store.events && Equivalent(s.store.events[e], row);
        assert e in n.store.events && Equivalent(n.store.events[e], row);
      }
      if CommitsEquivalent(s, step, row) {
        assert event in n.store.events && Equivalent(n.store.events[event], row);
      }
      if EquivalentStored(n.store, row) {
        var e :| e in n.store.events && Equivalent(n.store.events[e], row);
        if e != event { assert e in s.store.events && Equivalent(s.store.events[e], row); }
      }
    }
  }

  lemma {:induction false} StoredBetween(steps: seq<Step>, p: nat, q: nat, row: EventRow)
    requires IsRun(steps) && p <= q <= |steps|
    ensures EquivalentStored(StateAt(steps, q).store, row) <==>
              EquivalentStored(StateAt(steps, p).store, row) || exists m | p <= m < q ::
                  CommitsEquivalent(StateAt(steps, m), steps[m], row)
    decreases q - p
  {
    if p < q {
      StoredBetween(steps, p, q - 1, row);
      StateFollows(steps, q - 1);
      StoredByCommits(StateAt(steps, q - 1), steps[q - 1], row);
    }
  }

  /** Step i is the first lookup, which found nothing, of the resolve whose second lookup is due in state k. */
  ghost predicate LookupAt(steps: seq<Step>, i: nat, k: nat, sid: int)
    requires IsRun(steps) && i < k <= |steps|
  {
    && steps[i] == LookupEquivalent(sid)
    && sid in StateAt(steps, k).sessions
    && !EquivalentStored(StateAt(steps, i).store, StateAt(steps, k).sessions[sid].row)
  }

  lemma ScopedAfterLookup(s: State, step: Step, sid: int)
    requires Inv(s) && Next(s, step).Some?
    requires sid in Next(s, step).value.sessions && Next(s, step).value.sessions[sid].phase.BeforeScoped?
    ensures sid in s.sessions && s.sessions[sid].row == Next(s, step).value.sessions[sid].row
    ensures s.sessions[sid] == Next(s, step).value.sessions[sid]
              || (step == LookupEquivalent(sid) && !EquivalentStored(s.store, s.sessions[sid].row))
  {
    if step.LookupEquivalent? { LookupEquivalentKeeps(s, step.sid); }
    if step.LookupScoped? { LookupScopedKeeps(s, step.sid); }
  }

  lemma {:induction false} LookupBehind(steps: seq<Step>, k: nat, sid: int)
    requires IsRun(steps) && k <= |steps|
    requires sid in StateAt(steps, k).sessions && StateAt(steps, k).sessions[sid].phase.BeforeScoped?
    ensures exists i :: 0 <= i < k && LookupAt(steps, i, k, sid)
    decreases k
  {
    if k > 0 {
      StateFollows(steps, k - 1);
      var s := StateAt(steps, k - 1);
      ScopedAfterLookup(s, steps[k - 1], sid);
      if s.sessions[sid] == StateAt(steps, k).sessions[sid] {
        LookupBehind(steps, k - 1, sid);
        var i :| 0 <= i < k - 1 && LookupAt(steps, i, k - 1, sid);
        assert LookupAt(steps, i, k, sid);
      } else {
        assert LookupAt(steps, k - 1, k, sid);
      }
    }
  }

  /** A conflict answer for a request the key is bound to is wrong; any other answer of a lookup is right. */
  ghost predicate RightAnswer(s: State, step: Step) {
    step.LookupScoped? && step.sid in s.sessions && s.sessions[step.sid].phase.BeforeScoped?
    && KeyBound(s.store, s.sessions[step.sid].row) ==>
      !EquivalentStored(s.store, s.sessions[step.sid].row)
  }

  /** No session commits an equivalent event between the two lookups of one resolve. */
  ghost predicate NoRace(steps: seq<Step>, k: nat)
    requires IsRun(steps) && k < |steps|
  {
    steps[k].LookupScoped? ==>
      forall i, m | 0 <= i < m < k && LookupAt(steps, i, k, steps[k].sid) ::
        !CommitsEquivalent(StateAt(steps, m), steps[m], StateAt(steps, k).sessions[steps[k].sid].row)
  }

  /** A scoped lookup answers a conflict for an equivalent request exactly when such a commit raced with it. */
  lemma ConflictIsRightIff(steps: seq<Step>, k: nat)
    requires IsRun(steps) && k < |steps|
    ensures RightAnswer(StateAt(steps, k), steps[k]) <==> NoRace(steps, k)
  {
    StateFollows(steps, k);
    var s := StateAt(steps, k);
    if steps[k].LookupScoped? {
      var sid := steps[k].sid;
      var row := s.sessions[sid].row;
      assert SessionOk(s, s.sessions[sid]);
      LookupBehind(steps, k, sid);
      var first :| 0 <= first < k && LookupAt(steps, first, k, sid);
      EquivalentIsBound(s.store, row);
      FirstStepOfLookup(steps, first, k, sid);
      if EquivalentStored(s.store, row) {
        StoredBetween(steps, first, k, row);
        var m :| first <= m < k && CommitsEquivalent(StateAt(steps, m), steps[m], row);
        assert first < m < k;
      } else {
        forall i, m | 0 <= i < m < k && LookupAt(steps, i, k, sid)
          ensures !CommitsEquivalent(StateAt(steps, m), steps[m], row)
        {
          StoredBetween(steps, i, k, row);
        }
      }
    }
  }

  lemma FirstStepOfLookup(steps: seq<Step>, i: nat, k: nat, sid: int)
    requires IsRun(steps) && i < k <= |steps| && LookupAt(steps, i, k, sid)
    ensures !CommitsEquivalent(StateAt(steps, i), steps[i], StateAt(steps, k).sessions[sid].row)
  {
  }

  /** The answer session sid has got by state n. */
  function AnswerIn(s: State, sid: int): Option<Verdict> {
    if sid in s.sessions && s.sessions[sid].phase.Answered? then Some(s.sessions[sid].phase.verdict) else None
  }

  /** The first lookup of any resolve answers a reuse exactly when the key is bound to the same request. */
  lemma ReuseMatchesTheMap(steps: seq<Step>, k: nat, sid: int)
    requires IsRun(steps) && k < |steps| && steps[k] == LookupEquivalent(sid)
    ensures sid in StateAt(steps, k).sessions && StateAt(steps, k).sessions[sid].row.key.Some?
    ensures var s, answer := StateAt(steps, k), AnswerIn(StateAt(steps, k + 1), sid);
            && (answer.Some? <==> BoundTo(s.store, s.sessions[sid].row) == Some(s.sessions[sid].row.request))
            && (answer.Some? ==> answer.value.Reused? && answer.value.event in s.store.events
                                 && Equivalent(s.store.events[answer.value.event], s.sessions[sid].row))
  {
    StateFollows(steps, k);
    var s := StateAt(steps, k);
    assert SessionOk(s, s.sessions[sid]);
    LookupEquivalentKeeps(s, sid);
    BoundMeansStored(s.store, s.sessions[sid].row);
  }

  /** Without a race, the second lookup answers a conflict exactly when the key is bound to a different request. */
  lemma ConflictMatchesTheMap(steps: seq<Step>, k: nat, sid: int)
    requires IsRun(steps) && k < |steps| && steps[k] == LookupScoped(sid) && NoRace(steps, k)
    ensures sid in StateAt(steps, k).sessions && StateAt(steps, k).sessions[sid].row.key.Some?
    ensures var s, row := StateAt(steps, k), StateAt(steps, k).sessions[sid].row;
            AnswerIn(StateAt(steps, k + 1), sid) == Some(Conflict) <==>
              BoundTo(s.store, row).Some? && BoundTo(s.store, row) != Some(row.request)
  {
    StateFollows(steps, k);
    var s := StateAt(steps, k);
    assert SessionOk(s, s.sessions[sid]);
    LookupScopedKeeps(s, sid);
    BoundMeansStored(s.store, s.sessions[sid].row);
    ConflictIsRightIff(steps, k);
  }

  /** After a unique violation the conflict answer is the map's answer with no assumption on the interleaving. */
  lemma SecondResolveIsRight(steps: seq<Step>, k: nat, sid: int)
    requires IsRun(steps) && k < |steps| && steps[k] == LookupScoped(sid)
    requires sid in StateAt(steps, k).sessions && StateAt(steps, k).sessions[sid].phase == BeforeScoped(true)
    ensures AnswerIn(StateAt(steps, k + 1), sid) == Some(Conflict)
    ensures StateAt(steps, k).sessions[sid].row.key.Some?
    ensures var s, row := StateAt(steps, k), StateAt(steps, k).sessions[sid].row;
            BoundTo(s.store, row).Some? && BoundTo(s.store, row) != Some(row.request)
  {
    StateFollows(steps, k);
    var s := StateAt(steps, k);
    assert SessionOk(s, s.sessions[sid]);
    LookupScopedKeeps(s, sid);
    BoundMeansStored(s.store, s.sessions[sid].row);
  }

  // ---------------------------------------------------------------- the race itself

  const ORDER: Request := Request("order", JNull)
  const ROW: EventRow := EventRow(0, ORDER, Some("k"))
  const RACE: seq<Step> := [
    AddEndpoint(0), Start(1, 0, ORDER, Some("k")), Start(2, 0, ORDER, Some("k")), LookupEquivalent(1),
    LookupEquivalent(2), LookupScoped(2), SetSavepoint(2), InsertEvent(2, 0, 0), InsertJob(2, 0), Commit(2),
    LookupScoped(1)]

  lemma Extend(n: nat, s: State, t: State)
    requires n < |RACE| && Execute(RACE[..n]) == Some(s) && Next(s, RACE[n]) == Some(t)
    ensures Execute(RACE[..n + 1]) == Some(t)
  {
    assert RACE[..n + 1][..n] == RACE[..n];
  }

  const EMPTY: Store := Store(map[], map[])
  const FULL: Store := Store(map[0 := ROW], map[0 := NewJob(0, 0)])

  /** Session 1 has looked up an equivalent event in vain; session 2 is where it is. */
  function Two(first: Phase, second: Session, store: Store): State {
    State({0}, store, map[1 := Session(ROW, first, Nothing, None), 2 := second], {1, 2})
  }

  lemma KeyIsNormal()
    ensures NormalizeKey(Some("k")) == Ok(Some("k"))
  {
    assert StripLeft("k") == "k" && StripRight("k") == "k";
  }

  lemma BothStarted()
    ensures Execute(RACE[..3])
            == Some(Two(BeforeEquivalent(false), Session(ROW, BeforeEquivalent(false), Nothing, None), EMPTY))
  {
    KeyIsNormal();
    var start := Session(ROW, BeforeEquivalent(false), Nothing, None);
    assert RACE[..0] == [];
    var s1 := State({0}, EMPTY, map[], {});
    assert {} + {0} == {0};
    Extend(0, INITIAL, s1);
    var s2 := State({0}, EMPTY, map[1 := start], {1});
    assert {} + {1} == {1};
    Extend(1, s1, s2);
    assert {1} + {2} == {1, 2};
    Extend(2, s2, Two(BeforeEquivalent(false), start, EMPTY));
  }

  lemma BothLookedUp()
    ensures Execute(RACE[..5])
            == Some(Two(BeforeScoped(false), Session(ROW, BeforeScoped(false), Nothing, None), EMPTY))
  {
    BothStarted();
    assert EquivalentEvents(EMPTY, ROW) == {};
    var start := Session(ROW, BeforeEquivalent(false), Nothing, None);
    var s3, s4 := Two(BeforeEquivalent(false), start, EMPTY), Two(BeforeScoped(false), start, EMPTY);
    assert Next(s3, LookupEquivalent(1)).value.sessions == s4.sessions;
    Extend(3, s3, s4);
    var s5 := Two(BeforeScoped(false), Session(ROW, BeforeScoped(false), Nothing, None), EMPTY);
    assert Next(s4, LookupEquivalent(2)).value.sessions == s5.sessions;
    Extend(4, s4, s5);
  }

  lemma OneIsFree()
    ensures Execute(RACE[..6]) == Some(Two(BeforeScoped(false), Session(ROW, BeforeInsert, Nothing, None), EMPTY))
  {
    BothLookedUp();
    assert ScopedEvents(EMPTY, ROW) == {};
    var s5 := Two(BeforeScoped(false), Session(ROW, BeforeScoped(false), Nothing, None), EMPTY);
    var s6 := Two(BeforeScoped(false), Session(ROW, BeforeInsert, Nothing, None), EMPTY);
    assert Next(s5, LookupScoped(2)).value.sessions == s6.sessions;
    Extend(5, s5, s6);
  }

  lemma OneReady()
    ensures Execute(RACE[..7])
            == Some(Two(BeforeScoped(false), Session(ROW, BeforeInsert, Nothing, Some(Nothing)), EMPTY))
  {
    OneIsFree();
    var s6 := Two(BeforeScoped(false), Session(ROW, BeforeInsert, Nothing, None), EMPTY);
    var s7 := Two(BeforeScoped(false), Session(ROW, BeforeInsert, Nothing, Some(Nothing)), EMPTY);
    assert Next(s6, SetSavepoint(2)).value.sessions == s7.sessions;
    Extend(6, s6, s7);
  }

  lemma OneFlushed()
    ensures Execute(RACE[..9])
            == Some(Two(BeforeScoped(false), Session(ROW, Flushed, EventAndJob(0, 0, 0), None), EMPTY))
  {
    OneReady();
    assert ScopedEvents(EMPTY, ROW) == {};
    var s7 := Two(BeforeScoped(false), Session(ROW, BeforeInsert, Nothing, Some(Nothing)), EMPTY);
    var s8 := Two(BeforeScoped(false), Session(ROW, BeforeJob, EventOnly(0, 0), Some(Nothing)), EMPTY);
    assert Next(s7, InsertEvent(2, 0, 0)).value.sessions == s8.sessions;
    Extend(7, s7, s8);
    var s9 := Two(BeforeScoped(false), Session(ROW, Flushed, EventAndJob(0, 0, 0), None), EMPTY);
    assert Next(s8, InsertJob(2, 0)).value.sessions == s9.sessions;
    Extend(8, s8, s9);
  }

  lemma OneCommitted()
    ensures Execute(RACE[..10])
            == Some(Two(BeforeScoped(false), Session(ROW, Answered(Created(0)), Nothing, None), FULL))
  {
    OneFlushed();
    var s9 := Two(BeforeScoped(false), Session(ROW, Flushed, EventAndJob(0, 0, 0), None), EMPTY);
    var s10 := Two(BeforeScoped(false), Session(ROW, Answered(Created(0)), Nothing, None), FULL);
    assert Next(s9, Commit(2)).value.sessions == s10.sessions;
    Extend(9, s9, s10);
  }

  /** Two sessions send the same request; one commits between the other's lookups, which then reports a conflict. */
  lemma EquivalentRequestCanConflict()
    ensures IsRun(RACE)
    ensures var s := Execute(RACE).value;
            && s.store == FULL && 1 in s.sessions
            && s.sessions[1].row == ROW && s.sessions[1].phase == Answered(Conflict)
            && s.store.events[0].request == s.sessions[1].row.request
  {
    OneCommitted();
    assert ScopedEvents(FULL, ROW) == {0};
    var s10 := Two(BeforeScoped(false), Session(ROW, Answered(Created(0)), Nothing, None), FULL);
    var s11 := Two(Answered(Conflict), Session(ROW, Answered(Created(0)), Nothing, None), FULL);
    assert Next(s10, LookupScoped(1)).value.sessions == s11.sessions;
    Extend(10, s10, s11);
    assert RACE[..11] == RACE;
  }
}
