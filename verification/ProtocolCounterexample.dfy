/**
 A run that is not quiet: the job is delivered, yet a slow earlier completion that loaded the row
 before recovery puts it back to pending with one attempt counted out of two.
 */
module ProtocolCounterexample {
  import opened Wrappers
  import opened RetryPolicy
  import opened DeliveryTables
  import opened JobQueue
  import opened Protocol
  import opened ProtocolHistory

  function OneSecond(): Number { Positive(Binary64(1, 0)) }

  function Cfg(): Settings { Settings(5, OneSecond(), OneSecond(), (units: nat) => 0) }

  /** The tables with one endpoint, one event and its job. */
  function Made(row: Job, attempts: seq<Attempt>, sessions: map<SessionId, Session>, spent: set<SessionId>,
                h: seq<Entry>): State {
    State(Tables(map[0 := true], map[0 := 0], map[0 := row], map[0 := attempts]), sessions, spent, map[0 := h])
  }

  const NEW: Job := NewJob(0, 0)
  const CLAIMED: Job := ClaimedRow(NEW, 0)
  const RECOVERED: Job := RecoveredRow(CLAIMED, 10)
  const RECLAIMED: Job := ClaimedRow(RECOVERED, 10)
  const DELIVERED: Job := Job(0, Succeeded, None, 1, 0, 20)
  const FORGOTTEN: Job := Job(0, Pending, Some(30), 1, 0, 30)
  const GOOD: Attempt := Attempt(1, DeliverySucceeded, Some(200), None, 0, 15)
  const BAD: Attempt := Attempt(2, DeliveryFailed, Some(500), Some(ReturnedStatus(500)), 0, 25)

  /** Session 2 is the slow completion; session 5 the one that delivers. */
  const OPENING: seq<Step> := [AddEndpoint(0), Ingest(0, 0, 0, 0), Claim(1, 0, 1), Commit(1), LoadJob(2, 0)]
  const RECOVERY: seq<Step> := [Recover(3, 0, 10, 1), Commit(3), Claim(4, 10, 1), Commit(4)]
  const DELIVERY: seq<Step> := [LoadJob(5, 0), ReadMaximum(5), Insert(5, Response(200), 0, 0, 15), WriteJob(5, 20),
                                Commit(5)]
  const LATE_COMPLETION: seq<Step> := [ReadMaximum(2), Insert(2, Response(500), 0, 0, 25), WriteJob(2, 30), Commit(2)]

  lemma Extend(steps: seq<Step>, s: State, step: Step, n: State)
    requires Execute(Cfg(), steps) == Some(s) && Next(Cfg(), s, step) == Some(n)
    ensures Execute(Cfg(), steps + [step]) == Some(n)
  {
    var longer := steps + [step];
    assert longer[..|longer| - 1] == steps;
  }

  lemma OnlyOne(ids: seq<JobId>)
    requires |ids| == 1 && forall j :: j in ids ==> j == 0
    ensures ids == [0]
  {
    var first := ids[0];
    assert first in ids;
    assert first == 0;
  }

  ghost predicate Unlocked(ss: map<SessionId, Session>) {
    forall k | k in ss :: Held(ss[k]) == {}
  }

  /** Claim and commit of the one due job. */
  lemma ClaimAndCommit(steps: seq<Step>, row: Job, ss: map<SessionId, Session>, spent: set<SessionId>, sid: SessionId,
                       at: int)
    requires Execute(Cfg(), steps) == Some(Made(row, [], ss, spent, []))
    requires Unlocked(ss) && sid !in spent && sid !in ss && IsDue(row, at)
    ensures Execute(Cfg(), steps + [Claim(sid, at, 1)] + [Commit(sid)])
            == Some(Made(ClaimedRow(row, at), [], ss, spent + {sid}, []))
  {
    var s := Made(row, [], ss, spent, []);
    assert Locked(s) == {};
    DueJobsSelection(s.tables.jobs, Locked(s), at, 1);
    assert s.tables.jobs[0] == row;
    OnlyOne(DueJobs(s.tables.jobs, Locked(s), at, 1));
    var m := Made(row, [], ss[sid := Claiming([0], at)], spent + {sid}, []);
    Extend(steps, s, Claim(sid, at, 1), m);
    assert m.sessions - {sid} == ss;
    assert ClaimedJobs(m.tables.jobs, [0], at) == map[0 := ClaimedRow(row, at)];
    Extend(steps + [Claim(sid, at, 1)], m, Commit(sid), Made(ClaimedRow(row, at), [], ss, spent + {sid}, []));
  }

  /** Recovery and commit of the one stale job. */
  lemma RecoverAndCommit(steps: seq<Step>, row: Job, ss: map<SessionId, Session>, spent: set<SessionId>, sid: SessionId,
                         before: int, at: int)
    requires Execute(Cfg(), steps) == Some(Made(row, [], ss, spent, []))
    requires Unlocked(ss) && sid !in spent && sid !in ss && IsStale(row, before) && before <= at
    ensures Execute(Cfg(), steps + [Recover(sid, before, at, 1)] + [Commit(sid)])
            == Some(Made(RecoveredRow(row, at), [], ss, spent + {sid}, []))
  {
    var s := Made(row, [], ss, spent, []);
    assert Locked(s) == {};
    StaleJobsSelection(s.tables.jobs, Locked(s), before, 1);
    assert s.tables.jobs[0] == row;
    OnlyOne(StaleJobs(s.tables.jobs, Locked(s), before, 1));
    var m := Made(row, [], ss[sid := Recovering([0], at)], spent + {sid}, []);
    Extend(steps, s, Recover(sid, before, at, 1), m);
    assert m.sessions - {sid} == ss;
    assert RecoveredJobs(m.tables.jobs, [0], at) == map[0 := RecoveredRow(row, at)];
    Extend(steps + [Recover(sid, before, at, 1)], m, Commit(sid),
           Made(RecoveredRow(row, at), [], ss, spent + {sid}, []));
  }

  lemma Load(steps: seq<Step>, row: Job, ss: map<SessionId, Session>, spent: set<SessionId>, sid: SessionId)
    requires Execute(Cfg(), steps) == Some(Made(row, [], ss, spent, []))
    requires sid !in spent && row.status.Processing? && row.event == 0
    ensures Execute(Cfg(), steps + [LoadJob(sid, 0)])
            == Some(Made(row, [], ss[sid := Loaded(0, row, 0)], spent + {sid}, []))
  {
    Extend(steps, Made(row, [], ss, spent, []), LoadJob(sid, 0),
           Made(row, [], ss[sid := Loaded(0, row, 0)], spent + {sid}, []));
  }

  /** Maximum read and insert of a completion that loaded its job earlier. */
  lemma ReadAndInsert(steps: seq<Step>, row: Job, rows: seq<Attempt>, ss: map<SessionId, Session>,
                      spent: set<SessionId>, h: seq<Entry>,
                      sid: SessionId, loaded: Job, post: Post, at: int, a: Attempt)
    requires Execute(Cfg(), steps) == Some(Made(row, rows, ss[sid := Loaded(0, loaded, 0)], spent, h))
    requires loaded.event == 0 && Consecutive(rows) && AttemptChecks(a)
    requires RecordAttempt(|rows| + 1, post, 0, at) == Some(a)
    requires forall k | k in ss :: !ss[k].Inserted? && !ss[k].Written?
    ensures Execute(Cfg(), steps + [ReadMaximum(sid)] + [Insert(sid, post, 0, 0, at)])
              == Some(Made(row, rows, ss[sid := Inserted(ByWorker(0, loaded, 0), 0, a)], spent, h))
  {
    NextNumberIsLength(rows);
    var source := ByWorker(0, loaded, 0);
    var s := Made(row, rows, ss[sid := Loaded(0, loaded, 0)], spent, h);
    var m := Made(row, rows, ss[sid := Numbered(source, 0, |rows| + 1)], spent, h);
    assert s.sessions[sid := Numbered(source, 0, |rows| + 1)] == m.sessions;
    Extend(steps, s, ReadMaximum(sid), m);
    var n := Made(row, rows, ss[sid := Inserted(source, 0, a)], spent, h);
    assert m.sessions[sid := Inserted(source, 0, a)] == n.sessions;
    assert DurationMs(0, 0) == 0;
    Extend(steps + [ReadMaximum(sid)], m, Insert(sid, post, 0, 0, at), n);
  }

  /** Job write and commit of that completion. */
  lemma WriteAndCommit(steps: seq<Step>, row: Job, rows: seq<Attempt>, ss: map<SessionId, Session>,
                       spent: set<SessionId>, h: seq<Entry>,
                       sid: SessionId, loaded: Job, a: Attempt, at: int, d: RetryDecision)
    requires Execute(Cfg(), steps) == Some(Made(row, rows, ss[sid := Inserted(ByWorker(0, loaded, 0), 0, a)], spent, h))
    requires sid !in ss && Unlocked(ss)
    requires DecideRetry(a.outcome, loaded.attemptCount + 1, at, 5, OneSecond(), OneSecond(), Cfg().rounding) == Ok(d)
    requires JobChecks(Flushed(row, loaded, CompletedRow(loaded, d, at)))
    ensures Execute(Cfg(), steps + [WriteJob(sid, at)] + [Commit(sid)])
              == Some(Made(Flushed(row, loaded, CompletedRow(loaded, d, at)), rows + [a], ss, spent,
                           h + [Delivered(true, a.outcome)]))
  {
    var source := ByWorker(0, loaded, 0);
    var written := Flushed(row, loaded, CompletedRow(loaded, d, at));
    var s := Made(row, rows, ss[sid := Inserted(source, 0, a)], spent, h);
    var m := Made(row, rows, ss[sid := Written(source, 0, a, written)], spent, h);
    assert Locked(s) == {};
    assert s.sessions[sid := Written(source, 0, a, written)] == m.sessions;
    Extend(steps, s, WriteJob(sid, at), m);
    var n := Made(written, rows + [a], ss, spent, h + [Delivered(true, a.outcome)]);
    CommitWritten(steps + [WriteJob(sid, at)], row, rows, ss, spent, h, sid, source, a, written);
  }

  lemma CommitWritten(steps: seq<Step>, row: Job, rows: seq<Attempt>, ss: map<SessionId, Session>,
                      spent: set<SessionId>, h: seq<Entry>,
                      sid: SessionId, source: Source, a: Attempt, written: Job)
    requires Execute(Cfg(), steps) == Some(Made(row, rows, ss[sid := Written(source, 0, a, written)], spent, h))
    requires sid !in ss && source.ByWorker? && source.id == 0
    ensures Execute(Cfg(), steps + [Commit(sid)])
            == Some(Made(written, rows + [a], ss, spent, h + [Delivered(true, a.outcome)]))
  {
    var m := Made(row, rows, ss[sid := Written(source, 0, a, written)], spent, h);
    assert m.sessions - {sid} == ss;
    assert map[0 := row][0 := written] == map[0 := written];
    assert map[0 := rows][0 := rows + [a]] == map[0 := rows + [a]];
    assert map[0 := h][0 := h + [Delivered(true, a.outcome)]] == map[0 := h + [Delivered(true, a.outcome)]];
    Extend(steps, m, Commit(sid), Made(written, rows + [a], ss, spent, h + [Delivered(true, a.outcome)]));
  }

  const SLOW: map<SessionId, Session> := map[2 := Loaded(0, CLAIMED, 0)]

  lemma AfterOpening()
    ensures Execute(Cfg(), OPENING) == Some(Made(CLAIMED, [], SLOW, {1, 2}, []))
  {
    var s1 := Next(Cfg(), INITIAL, AddEndpoint(0)).value;
    Extend([], INITIAL, AddEndpoint(0), s1);
    var first := [] + [AddEndpoint(0)];
    Extend(first, s1, Ingest(0, 0, 0, 0), Made(NEW, [], map[], {}, []));
    var second := first + [Ingest(0, 0, 0, 0)];
    ClaimAndCommit(second, NEW, map[], {}, 1, 0);
    var third := second + [Claim(1, 0, 1)] + [Commit(1)];
    assert {} + {1} == {1} && {1} + {2} == {1, 2};
    Load(third, CLAIMED, map[], {1}, 2);
    assert third + [LoadJob(2, 0)] == OPENING;
  }

  lemma AfterRecovery()
    ensures Execute(Cfg(), OPENING + RECOVERY) == Some(Made(RECLAIMED, [], SLOW, {1, 2, 3, 4}, []))
  {
    AfterOpening();
    RecoverAndCommit(OPENING, CLAIMED, SLOW, {1, 2}, 3, 0, 10);
    assert {1, 2} + {3} == {1, 2, 3} && {1, 2, 3} + {4} == {1, 2, 3, 4};
    var steps := OPENING + [Recover(3, 0, 10, 1)] + [Commit(3)];
    ClaimAndCommit(steps, RECOVERED, SLOW, {1, 2, 3}, 4, 10);
    assert steps + [Claim(4, 10, 1)] + [Commit(4)] == OPENING + RECOVERY;
  }

  const LOADED: seq<Step> := OPENING + RECOVERY + [LoadJob(5, 0)]
  const READ: seq<Step> := LOADED + [ReadMaximum(5)] + [Insert(5, Response(200), 0, 0, 15)]

  lemma AfterLoad()
    ensures Execute(Cfg(), LOADED) == Some(Made(RECLAIMED, [], SLOW[5 := Loaded(0, RECLAIMED, 0)], {1, 2, 3, 4, 5}, []))
  {
    AfterRecovery();
    Load(OPENING + RECOVERY, RECLAIMED, SLOW, {1, 2, 3, 4}, 5);
    assert {1, 2, 3, 4} + {5} == {1, 2, 3, 4, 5};
  }

  lemma AfterInsert()
    ensures Execute(Cfg(), READ)
              == Some(Made(RECLAIMED, [], SLOW[5 := Inserted(ByWorker(0, RECLAIMED, 0), 0, GOOD)], {1, 2, 3, 4, 5}, []))
  {
    AfterLoad();
    ReadAndInsert(LOADED, RECLAIMED, [], SLOW, {1, 2, 3, 4, 5}, [], 5, RECLAIMED, Response(200), 15, GOOD);
  }

  lemma AfterDelivery()
    ensures Execute(Cfg(), OPENING + RECOVERY + DELIVERY)
              == Some(Made(DELIVERED, [GOOD], SLOW, {1, 2, 3, 4, 5}, [Delivered(true, DeliverySucceeded)]))
  {
    AfterInsert();
    DecisionCases(DeliverySucceeded, 1, 20, 5, OneSecond(), OneSecond(), Cfg().rounding);
    assert Flushed(RECLAIMED, RECLAIMED, CompletedRow(RECLAIMED, MarkSucceeded, 20)) == DELIVERED;
    WriteAndCommit(READ, RECLAIMED, [], SLOW, {1, 2, 3, 4, 5}, [], 5, RECLAIMED, GOOD, 20, MarkSucceeded);
    assert [] + [GOOD] == [GOOD] && [] + [Delivered(true, DeliverySucceeded)] == [Delivered(true, DeliverySucceeded)];
    assert READ + [WriteJob(5, 20)] + [Commit(5)] == OPENING + RECOVERY + DELIVERY;
  }

  lemma AfterLateCompletion()
    ensures Execute(Cfg(), OPENING + RECOVERY + DELIVERY + LATE_COMPLETION)
              == Some(Made(FORGOTTEN, [GOOD, BAD], map[], {1, 2, 3, 4, 5},
                           [Delivered(true, DeliverySucceeded), Delivered(true, DeliveryFailed)]))
  {
    AfterDelivery();
    var delivered := OPENING + RECOVERY + DELIVERY;
    var spent := {1, 2, 3, 4, 5};
    var h := [Delivered(true, DeliverySucceeded)];
    assert map[][2 := Loaded(0, CLAIMED, 0)] == SLOW;
    ReadAndInsert(delivered, DELIVERED, [GOOD], map[], spent, h, 2, CLAIMED, Response(500), 25, BAD);
    var inserted := delivered + [ReadMaximum(2)] + [Insert(2, Response(500), 0, 0, 25)];
    DecisionCases(DeliveryFailed, 1, 30, 5, OneSecond(), OneSecond(), Cfg().rounding);
    assert Flushed(DELIVERED, CLAIMED, CompletedRow(CLAIMED, RetryAt(30), 30)) == FORGOTTEN;
    WriteAndCommit(inserted, DELIVERED, [GOOD], map[], spent, h, 2, CLAIMED, BAD, 30, RetryAt(30));
    assert [GOOD] + [BAD] == [GOOD, BAD];
    assert h + [Delivered(true, DeliveryFailed)]
        == [Delivered(true, DeliverySucceeded), Delivered(true, DeliveryFailed)];
    assert inserted + [WriteJob(2, 30)] + [Commit(2)] == OPENING + RECOVERY + DELIVERY + LATE_COMPLETION;
  }

  /**
   Exactness fails: the event's worker attempts are a success and then a failure, but the row says
   pending with one attempt.  The late completion read the job before the delivery committed and
   the maximum after it.
   */
  lemma DeliveredJobGoesBackToPending()
    ensures var steps := OPENING + RECOVERY + DELIVERY + LATE_COMPLETION;
            && ValidSettings(Cfg()) && IsRun(Cfg(), steps)
            && var s := Execute(Cfg(), steps).value;
            && s.tables.jobs == map[0 := FORGOTTEN]
            && s.tables.attempts == map[0 := [GOOD, BAD]]
            && Cycle(HistoryOf(s, 0)) == [DeliverySucceeded, DeliveryFailed]
            && !AllExact(Cfg(), s)
  {
    AfterLateCompletion();
    var first, second := Delivered(true, DeliverySucceeded), Delivered(true, DeliveryFailed);
    EntryExtends([], first);
    EntryExtends([first], second);
    assert [] + [first] == [first] && [first] + [second] == [first, second];
    assert Cycle([first, second]) == [DeliverySucceeded, DeliveryFailed];
    assert !Exact(Cfg(), FORGOTTEN, [first, second]);
    var s := Execute(Cfg(), OPENING + RECOVERY + DELIVERY + LATE_COMPLETION).value;
    assert 0 in s.tables.jobs && HistoryOf(s, s.tables.jobs[0].event) == [first, second];
  }
}
