/**
 What a committed completion leaves in its job's row, over runs: from the flush of the row to the commit nobody else
 changes it, and its columns are those of the outcome, the delay formula and the instant of the decision.
 */
module ProtocolCompletions {
  import opened Wrappers
  import opened RetryPolicy
  import opened DeliveryTables
  import opened Protocol
  import opened ProtocolInvariants
  import opened ProtocolTraces

  lemma WrittenIsNotMoved(cfg: Settings, s: State, step: Step, sid: SessionId)
    requires ValidSettings(cfg) && Inv(cfg, s) && Next(cfg, s, step).Some?
    requires sid in s.sessions && s.sessions[sid].Written?
    ensures sid in Next(cfg, s, step).value.spent
    ensures var n := Next(cfg, s, step).value;
            sid in n.sessions ==> n.sessions[sid] == s.sessions[sid] && step != Commit(sid)
  {
  }

  /** What the flush of the job row does: it holds the row, and has the columns of the decision in its session. */
  lemma FlushOpens(cfg: Settings, s: State, sid: SessionId, decisionAt: int)
    requires ValidSettings(cfg) && Next(cfg, s, WriteJob(sid, decisionAt)).Some?
    ensures sid in s.sessions && s.sessions[sid].Inserted? && s.sessions[sid].source.ByWorker?
    ensures var n, prior := Next(cfg, s, WriteJob(sid, decisionAt)).value, s.sessions[sid];
            && prior.source.id in s.tables.jobs
            && n.tables == s.tables && sid in n.sessions && n.sessions[sid].Written?
            && n.sessions[sid].source == prior.source && n.sessions[sid].event == prior.event
            && n.sessions[sid].attempt == prior.attempt
            && var loaded := prior.source.loaded;
               var d := DecideRetry(prior.attempt.outcome, loaded.attemptCount + 1, decisionAt,
                                    cfg.maxAttempts, cfg.baseDelay, cfg.maxDelay, cfg.rounding);
               && d.Ok?
               && n.sessions[sid].row
                  == Flushed(s.tables.jobs[prior.source.id], loaded, CompletedRow(loaded, d.value, decisionAt))
  {
  }

  /** Between the flush and the commit both the session and the row stay as they are. */
  lemma {:induction false} WrittenStands(cfg: Settings, steps: seq<Step>, w: nat, m: nat, k: nat, sid: SessionId)
    requires ValidSettings(cfg) && IsRun(cfg, steps) && w < m <= k < |steps|
    requires steps[w].WriteJob? && steps[w].sid == sid && sid in StateAt(cfg, steps, k).sessions
    ensures var first, now := StateAt(cfg, steps, w + 1), StateAt(cfg, steps, m);
            && sid in first.sessions && first.sessions[sid].Written? && first.sessions[sid].source.ByWorker?
            && first.sessions[sid].source.id in first.tables.jobs
            && sid in now.sessions && now.sessions[sid] == first.sessions[sid]
            && first.sessions[sid].source.id in now.tables.jobs
            && now.tables.jobs[first.sessions[sid].source.id] == first.tables.jobs[first.sessions[sid].source.id]
    decreases m
  {
    hide Next, Inv;
    if m == w + 1 {
      StateFollows(cfg, steps, w);
      FlushOpens(cfg, StateAt(cfg, steps, w), sid, steps[w].decisionAt);
    } else {
      var s := StateAt(cfg, steps, m - 1);
      WrittenStands(cfg, steps, w, m - 1, k, sid);
      StateFollows(cfg, steps, m - 1);
      WrittenIsNotMoved(cfg, s, steps[m - 1], sid);
      RunGrows(cfg, steps, m, k, sid);
      HeldRowsStay(cfg, s, steps[m - 1], sid, s.sessions[sid].source.id);
    }
  }

  /**
   The row that a completion commits, from the row it met, the job it had loaded, the outcome of its attempt and the
   instant of its decision.  Columns equal to the loaded ones are not sent; the others are the decision's.
   */
  lemma CompletionInRun(cfg: Settings, steps: seq<Step>, w: nat, k: nat, sid: SessionId, decisionAt: int)
    requires ValidSettings(cfg) && IsRun(cfg, steps) && w < k < |steps|
    requires steps[w] == WriteJob(sid, decisionAt) && steps[k] == Commit(sid)
    ensures var s := StateAt(cfg, steps, w);
            && sid in s.sessions && s.sessions[sid].Inserted? && s.sessions[sid].source.ByWorker?
            && s.sessions[sid].source.id in s.tables.jobs
            && s.sessions[sid].source.id in StateAt(cfg, steps, k).tables.jobs
            && s.sessions[sid].source.id in StateAt(cfg, steps, k + 1).tables.jobs
            && cfg.baseDelay.Positive? && cfg.maxDelay.Positive? && s.sessions[sid].source.loaded.attemptCount >= 0
    ensures var session := StateAt(cfg, steps, w).sessions[sid];
            var id, loaded := session.source.id, session.source.loaded;
            var row, now := StateAt(cfg, steps, k).tables.jobs[id], StateAt(cfg, steps, k + 1).tables.jobs[id];
            var n := loaded.attemptCount + 1;
            var wait := cfg.rounding(Least(Units(cfg.baseDelay.value) * Pow2(n - 1), Units(cfg.maxDelay.value)));
            var retries := session.attempt.outcome == DeliveryFailed && n < cfg.maxAttempts;
            var instant := if retries then Some(decisionAt + wait) else None;
            && row == StateAt(cfg, steps, w).tables.jobs[id]
            && now.event == row.event && now.createdAt == row.createdAt && now.attemptCount == n
            && now.status == (if session.attempt.outcome == DeliverySucceeded then Succeeded
                              else if retries then Pending else DeadLetter)
            && now.nextAttemptAt == (if instant == loaded.nextAttemptAt then row.nextAttemptAt else instant)
            && now.updatedAt == (if decisionAt == loaded.updatedAt then row.updatedAt else decisionAt)
  {
    hide Next, Inv, Flushed, CompletedRow, DecideRetry, Units, Least, Pow2;
    var s, at := StateAt(cfg, steps, w), StateAt(cfg, steps, k);
    StateFollows(cfg, steps, w);
    StateFollows(cfg, steps, k);
    FlushOpens(cfg, s, sid, decisionAt);
    CommitNeedsSession(cfg, at, sid);
    WrittenStands(cfg, steps, w, k, k, sid);
    LoadedWasProcessing(cfg, s, sid);
    var session := s.sessions[sid];
    FlushedColumns(cfg, s.tables.jobs[session.source.id], session.source.loaded, session.attempt.outcome, decisionAt);
    CommitWrites(cfg, at, sid, session.source.id);
  }

  lemma CommitNeedsSession(cfg: Settings, s: State, sid: SessionId)
    requires ValidSettings(cfg) && Next(cfg, s, Commit(sid)).Some?
    ensures sid in s.sessions
  {
  }

  lemma LoadedWasProcessing(cfg: Settings, s: State, sid: SessionId)
    requires Inv(cfg, s) && sid in s.sessions && s.sessions[sid].Inserted? && s.sessions[sid].source.ByWorker?
    ensures s.sessions[sid].source.loaded.status.Processing?
  {
    assert SessionOk(cfg, s.tables, s.sessions[sid]);
  }

  lemma CommitWrites(cfg: Settings, s: State, sid: SessionId, id: JobId)
    requires ValidSettings(cfg) && Inv(cfg, s) && Next(cfg, s, Commit(sid)).Some? && id in s.tables.jobs
    requires sid in s.sessions && s.sessions[sid].Written? && s.sessions[sid].source.ByWorker?
    requires s.sessions[sid].source.id == id
    ensures var n := Next(cfg, s, Commit(sid)).value; id in n.tables.jobs && n.tables.jobs[id] == s.sessions[sid].row
  {
    CommitMoves(cfg, s, sid, id);
  }
}
