/**
 How long a due job can wait, over runs of the protocol: each committed claim that passes it over takes a full
 batch of the jobs ahead of it, and nothing else puts jobs there while later schedules are later than its own.
 */
module ProtocolFairness {
  import opened RetryPolicy
  import opened DeliveryTables
  import opened JobQueue
  import opened Protocol
  import opened ProtocolInvariants
  import opened ProtocolTraces

  /** Job id has been pending from state p to state q, its row untouched. */
  ghost predicate Waiting(cfg: Settings, steps: seq<Step>, p: nat, q: nat, id: JobId)
    requires ValidSettings(cfg) && IsRun(cfg, steps) && p <= q <= |steps|
  {
    && id in StateAt(cfg, steps, p).tables.jobs
    && StateAt(cfg, steps, p).tables.jobs[id].status.Pending?
    && StateAt(cfg, steps, p).tables.jobs[id].nextAttemptAt.Some?
    && (forall m | p <= m <= q ::
          && id in StateAt(cfg, steps, m).tables.jobs
          && StateAt(cfg, steps, m).tables.jobs[id] == StateAt(cfg, steps, p).tables.jobs[id])
  }

  /** One step assigns only next attempts after the given instant. */
  ghost predicate SchedulesLater(was: Jobs, now: Jobs, instant: int) {
    forall j | j in now && now[j].status.Pending? && now[j].nextAttemptAt.Some? ::
      || now[j].nextAttemptAt.value > instant
      || (j in was && was[j].status.Pending? && was[j].nextAttemptAt == now[j].nextAttemptAt)
  }

  /** Every next attempt that steps p to q assign is after the one of job id. */
  ghost predicate OnlyLaterSchedules(cfg: Settings, steps: seq<Step>, p: nat, q: nat, id: JobId)
    requires ValidSettings(cfg) && IsRun(cfg, steps) && p <= q <= |steps| && Waiting(cfg, steps, p, q, id)
  {
    forall m | p <= m < q ::
      SchedulesLater(StateAt(cfg, steps, m).tables.jobs, StateAt(cfg, steps, m + 1).tables.jobs,
                     StateAt(cfg, steps, p).tables.jobs[id].nextAttemptAt.value)
  }

  /** Step o opens a claim that finds job id due and free, and step c commits it. */
  ghost predicate IsClaim(cfg: Settings, steps: seq<Step>, o: nat, c: nat, id: JobId, limit: nat)
    requires ValidSettings(cfg) && IsRun(cfg, steps) && c < |steps|
  {
    && o < c && steps[o].Claim? && steps[o].limit == limit && steps[c] == Commit(steps[o].sid)
    && id in StateAt(cfg, steps, o).tables.jobs && id !in Locked(StateAt(cfg, steps, o))
    && IsDue(StateAt(cfg, steps, o).tables.jobs[id], steps[o].at)
  }

  /** Step c commits a claim, opened no earlier than p, that found job id due and free. */
  ghost predicate CommitsClaim(cfg: Settings, steps: seq<Step>, p: nat, c: nat, id: JobId, limit: nat)
    requires ValidSettings(cfg) && IsRun(cfg, steps) && c < |steps|
  {
    exists o: nat :: p <= o < c && IsClaim(cfg, steps, o, c, id, limit)
  }

  /** How many claims that could have taken job id committed from p to q. */
  ghost function Claims(cfg: Settings, steps: seq<Step>, p: nat, q: nat, id: JobId, limit: nat): nat
    requires ValidSettings(cfg) && IsRun(cfg, steps) && p <= q <= |steps|
  {
    if p == q then 0
    else Claims(cfg, steps, p, q - 1, id, limit) + if CommitsClaim(cfg, steps, p, q - 1, id, limit) then 1 else 0
  }

  // ---------------------------------------------------------------- a claim keeps its rows until it commits

  lemma ClaimIsNotMoved(cfg: Settings, s: State, step: Step, sid: SessionId)
    requires ValidSettings(cfg) && Inv(cfg, s) && Next(cfg, s, step).Some? && sid in s.spent
    requires sid in Next(cfg, s, step).value.sessions
    ensures sid in s.sessions && sid in Next(cfg, s, step).value.spent
    ensures s.sessions[sid].Claiming? ==> Next(cfg, s, step).value.sessions[sid] == s.sessions[sid]
  {
  }

  /** From its opening until just before its commit, a claim and the rows it selected stay as they are. */
  lemma {:induction false} ClaimStands(cfg: Settings, steps: seq<Step>, o: nat, m: nat, c: nat, sid: SessionId)
    requires ValidSettings(cfg) && IsRun(cfg, steps) && o < m <= c < |steps|
    requires steps[o].Claim? && steps[o].sid == sid && sid in StateAt(cfg, steps, c).sessions
    ensures sid in StateAt(cfg, steps, m).sessions && StateAt(cfg, steps, m).sessions[sid].Claiming?
    ensures StateAt(cfg, steps, m).sessions[sid]
              == Claiming(DueJobs(StateAt(cfg, steps, o).tables.jobs, Locked(StateAt(cfg, steps, o)), steps[o].at,
                                  steps[o].limit), steps[o].at)
    decreases m
  {
    hide DueJobs, Inv;
    StateFollows(cfg, steps, m - 1);
    StillOpen(cfg, steps, o, m, c, sid);
    if m - 1 > o {
      StillOpen(cfg, steps, o, m - 1, c, sid);
      ClaimStands(cfg, steps, o, m - 1, c, sid);
      ClaimIsNotMoved(cfg, StateAt(cfg, steps, m - 1), steps[m - 1], sid);
    }
  }

  /** A session that is open later has been open since it was opened: names are not used twice. */
  lemma {:induction false} StillOpen(cfg: Settings, steps: seq<Step>, o: nat, m: nat, c: nat, sid: SessionId)
    requires ValidSettings(cfg) && IsRun(cfg, steps) && o < m <= c < |steps|
    requires steps[o].Claim? && steps[o].sid == sid && sid in StateAt(cfg, steps, c).sessions
    ensures sid in StateAt(cfg, steps, m).sessions && sid in StateAt(cfg, steps, m).spent
    decreases c - m
  {
    hide DueJobs, Inv;
    SpentStays(cfg, steps, o, m, sid);
    if m < c {
      StillOpen(cfg, steps, o, m + 1, c, sid);
      StateFollows(cfg, steps, m);
      ClaimIsNotMoved(cfg, StateAt(cfg, steps, m), steps[m], sid);
    }
  }

  lemma SpentGrows(cfg: Settings, s: State, step: Step)
    requires ValidSettings(cfg) && Next(cfg, s, step).Some?
    ensures s.spent <= Next(cfg, s, step).value.spent
    ensures step.Claim? ==> step.sid in Next(cfg, s, step).value.spent
  {
    hide DueJobs, StaleJobs, ClaimedJobs, RecoveredJobs, DecideRetry;
  }

  lemma {:induction false} SpentStays(cfg: Settings, steps: seq<Step>, o: nat, m: nat, sid: SessionId)
    requires ValidSettings(cfg) && IsRun(cfg, steps) && o < m <= |steps| && steps[o].Claim? && steps[o].sid == sid
    ensures sid in StateAt(cfg, steps, m).spent
    decreases m
  {
    hide Next, Inv;
    StateFollows(cfg, steps, m - 1);
    SpentGrows(cfg, StateAt(cfg, steps, m - 1), steps[m - 1]);
    if m - 1 > o {
      SpentStays(cfg, steps, o, m - 1, sid);
    }
  }

  lemma {:induction false} SelectedRowsStay(cfg: Settings, steps: seq<Step>, o: nat, m: nat, c: nat, sid: SessionId,
                                            j: JobId)
    requires ValidSettings(cfg) && IsRun(cfg, steps) && o < m <= c < |steps|
    requires steps[o].Claim? && steps[o].sid == sid && sid in StateAt(cfg, steps, c).sessions
    requires j in StateAt(cfg, steps, o).tables.jobs
    requires j in DueJobs(StateAt(cfg, steps, o).tables.jobs, Locked(StateAt(cfg, steps, o)), steps[o].at,
                          steps[o].limit)
    ensures j in StateAt(cfg, steps, m).tables.jobs
    ensures StateAt(cfg, steps, m).tables.jobs[j] == StateAt(cfg, steps, o).tables.jobs[j]
    decreases m
  {
    hide DueJobs, Inv, Next;
    StateFollows(cfg, steps, m - 1);
    var s := StateAt(cfg, steps, m - 1);
    if m - 1 > o {
      SelectedRowsStay(cfg, steps, o, m - 1, c, sid, j);
      ClaimStands(cfg, steps, o, m - 1, c, sid);
      ClaimStands(cfg, steps, o, m, c, sid);
      assert steps[m - 1] != Commit(sid) by { CommitCloses(cfg, s, sid); }
      HeldRowsStay(cfg, s, steps[m - 1], sid, j);
    } else {
      OnlyCommitsMoveJobs(cfg, s, steps[o], j);
    }
  }

  lemma CommitCloses(cfg: Settings, s: State, sid: SessionId)
    requires ValidSettings(cfg)
    ensures Next(cfg, s, Commit(sid)).Some? ==> sid !in Next(cfg, s, Commit(sid)).value.sessions
  {
  }

  // ---------------------------------------------------------------- the jobs ahead

  /** A step that assigns only later schedules puts no job ahead. */
  lemma AheadShrinks(cfg: Settings, s: State, step: Step, id: JobId)
    requires ValidSettings(cfg) && Inv(cfg, s) && Next(cfg, s, step).Some?
    requires id in s.tables.jobs && s.tables.jobs[id].nextAttemptAt.Some?
    requires id in Next(cfg, s, step).value.tables.jobs && Next(cfg, s, step).value.tables.jobs[id] == s.tables.jobs[id]
    requires SchedulesLater(s.tables.jobs, Next(cfg, s, step).value.tables.jobs, s.tables.jobs[id].nextAttemptAt.value)
    ensures Ahead(Next(cfg, s, step).value.tables.jobs, id) <= Ahead(s.tables.jobs, id)
  {
    hide Next, Inv;
    var was, now := s.tables.jobs, Next(cfg, s, step).value.tables.jobs;
    forall j | j in Ahead(now, id) ensures j in Ahead(was, id) {
      assert j in was && was[j].status.Pending? && was[j].nextAttemptAt == now[j].nextAttemptAt;
      CreationStays(cfg, s, step, j);
    }
  }

  lemma CreationStays(cfg: Settings, s: State, step: Step, j: JobId)
    requires ValidSettings(cfg) && Inv(cfg, s) && Next(cfg, s, step).Some? && j in s.tables.jobs
    ensures j in Next(cfg, s, step).value.tables.jobs
    ensures Next(cfg, s, step).value.tables.jobs[j].createdAt == s.tables.jobs[j].createdAt
  {
    if step.Commit? {
      CommitMoves(cfg, s, step.sid, j);
    } else {
      OnlyCommitsMoveJobs(cfg, s, step, j);
    }
  }

  lemma SmallerSet(a: set<JobId>, b: set<JobId>)
    requires a <= b
    ensures |a| <= |b|
  {
    assert |b - a| == |b| - |a|;
  }

  lemma TakenFrom(now: set<JobId>, was: set<JobId>, ids: seq<JobId>)
    requires Distinct(ids) && now <= was && forall j | j in ids :: j in was && j !in now
    ensures |now| + |ids| <= |was|
  {
    var taken := set j | j in ids;
    DistinctSize(ids);
    assert now <= was - taken;
    SmallerSet(now, was - taken);
    assert |was - taken| == |was| - |taken|;
  }

  /** A claim that passes a due, free job over has selected a full batch of jobs ahead of it. */
  lemma SelectionIsAhead(jobs: Jobs, locked: set<JobId>, at: int, limit: nat, id: JobId)
    requires id in jobs && id !in locked && IsDue(jobs[id], at) && id !in DueJobs(jobs, locked, at, limit)
    ensures var ids := DueJobs(jobs, locked, at, limit);
            |ids| == limit && Distinct(ids) && forall j | j in ids :: j in Ahead(jobs, id)
  {
    hide DueJobs;
    DueJobsSelection(jobs, locked, at, limit);
  }

  /** The commit of a claim that could have taken job id and did not removes a full batch of the jobs ahead of it. */
  lemma PassingOverConsumes(cfg: Settings, steps: seq<Step>, p: nat, o: nat, c: nat, id: JobId, limit: nat)
    requires ValidSettings(cfg) && IsRun(cfg, steps) && p <= o < c < |steps|
    requires Waiting(cfg, steps, p, c + 1, id) && OnlyLaterSchedules(cfg, steps, p, c + 1, id)
    requires IsClaim(cfg, steps, o, c, id, limit)
    ensures |Ahead(StateAt(cfg, steps, c + 1).tables.jobs, id)| + limit
            <= |Ahead(StateAt(cfg, steps, c).tables.jobs, id)|
  {
    hide DueJobs, Next, Inv;
    var first, s, n := StateAt(cfg, steps, o), StateAt(cfg, steps, c), StateAt(cfg, steps, c + 1);
    var sid := steps[o].sid;
    var ids := DueJobs(first.tables.jobs, Locked(first), steps[o].at, limit);
    StateFollows(cfg, steps, c);
    CommitNeedsSession(cfg, s, sid);
    ClaimStands(cfg, steps, o, c, c, sid);
    AheadShrinks(cfg, s, steps[c], id);
    NotClaimed(cfg, s, sid, id);
    assert s.tables.jobs[id] == first.tables.jobs[id];
    SelectionIsAhead(first.tables.jobs, Locked(first), steps[o].at, limit, id);
    forall j | j in ids ensures j in Ahead(s.tables.jobs, id) && j !in Ahead(n.tables.jobs, id) {
      assert j in Ahead(first.tables.jobs, id);
      SelectedRowsStay(cfg, steps, o, c, c, sid, j);
      CommitTakes(cfg, s, sid, j);
    }
    TakenFrom(Ahead(n.tables.jobs, id), Ahead(s.tables.jobs, id), ids);
  }

  lemma CommitNeedsSession(cfg: Settings, s: State, sid: SessionId)
    requires ValidSettings(cfg) && Next(cfg, s, Commit(sid)).Some?
    ensures sid in s.sessions
  {
  }

  lemma CommitTakes(cfg: Settings, s: State, sid: SessionId, j: JobId)
    requires ValidSettings(cfg) && Inv(cfg, s) && Next(cfg, s, Commit(sid)).Some? && j in s.tables.jobs
    requires sid in s.sessions && s.sessions[sid].Claiming? && j in s.sessions[sid].ids
    ensures var n := Next(cfg, s, Commit(sid)).value; j in n.tables.jobs && n.tables.jobs[j].status.Processing?
  {
    CommitMoves(cfg, s, sid, j);
  }

  /** A job whose row a claim's commit leaves alone was not in the claim. */
  lemma NotClaimed(cfg: Settings, s: State, sid: SessionId, id: JobId)
    requires ValidSettings(cfg) && Inv(cfg, s) && Next(cfg, s, Commit(sid)).Some? && id in s.tables.jobs
    requires sid in s.sessions && s.sessions[sid].Claiming? && s.tables.jobs[id].status.Pending?
    requires id in Next(cfg, s, Commit(sid)).value.tables.jobs
    requires Next(cfg, s, Commit(sid)).value.tables.jobs[id] == s.tables.jobs[id]
    ensures id !in s.sessions[sid].ids
  {
    if id in s.sessions[sid].ids {
      CommitTakes(cfg, s, sid, id);
    }
  }

  // ---------------------------------------------------------------- the bound

  lemma WaitingEarlier(cfg: Settings, steps: seq<Step>, p: nat, m: nat, q: nat, id: JobId)
    requires ValidSettings(cfg) && IsRun(cfg, steps) && p <= m <= q <= |steps|
    requires Waiting(cfg, steps, p, q, id) && OnlyLaterSchedules(cfg, steps, p, q, id)
    ensures Waiting(cfg, steps, p, m, id) && OnlyLaterSchedules(cfg, steps, p, m, id)
  {
  }

  lemma OneMoreBatch(n: nat, limit: nat)
    ensures (n + 1) * limit == n * limit + limit
  {
  }

  /** While a job waits, every claim that could have taken it and has committed took a full batch from ahead of it. */
  lemma {:induction false} NoStarvation(cfg: Settings, steps: seq<Step>, p: nat, q: nat, id: JobId, limit: nat)
    requires ValidSettings(cfg) && IsRun(cfg, steps) && p <= q <= |steps|
    requires Waiting(cfg, steps, p, q, id) && OnlyLaterSchedules(cfg, steps, p, q, id)
    ensures Claims(cfg, steps, p, q, id, limit) * limit + |Ahead(StateAt(cfg, steps, q).tables.jobs, id)|
              <= |Ahead(StateAt(cfg, steps, p).tables.jobs, id)|
    decreases q - p
  {
    hide Next, Inv, Ahead, SchedulesLater;
    if p < q {
      var c := q - 1;
      WaitingEarlier(cfg, steps, p, c, q, id);
      NoStarvation(cfg, steps, p, c, id, limit);
      StateFollows(cfg, steps, c);
      AheadShrinks(cfg, StateAt(cfg, steps, c), steps[c], id);
      SmallerSet(Ahead(StateAt(cfg, steps, q).tables.jobs, id), Ahead(StateAt(cfg, steps, c).tables.jobs, id));
      if CommitsClaim(cfg, steps, p, c, id, limit) {
        var o: nat :| p <= o < c && IsClaim(cfg, steps, o, c, id, limit);
        PassingOverConsumes(cfg, steps, p, o, c, id, limit);
        OneMoreBatch(Claims(cfg, steps, p, c, id, limit), limit);
      }
    }
  }

  /** With k jobs ahead, at most k / limit such claims commit before the job's row changes. */
  lemma ClaimedInTime(cfg: Settings, steps: seq<Step>, p: nat, q: nat, id: JobId, limit: nat)
    requires ValidSettings(cfg) && IsRun(cfg, steps) && p <= q <= |steps| && limit >= 1
    requires Waiting(cfg, steps, p, q, id) && OnlyLaterSchedules(cfg, steps, p, q, id)
    ensures Claims(cfg, steps, p, q, id, limit) <= |Ahead(StateAt(cfg, steps, p).tables.jobs, id)| / limit
  {
    hide Ahead, Claims;
    NoStarvation(cfg, steps, p, q, id, limit);
    Quotient(Claims(cfg, steps, p, q, id, limit), |Ahead(StateAt(cfg, steps, p).tables.jobs, id)|, limit);
  }

  lemma Quotient(n: nat, k: nat, limit: nat)
    requires limit >= 1 && n * limit <= k
    ensures n <= k / limit
  {
    if n > k / limit {
      OneMoreBatch(k / limit, limit);
      Ordered(k / limit + 1, n, limit);
    }
  }

  lemma Ordered(a: nat, b: nat, c: nat)
    requires a <= b
    ensures a * c <= b * c
  {
  }
}
