/** The aggregate queue summary (operations_service.py) and how it agrees with what claims and recoveries take. */
module Operations {
  import opened Wrappers
  import opened Ordering
  import opened DeliveryTables
  import opened JobQueue

  datatype Counts = Counts(pending: nat, processing: nat, succeeded: nat, deadLetter: nat, duePending: nat,
                           staleProcessing: nat)

  datatype Summary = Summary(generatedAt: int, counts: Counts, oldestDuePendingAt: Option<int>,
                             oldestProcessingUpdatedAt: Option<int>, staleProcessingBefore: int)

  function InStatus(jobs: Jobs, status: Status): set<JobId> {
    set j | j in jobs && jobs[j].status == status
  }

  function DuePending(jobs: Jobs, at: int): set<JobId> {
    set j | j in jobs && IsDue(jobs[j], at)
  }

  /** Strictly older than the cutoff, where recovery's cutoff is inclusive. */
  function StaleProcessing(jobs: Jobs, before: int): set<JobId> {
    set j | j in jobs && jobs[j].status.Processing? && jobs[j].updatedAt < before
  }

  function OnBoundary(jobs: Jobs, before: int): set<JobId> {
    set j | j in jobs && jobs[j].status.Processing? && jobs[j].updatedAt == before
  }

  /** min(column) over the keys whose major part is the column; None on no rows. */
  function Minimum(keys: set<Key>): (m: Option<int>)
    ensures m.None? <==> keys == {}
    ensures m.Some? ==> exists k :: k in keys && k.major == m.value
    ensures m.Some? ==> forall k :: k in keys ==> m.value <= k.major
  {
    if keys == {} then None else Some(Least(keys).major)
  }

  function ProcessingKeys(jobs: Jobs): set<Key> {
    set j | j in jobs && jobs[j].status.Processing? :: StaleKey(j, jobs[j])
  }

  function Summarize(jobs: Jobs, generatedAt: int, staleAfter: nat): Summary {
    var before := generatedAt - staleAfter;
    Summary(generatedAt,
            Counts(|InStatus(jobs, Pending)|, |InStatus(jobs, Processing)|, |InStatus(jobs, Succeeded)|,
                   |InStatus(jobs, DeadLetter)|,
                   |DuePending(jobs, generatedAt)|, |StaleProcessing(jobs, before)|),
            Minimum(DueKeys(jobs, {}, generatedAt)), Minimum(ProcessingKeys(jobs)), before)
  }

  /** What each number and instant of the summary is of, in terms of the table's columns. */
  lemma SummaryColumns(jobs: Jobs, at: int, staleAfter: nat)
    ensures var s := Summarize(jobs, at, staleAfter);
            && s.generatedAt == at && s.staleProcessingBefore == at - staleAfter
            && s.counts.pending == |set j | j in jobs && jobs[j].status == Pending|
            && s.counts.processing == |set j | j in jobs && jobs[j].status == Processing|
            && s.counts.succeeded == |set j | j in jobs && jobs[j].status == Succeeded|
            && s.counts.deadLetter == |set j | j in jobs && jobs[j].status == DeadLetter|
            && s.counts.duePending == |set j | j in jobs && jobs[j].status == Pending && jobs[j].nextAttemptAt.Some?
                                              && jobs[j].nextAttemptAt.value <= at|
            && s.counts.staleProcessing
               == |set j | j in jobs && jobs[j].status == Processing && jobs[j].updatedAt < at - staleAfter|
  {
    assert InStatus(jobs, Pending) == set j | j in jobs && jobs[j].status == Pending;
    assert InStatus(jobs, Processing) == set j | j in jobs && jobs[j].status == Processing;
    assert InStatus(jobs, Succeeded) == set j | j in jobs && jobs[j].status == Succeeded;
    assert InStatus(jobs, DeadLetter) == set j | j in jobs && jobs[j].status == DeadLetter;
    var due := set j | j in jobs && jobs[j].status == Pending && jobs[j].nextAttemptAt.Some?
                       && jobs[j].nextAttemptAt.value <= at;
    forall j: JobId ensures j in due <==> j in DuePending(jobs, at) {
    }
    assert DuePending(jobs, at) == due;
    assert StaleProcessing(jobs, at - staleAfter)
        == set j | j in jobs && jobs[j].status == Processing && jobs[j].updatedAt < at - staleAfter;
  }

  lemma DisjointSizes(a: set<JobId>, b: set<JobId>)
    requires a !! b
    ensures |a + b| == |a| + |b|
  {
  }

  /** The four status counts add up to the table. */
  lemma CountsAddUp(jobs: Jobs, at: int, staleAfter: nat)
    ensures var c := Summarize(jobs, at, staleAfter).counts;
            c.pending + c.processing + c.succeeded + c.deadLetter == |jobs|
  {
    var p, q := InStatus(jobs, Pending), InStatus(jobs, Processing);
    var r, s := InStatus(jobs, Succeeded), InStatus(jobs, DeadLetter);
    DisjointSizes(p, q);
    DisjointSizes(p + q, r);
    DisjointSizes(p + q + r, s);
    forall j ensures j in p + q + r + s <==> j in jobs.Keys {
      if j in jobs {
        var status := jobs[j].status;
        assert status.Pending? || status.Processing? || status.Succeeded? || status.DeadLetter?;
      }
    }
    assert p + q + r + s == jobs.Keys;
  }

  /** A selection that leaves something behind only once it holds n members, out of at most n, leaves nothing behind. */
  lemma AllTaken(taken: set<JobId>, wanted: set<JobId>, n: nat)
    requires taken <= wanted && |wanted| <= n
    requires forall j :: j in wanted && j !in taken ==> |taken| == n
    ensures taken == wanted
  {
    assert |wanted - taken| == |wanted| - |taken|;
    if |taken| == n {
      SubsetOfEqualSize(taken, wanted);
    } else {
      forall j: JobId ensures j in taken <==> j in wanted {
      }
    }
  }

  lemma WholeSelection(jobs: Jobs, ids: seq<JobId>, wanted: set<JobId>)
    requires Distinct(ids) && wanted <= jobs.Keys
    requires forall j :: j in ids ==> j in wanted
    requires forall j :: j in wanted && j !in ids ==> |ids| == |jobs|
    ensures (set j | j in ids) == wanted && |ids| == |wanted|
  {
    var taken := set j | j in ids;
    DistinctSize(ids);
    assert |jobs.Keys - wanted| == |jobs| - |wanted|;
    AllTaken(taken, wanted, |jobs|);
  }

  lemma EarliestDue(jobs: Jobs, at: int, ids: seq<JobId>)
    requires forall j :: j in ids ==> j in jobs && IsDue(jobs[j], at)
    requires forall j :: j in DuePending(jobs, at) ==> j in ids
    requires forall i, k :: 0 <= i < k < |ids| ==> Before(DueKey(ids[i], jobs[ids[i]]), DueKey(ids[k], jobs[ids[k]]))
    ensures ids == [] ==> Minimum(DueKeys(jobs, {}, at)) == None
    ensures ids != [] ==> ids[0] in ids && Minimum(DueKeys(jobs, {}, at)) == jobs[ids[0]].nextAttemptAt
  {
    var keys := DueKeys(jobs, {}, at);
    forall k | k in keys
      ensures ids != [] && ids[0] in ids && jobs[ids[0]].nextAttemptAt.Some?
      ensures jobs[ids[0]].nextAttemptAt.value <= k.major
    {
      var j :| j in jobs && IsDue(jobs[j], at) && k == DueKey(j, jobs[j]);
      assert j in DuePending(jobs, at);
      var i :| 0 <= i < |ids| && ids[i] == j;
      assert ids[0] in ids;
    }
    if ids != [] {
      assert ids[0] in ids;
      assert DueKey(ids[0], jobs[ids[0]]) in keys;
    }
  }

  /**
   due_pending counts exactly the jobs a claim at that instant takes when its limit is large enough; its oldest is due
   first.
   */
  lemma DueCountIsTheUnboundedClaim(jobs: Jobs, at: int, staleAfter: nat)
    ensures var s, ids := Summarize(jobs, at, staleAfter), DueJobs(jobs, {}, at, |jobs|);
            && s.counts.duePending == |ids|
            && (set j | j in ids) == DuePending(jobs, at)
            && (s.oldestDuePendingAt.None? <==> s.counts.duePending == 0)
            && (ids != [] ==> ids[0] in jobs && s.oldestDuePendingAt == jobs[ids[0]].nextAttemptAt)
  {
    hide DueJobs, Minimum;
    var ids := DueJobs(jobs, {}, at, |jobs|);
    DueJobsSelection(jobs, {}, at, |jobs|);
    WholeSelection(jobs, ids, DuePending(jobs, at));
    assert forall j :: j in ids <==> j in (set k | k in ids);
    EarliestDue(jobs, at, ids);
    if ids != [] {
      assert ids[0] in ids;
    }
  }

  lemma RecoverableSet(jobs: Jobs, before: int)
    ensures var ids := StaleJobs(jobs, {}, before, |jobs|);
            var stale, boundary := StaleProcessing(jobs, before), OnBoundary(jobs, before);
            (set j | j in ids) == stale + boundary && |ids| == |stale| + |boundary|
  {
    hide StaleJobs;
    var ids := StaleJobs(jobs, {}, before, |jobs|);
    StaleJobsSelection(jobs, {}, before, |jobs|);
    var stale, boundary := StaleProcessing(jobs, before), OnBoundary(jobs, before);
    WholeSelection(jobs, ids, stale + boundary);
    DisjointSizes(stale, boundary);
  }

  /** An unbounded recovery takes the stale jobs of the summary and the ones exactly on the cutoff. */
  lemma RecoverableIsStalePlusBoundary(jobs: Jobs, at: int, staleAfter: nat)
    ensures var s := Summarize(jobs, at, staleAfter);
            var ids := StaleJobs(jobs, {}, s.staleProcessingBefore, |jobs|);
            && |ids| == s.counts.staleProcessing + |OnBoundary(jobs, s.staleProcessingBefore)|
            && (set j | j in ids)
                == StaleProcessing(jobs, s.staleProcessingBefore) + OnBoundary(jobs, s.staleProcessingBefore)
  {
    hide StaleJobs, InStatus, DuePending, Minimum, DueKeys, ProcessingKeys, StaleProcessing, OnBoundary;
    RecoverableSet(jobs, at - staleAfter);
  }

  /** The oldest processing time is absent exactly when nothing is processing, and else attained and least. */
  lemma OldestProcessing(jobs: Jobs, at: int, staleAfter: nat)
    ensures var s := Summarize(jobs, at, staleAfter);
            && (s.oldestProcessingUpdatedAt.None? <==> s.counts.processing == 0)
            && (s.oldestProcessingUpdatedAt.Some? ==>
                  && (exists j :: j in jobs && jobs[j].status.Processing?
                                  && jobs[j].updatedAt == s.oldestProcessingUpdatedAt.value)
                  && (forall j :: j in jobs && jobs[j].status.Processing? ==>
                        s.oldestProcessingUpdatedAt.value <= jobs[j].updatedAt))
  {
    var keys := ProcessingKeys(jobs);
    forall j | j in jobs && jobs[j].status.Processing?
      ensures StaleKey(j, jobs[j]) in keys && j in InStatus(jobs, Processing)
    {
    }
    if keys != {} {
      var k :| k in keys && k.major == Minimum(keys).value;
      var j :| j in jobs && jobs[j].status.Processing? && k == StaleKey(j, jobs[j]);
      assert j in InStatus(jobs, Processing);
    } else {
      assert InStatus(jobs, Processing) == {};
    }
  }
}
