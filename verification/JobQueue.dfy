/**
 The two bounded, ordered selections over the job table (delivery_job_service.py and
 delivery_job_recovery_service.py).
 The locked set holds the rows that SKIP LOCKED leaves out.
 */
module JobQueue {
  import opened Wrappers
  import opened Ordering
  import opened DeliveryTables

  type Jobs = map<JobId, Job>

  predicate IsDue(job: Job, at: int) {
    job.status.Pending? && job.nextAttemptAt.Some? && job.nextAttemptAt.value <= at
  }

  predicate IsStale(job: Job, before: int) {
    job.status.Processing? && job.updatedAt <= before
  }

  function DueKey(id: JobId, job: Job): Key {
    Key(if job.nextAttemptAt.Some? then job.nextAttemptAt.value else 0, job.createdAt, id)
  }

  function StaleKey(id: JobId, job: Job): Key {
    Key(job.updatedAt, job.createdAt, id)
  }

  function DueKeys(jobs: Jobs, locked: set<JobId>, at: int): set<Key> {
    set j | j in jobs && j !in locked && IsDue(jobs[j], at) :: DueKey(j, jobs[j])
  }

  function StaleKeys(jobs: Jobs, locked: set<JobId>, before: int): set<Key> {
    set j | j in jobs && j !in locked && IsStale(jobs[j], before) :: StaleKey(j, jobs[j])
  }

  function Ids(keys: seq<Key>): (r: seq<JobId>)
    ensures |r| == |keys|
  {
    seq(|keys|, i requires 0 <= i < |keys| => keys[i].tie)
  }

  /** SELECT ... WHERE due ORDER BY next_attempt_at, created_at, id LIMIT limit FOR UPDATE SKIP LOCKED. */
  function DueJobs(jobs: Jobs, locked: set<JobId>, at: int, limit: nat): seq<JobId> {
    Ids(Smallest(DueKeys(jobs, locked, at), limit))
  }

  /** SELECT ... WHERE stale ORDER BY updated_at, created_at, id LIMIT limit FOR UPDATE SKIP LOCKED. */
  function StaleJobs(jobs: Jobs, locked: set<JobId>, before: int, limit: nat): seq<JobId> {
    Ids(Smallest(StaleKeys(jobs, locked, before), limit))
  }

  predicate Distinct(ids: seq<JobId>) {
    forall i, j :: 0 <= i < j < |ids| ==> ids[i] != ids[j]
  }

  lemma IdsKeepMembers(keys: seq<Key>, k: Key)
    ensures k in keys ==> k.tie in Ids(keys)
  {
    if i :| 0 <= i < |keys| && keys[i] == k {
      assert Ids(keys)[i] == k.tie;
    }
  }

  /**
   A claim takes due jobs nobody holds, each once and at most limit of them, in the order of next_attempt_at, then
   created_at, then id; one that it leaves behind comes after all that it takes, and they are limit many.
   */
  lemma DueJobsSelection(jobs: Jobs, locked: set<JobId>, at: int, limit: nat)
    ensures var ids := DueJobs(jobs, locked, at, limit);
            && |ids| <= limit && Distinct(ids)
            && (forall j :: j in ids ==>
                  && j in jobs && j !in locked && jobs[j].status == Pending
                  && jobs[j].nextAttemptAt.Some? && jobs[j].nextAttemptAt.value <= at)
            && (forall i, k :: 0 <= i < k < |ids| ==>
                  var a, b := jobs[ids[i]], jobs[ids[k]];
                  || a.nextAttemptAt.value < b.nextAttemptAt.value
                  || (a.nextAttemptAt.value == b.nextAttemptAt.value && a.createdAt < b.createdAt)
                  || (a.nextAttemptAt.value == b.nextAttemptAt.value && a.createdAt == b.createdAt && ids[i] < ids[k]))
            && (forall j :: j in jobs && j !in locked && jobs[j].status == Pending && jobs[j].nextAttemptAt.Some?
                            && jobs[j].nextAttemptAt.value <= at && j !in ids ==>
                  && |ids| == limit
                  && forall i :: i in ids ==>
                       var a, b := jobs[i], jobs[j];
                       || a.nextAttemptAt.value < b.nextAttemptAt.value
                       || (a.nextAttemptAt.value == b.nextAttemptAt.value && a.createdAt < b.createdAt)
                       || (a.nextAttemptAt.value == b.nextAttemptAt.value && a.createdAt == b.createdAt && i < j))
  {
    var keys := DueKeys(jobs, locked, at);
    var page := Smallest(keys, limit);
    var ids := DueJobs(jobs, locked, at, limit);
    forall i | 0 <= i < |ids|
      ensures ids[i] in jobs && ids[i] !in locked && IsDue(jobs[ids[i]], at) && page[i] == DueKey(ids[i], jobs[ids[i]])
    {
      assert page[i] in keys;
    }
    forall j | j in jobs && j !in locked && IsDue(jobs[j], at) && j !in ids
      ensures |ids| == limit && forall i :: i in ids ==> Before(DueKey(i, jobs[i]), DueKey(j, jobs[j]))
    {
      var k := DueKey(j, jobs[j]);
      assert k in keys;
      IdsKeepMembers(page, k);
      SmallestIsComplete(keys, limit);
    }
  }

  /**
   A recovery takes processing jobs nobody holds that were last updated by the cutoff, each once and at most limit of
   them, in the order of updated_at, then created_at, then id; one that it leaves behind comes after all of them.
   */
  lemma StaleJobsSelection(jobs: Jobs, locked: set<JobId>, before: int, limit: nat)
    ensures var ids := StaleJobs(jobs, locked, before, limit);
            && |ids| <= limit && Distinct(ids)
            && (forall j :: j in ids ==>
                  j in jobs && j !in locked && jobs[j].status == Processing && jobs[j].updatedAt <= before)
            && (forall i, k :: 0 <= i < k < |ids| ==>
                  var a, b := jobs[ids[i]], jobs[ids[k]];
                  || a.updatedAt < b.updatedAt
                  || (a.updatedAt == b.updatedAt && a.createdAt < b.createdAt)
                  || (a.updatedAt == b.updatedAt && a.createdAt == b.createdAt && ids[i] < ids[k]))
            && (forall j :: j in jobs && j !in locked && jobs[j].status == Processing && jobs[j].updatedAt <= before
                            && j !in ids ==>
                  && |ids| == limit
                  && forall i :: i in ids ==>
                       var a, b := jobs[i], jobs[j];
                       || a.updatedAt < b.updatedAt
                       || (a.updatedAt == b.updatedAt && a.createdAt < b.createdAt)
                       || (a.updatedAt == b.updatedAt && a.createdAt == b.createdAt && i < j))
  {
    var keys := StaleKeys(jobs, locked, before);
    var page := Smallest(keys, limit);
    var ids := StaleJobs(jobs, locked, before, limit);
    forall i | 0 <= i < |ids|
      ensures ids[i] in jobs && ids[i] !in locked && IsStale(jobs[ids[i]], before)
      ensures page[i] == StaleKey(ids[i], jobs[ids[i]])
    {
      assert page[i] in keys;
    }
    forall j | j in jobs && j !in locked && IsStale(jobs[j], before) && j !in ids
      ensures |ids| == limit && forall i :: i in ids ==> Before(StaleKey(i, jobs[i]), StaleKey(j, jobs[j]))
    {
      var k := StaleKey(j, jobs[j]);
      assert k in keys;
      IdsKeepMembers(page, k);
      SmallestIsComplete(keys, limit);
    }
  }

  // ---------------------------------------------------------------- the batch writes

  function ClaimedJobs(jobs: Jobs, ids: seq<JobId>, at: int): (r: Jobs)
    ensures r.Keys == jobs.Keys
    ensures forall j :: j in jobs && j !in ids ==> r[j] == jobs[j]
    ensures forall j :: j in jobs && j in ids ==>
              var was := jobs[j];
              r[j] == Job(was.event, Processing, was.nextAttemptAt, was.attemptCount, was.createdAt, at)
  {
    map j | j in jobs :: if j in ids then ClaimedRow(jobs[j], at) else jobs[j]
  }

  function RecoveredJobs(jobs: Jobs, ids: seq<JobId>, at: int): (r: Jobs)
    ensures r.Keys == jobs.Keys
    ensures forall j :: j in jobs && j !in ids ==> r[j] == jobs[j]
    ensures forall j :: j in jobs && j in ids ==>
              r[j] == Job(jobs[j].event, Pending, Some(at), jobs[j].attemptCount, jobs[j].createdAt, at)
  {
    map j | j in jobs :: if j in ids then RecoveredRow(jobs[j], at) else jobs[j]
  }

  /** The pending jobs that a claim prefers to job id. */
  function Ahead(jobs: Jobs, id: JobId): set<JobId>
    requires id in jobs
  {
    set j | j in jobs && jobs[j].status.Pending? && jobs[j].nextAttemptAt.Some?
            && Before(DueKey(j, jobs[j]), DueKey(id, jobs[id]))
  }

  lemma {:induction false} DistinctSize(ids: seq<JobId>)
    requires Distinct(ids)
    ensures |set j | j in ids| == |ids|
  {
    if ids != [] {
      var init, last := ids[..|ids| - 1], ids[|ids| - 1];
      DistinctSize(init);
      assert (set j | j in ids) == (set j | j in init) + {last};
    }
  }
}
