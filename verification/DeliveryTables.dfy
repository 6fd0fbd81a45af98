/**
 The four tables of models.py, their CHECK constraints, and what each service does to one row:
 outcome classification and attempt numbering (delivery_service.py), and the claim, recovery,
 replay and completion writes.  Instants are integers, in microseconds.
 */
module DeliveryTables {
  import opened Wrappers
  import opened RetryPolicy

  type EndpointId = int
  type EventId = int
  type JobId = int

  datatype Status = Pending | Processing | Succeeded | DeadLetter

  datatype Job = Job(event: EventId, status: Status, nextAttemptAt: Option<int>, attemptCount: int,
                     createdAt: int, updatedAt: int)

  datatype FailureText = TimedOut | RequestFailed(errorTypeName: string) | ReturnedStatus(code: int)

  datatype Attempt = Attempt(number: int, outcome: Outcome, responseStatus: Option<int>,
                             error: Option<FailureText>, durationMs: int, attemptedAt: int)

  /** endpoints maps to is_active; the attempt rows of an event are listed in commit order. */
  datatype Tables = Tables(endpoints: map<EndpointId, bool>, events: map<EventId, EndpointId>,
                           jobs: map<JobId, Job>, attempts: map<EventId, seq<Attempt>>)

  datatype Settings = Settings(maxAttempts: int, baseDelay: Number, maxDelay: Number, rounding: Rounding)

  predicate ValidSettings(cfg: Settings) {
    cfg.maxAttempts >= 1 && ValidNumber(cfg.baseDelay) && ValidNumber(cfg.maxDelay)
  }

  predicate Active(status: Status) {
    status.Pending? || status.Processing?
  }

  // ---------------------------------------------------------------- constraints the database enforces

  predicate JobChecks(job: Job) {
    && (Active(job.status) <==> job.nextAttemptAt.Some?)
    && job.attemptCount >= 0
  }

  predicate AttemptChecks(a: Attempt) {
    && a.number > 0
    && (a.responseStatus.Some? ==> 100 <= a.responseStatus.value <= 599)
    && a.durationMs >= 0
  }

  function AttemptsOf(t: Tables, event: EventId): seq<Attempt> {
    if event in t.attempts then t.attempts[event] else []
  }

  /** UNIQUE(event_id, attempt_number), for one event. */
  predicate NumberTaken(rows: seq<Attempt>, number: int) {
    exists i :: 0 <= i < |rows| && rows[i].number == number
  }

  // ---------------------------------------------------------------- one delivery

  /** What post_json does: a response, a timeout, a transport error, or an unexpected exception. */
  datatype Post = Response(code: int) | Timeout | TransportError(errorTypeName: string) | UnexpectedError

  /** SELECT max(attempt_number); None on no rows. */
  function MaximumNumber(rows: seq<Attempt>): (r: Option<int>)
    ensures r.None? <==> rows == []
    ensures r.Some? ==> NumberTaken(rows, r.value)
    ensures r.Some? ==> forall i :: 0 <= i < |rows| ==> rows[i].number <= r.value
  {
    if rows == [] then None
    else
      var last := rows[|rows| - 1].number;
      var rest := MaximumNumber(rows[..|rows| - 1]);
      if rest.Some? && rest.value > last then
        assert forall i :: 0 <= i < |rows| - 1 ==> rows[i] == rows[..|rows| - 1][i];
        rest
      else
        assert rows[|rows| - 1].number == last;
        assert forall i :: 0 <= i < |rows| - 1 ==> rows[i] == rows[..|rows| - 1][i];
        Some(last)
  }

  function NextNumber(rows: seq<Attempt>): int {
    var maximum := MaximumNumber(rows);
    if maximum.None? then 1 else maximum.value + 1
  }

  /** duration_ms: whole milliseconds between two nanosecond readings, never negative. */
  function DurationMs(startedNs: int, finishedNs: int): int {
    var elapsed := (finishedNs - startedNs) / 1_000_000;
    if elapsed < 0 then 0 else elapsed
  }

  /** The attempt row of a finished post; None when the exception propagates. */
  function RecordAttempt(number: int, post: Post, durationMs: int, attemptedAt: int): Option<Attempt> {
    match post
    case Response(code) =>
      if 200 <= code <= 299 then
        Some(Attempt(number, DeliverySucceeded, Some(code), None, durationMs, attemptedAt))
      else
        Some(Attempt(number, DeliveryFailed, Some(code), Some(ReturnedStatus(code)), durationMs, attemptedAt))
    case Timeout =>
      Some(Attempt(number, DeliveryFailed, None, Some(TimedOut), durationMs, attemptedAt))
    case TransportError(name) =>
      Some(Attempt(number, DeliveryFailed, None, Some(RequestFailed(name)), durationMs, attemptedAt))
    case UnexpectedError => None
  }

  /** The endpoint of an event, when the delivery or replay may use it. */
  predicate Deliverable(t: Tables, event: EventId) {
    && event in t.events
    && t.events[event] in t.endpoints
    && t.endpoints[t.events[event]]
  }

  // ---------------------------------------------------------------- row writes

  function NewJob(event: EventId, now: int): Job {
    Job(event, Pending, Some(now), 0, now, now)
  }

  function ClaimedRow(job: Job, at: int): Job {
    job.(status := Processing, updatedAt := at)
  }

  function RecoveredRow(job: Job, at: int): Job {
    job.(status := Pending, nextAttemptAt := Some(at), updatedAt := at)
  }

  function ReplayedRow(job: Job, at: int): Job {
    job.(status := Pending, nextAttemptAt := Some(at), updatedAt := at, attemptCount := 0)
  }

  function DecisionStatus(d: RetryDecision): Status {
    match d
    case MarkSucceeded => Succeeded
    case MarkDeadLetter => DeadLetter
    case RetryAt(_) => Pending
  }

  function DecisionInstant(d: RetryDecision): Option<int> {
    match d
    case RetryAt(instant) => Some(instant)
    case _ => None
  }

  /** The four fields a completion assigns to the job object it loaded. */
  function CompletedRow(loaded: Job, d: RetryDecision, decisionAt: int): Job {
    loaded.(attemptCount := loaded.attemptCount + 1, status := DecisionStatus(d),
            nextAttemptAt := DecisionInstant(d), updatedAt := decisionAt)
  }

  /**
   The UPDATE that flushing the assigned object issues: only the columns whose value differs from
   the loaded one are sent, and they land on whatever the row holds by then.
   */
  function Flushed(row: Job, loaded: Job, target: Job): Job {
    Job(row.event,
        if target.status == loaded.status then row.status else target.status,
        if target.nextAttemptAt == loaded.nextAttemptAt then row.nextAttemptAt else target.nextAttemptAt,
        if target.attemptCount == loaded.attemptCount then row.attemptCount else target.attemptCount,
        row.createdAt,
        if target.updatedAt == loaded.updatedAt then row.updatedAt else target.updatedAt)
  }

  // ---------------------------------------------------------------- what the services keep in a row

  /** The budget rules no constraint states: active strictly below the limit, dead_letter exactly at it. */
  predicate JobRules(cfg: Settings, job: Job) {
    && JobChecks(job)
    && 0 <= job.attemptCount <= cfg.maxAttempts
    && (Active(job.status) ==> job.attemptCount < cfg.maxAttempts)
    && (job.status.DeadLetter? ==> job.attemptCount == cfg.maxAttempts)
    && (job.status.Succeeded? ==> job.attemptCount >= 1)
  }

  /** Numbers 1 .. n in commit order. */
  predicate Consecutive(rows: seq<Attempt>) {
    forall i :: 0 <= i < |rows| ==> rows[i].number == i + 1
  }

  /** On consecutive rows, max + 1 is the length plus one, and exactly the larger numbers are free. */
  lemma NextNumberIsLength(rows: seq<Attempt>)
    requires Consecutive(rows)
    ensures NextNumber(rows) == |rows| + 1
    ensures forall n :: 1 <= n ==> (NumberTaken(rows, n) <==> n <= |rows|)
  {
    if rows != [] {
      var m := MaximumNumber(rows).value;
      assert rows[|rows| - 1].number == |rows|;
    }
    forall n | 1 <= n ensures NumberTaken(rows, n) <==> n <= |rows| {
      if n <= |rows| { assert rows[n - 1].number == n; }
    }
  }

  /**
   A delivery is a success exactly on a 2xx response; each failure has its own text; the row has what was posted and
   measured, and passes its own checks when the status does.
   */
  lemma ClassificationIsExact(number: int, post: Post, startedNs: int, finishedNs: int, at: int)
    requires number > 0
    ensures var a := RecordAttempt(number, post, DurationMs(startedNs, finishedNs), at);
            && (a.None? <==> post.UnexpectedError?)
            && (a.Some? ==>
                  && a.value.number == number && a.value.attemptedAt == at
                  && (a.value.outcome == DeliverySucceeded <==> post.Response? && 200 <= post.code <= 299)
                  && (a.value.outcome == DeliverySucceeded <==> a.value.error.None?)
                  && (a.value.responseStatus == if post.Response? then Some(post.code) else None)
                  && (AttemptChecks(a.value) <==> (post.Response? ==> 100 <= post.code <= 599)))
            && (a.Some? ==>
                  match post
                  case Response(code) => 200 <= code <= 299 || a.value.error == Some(ReturnedStatus(code))
                  case Timeout => a.value.error == Some(TimedOut)
                  case TransportError(name) => a.value.error == Some(RequestFailed(name))
                  case UnexpectedError => false)
            && (a.Some? ==>
                  if finishedNs < startedNs then a.value.durationMs == 0
                  else 0 <= finishedNs - startedNs - a.value.durationMs * 1_000_000 < 1_000_000)
  {
  }

  /**
   The columns a flushed completion leaves in a row, from the job it loaded, the outcome and the instant of the
   decision: the wait is the delay formula's, and only what differs from the loaded job is sent.
   */
  lemma FlushedColumns(cfg: Settings, row: Job, loaded: Job, outcome: Outcome, decisionAt: int)
    requires ValidNumber(cfg.baseDelay) && ValidNumber(cfg.maxDelay) && loaded.status.Processing?
    requires DecideRetry(outcome, loaded.attemptCount + 1, decisionAt, cfg.maxAttempts, cfg.baseDelay, cfg.maxDelay,
                         cfg.rounding).Ok?
    ensures cfg.baseDelay.Positive? && cfg.maxDelay.Positive? && loaded.attemptCount >= 0
    ensures var d := DecideRetry(outcome, loaded.attemptCount + 1, decisionAt, cfg.maxAttempts, cfg.baseDelay,
                                 cfg.maxDelay, cfg.rounding).value;
            var written := Flushed(row, loaded, CompletedRow(loaded, d, decisionAt));
            var n := loaded.attemptCount + 1;
            var wait := cfg.rounding(Least(Units(cfg.baseDelay.value) * Pow2(n - 1), Units(cfg.maxDelay.value)));
            var retries := outcome == DeliveryFailed && n < cfg.maxAttempts;
            var instant := if retries then Some(decisionAt + wait) else None;
            && written.event == row.event && written.createdAt == row.createdAt && written.attemptCount == n
            && written.status == (if outcome == DeliverySucceeded then Succeeded
                                  else if retries then Pending
                                  else DeadLetter)
            && written.nextAttemptAt == (if instant == loaded.nextAttemptAt then row.nextAttemptAt else instant)
            && written.updatedAt == (if decisionAt == loaded.updatedAt then row.updatedAt else decisionAt)
  {
    var n := loaded.attemptCount + 1;
    DecisionRefusals(outcome, n, decisionAt, cfg.maxAttempts, cfg.baseDelay, cfg.maxDelay, cfg.rounding);
    DecisionCases(outcome, n, decisionAt, cfg.maxAttempts, cfg.baseDelay, cfg.maxDelay, cfg.rounding);
  }

  /** Writing a decision made from a valid processing snapshot onto any valid row is rejected or valid. */
  lemma FlushKeepsRules(cfg: Settings, row: Job, loaded: Job, outcome: Outcome, decisionAt: int)
    requires ValidSettings(cfg) && JobRules(cfg, row) && JobRules(cfg, loaded) && loaded.status.Processing?
    requires DecideRetry(outcome, loaded.attemptCount + 1, decisionAt, cfg.maxAttempts, cfg.baseDelay, cfg.maxDelay,
                         cfg.rounding).Ok?
    ensures var d := DecideRetry(outcome, loaded.attemptCount + 1, decisionAt, cfg.maxAttempts, cfg.baseDelay,
                                 cfg.maxDelay, cfg.rounding).value;
            var written := Flushed(row, loaded, CompletedRow(loaded, d, decisionAt));
            && written.event == row.event
            && written.attemptCount == loaded.attemptCount + 1
            && written.status == DecisionStatus(d)
            && (JobChecks(written) ==> JobRules(cfg, written))
            && (Active(row.status) ==> JobChecks(written))
  {
  }
}
