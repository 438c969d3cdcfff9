/** Enrollment requests and the issuance jobs their approval queues, as a step machine
    in which every operation reads in one step and writes back in a later one, with
    anything in between (internal/enroll/requests.go, internal/enroll/jobs.go,
    internal/memstore/memstore.go). */
module EnrollJobs {
  import opened Common

  datatype JobStatus = Queued | Processing | Completed | Failed
  datatype RequestStatus = Pending | Approved | Rejected | Issued

  /** A certificate job row. */
  datatype Job = Job(request: nat, status: JobStatus, lease: Option<int>, attempts: nat, maxAttempts: nat,
                     result: Option<nat>, error: Option<string>, runAfter: int)

  /** An operation between its read and its write. A Write is a cancel or retry with the
      row it will write back; Work is a claimed job with the claimed copy. */
  datatype Op = Approving(r: nat) | Rejecting(r: nat) | Write(j: nat, row: Job, retry: bool) | Work(j: nat, row: Job)

  datatype State = State(requests: map<nat, RequestStatus>, jobs: map<nat, Job>, ops: map<nat, Op>)

  const Init := State(map[], map[], map[])

  /** How an issuance ends: the request could not be read, issuing failed (perhaps on an
      invalid field), the result was stored, or storing it failed and was rolled back. */
  datatype Outcome = Unreadable | NotIssued(invalid: Option<string>) | Stored(cert: nat) | NotStored(cert: nat)

  /** The message a client may see of an issuance error. */
  function Scrub(invalid: Option<string>): string {
    if invalid.Some? then "invalid " + invalid.value else "issuance failed"
  }

  // --------------------------------------------------------------------- rows

  function NewJob(r: nat, maxAttempts: nat, now: int): Job {
    Job(r, Queued, None, 0, maxAttempts, None, None, now)
  }

  /** ClaimDueJobs on one row: queued, due, and no lease still running. */
  predicate Due(row: Job, now: int) {
    row.status == Queued && row.runAfter <= now && (row.lease.None? || row.lease.value < now)
  }

  function Claimed(row: Job, until: int): Job {
    row.(status := Processing, lease := Some(until), attempts := row.attempts + 1)
  }

  predicate Cancellable(row: Job) {
    row.status == Queued || row.status == Processing
  }

  function Cancelled(row: Job): Job {
    row.(status := Failed, lease := None, error := Some("cancelled"))
  }

  predicate Retryable(row: Job) {
    row.status == Failed && row.attempts < row.maxAttempts
  }

  function Requeued(row: Job, now: int): Job {
    row.(status := Queued, error := None, lease := None, runAfter := now)
  }

  function FailedWith(row: Job, why: string): Job {
    row.(status := Failed, lease := None, error := Some(why))
  }

  function CompletedWith(row: Job, cert: nat): Job {
    row.(status := Completed, result := Some(cert), error := None, lease := None)
  }

  /** What ProcessJob writes back for a claimed copy. A result whose storing failed stays
      on the failed row: the closure had already set it on the copy. */
  function Finished(row: Job, outcome: Outcome): Job {
    match outcome
    case Unreadable => FailedWith(row, "request unavailable")
    case NotIssued(invalid) => FailedWith(row, Scrub(invalid))
    case Stored(cert) => CompletedWith(row, cert)
    case NotStored(cert) => FailedWith(CompletedWith(row, cert), "persisting result failed")
  }

  // -------------------------------------------------------------------- steps

  datatype Action =
    | Create(r: nat)
    | BeginApprove(w: nat, r: nat)
    | BeginReject(w: nat, r: nat)
    | BeginCancel(w: nat, j: nat)
    | BeginRetry(w: nat, j: nat, now: int)
    | Commit(w: nat, j: nat, now: int)
    | Claim(w: nat, j: nat, now: int, until: int)
    | Finish(w: nat, outcome: Outcome)

  predicate Enabled(s: State, a: Action) {
    match a
    case Create(r) => r !in s.requests
    case BeginApprove(w, r) => w !in s.ops && r in s.requests && s.requests[r] == Pending
    case BeginReject(w, r) => w !in s.ops && r in s.requests && s.requests[r] == Pending
    case BeginCancel(w, j) => w !in s.ops && j in s.jobs && Cancellable(s.jobs[j])
    case BeginRetry(w, j, _) => w !in s.ops && j in s.jobs && Retryable(s.jobs[j])
    case Commit(w, j, _) => w in s.ops && !s.ops[w].Work? && (s.ops[w].Approving? ==> j !in s.jobs)
    case Claim(w, j, now, _) => w !in s.ops && j in s.jobs && Due(s.jobs[j], now)
    case Finish(w, _) => w in s.ops && s.ops[w].Work?
  }

  function Holding(s: State, w: nat, op: Op): State {
    s.(ops := s.ops[w := op])
  }

  /** The write of an operation that read earlier: nothing is checked again. */
  function Committed(s: State, op: Op, j: nat, maxAttempts: nat, now: int): State {
    match op
    case Approving(r) =>
      s.(requests := s.requests[r := Approved], jobs := s.jobs[j := NewJob(r, maxAttempts, now)])
    case Rejecting(r) => s.(requests := s.requests[r := Rejected])
    case Write(k, row, _) => s.(jobs := s.jobs[k := row])
    case Work(_, _) => s
  }

  function Done(s: State, op: Op, outcome: Outcome): State
    requires op.Work?
  {
    var written := s.(jobs := s.jobs[op.j := Finished(op.row, outcome)]);
    if outcome.Stored? then written.(requests := s.requests[op.row.request := Issued]) else written
  }

  function Next(maxAttempts: nat, s: State, a: Action): State
    requires Enabled(s, a)
  {
    match a
    case Create(r) => s.(requests := s.requests[r := Pending])
    case BeginApprove(w, r) => Holding(s, w, Approving(r))
    case BeginReject(w, r) => Holding(s, w, Rejecting(r))
    case BeginCancel(w, j) => Holding(s, w, Write(j, Cancelled(s.jobs[j]), false))
    case BeginRetry(w, j, now) => Holding(s, w, Write(j, Requeued(s.jobs[j], now), true))
    case Commit(w, j, now) => Committed(s, s.ops[w], j, maxAttempts, now).(ops := s.ops - {w})
    case Claim(w, j, _, until) =>
      var row := Claimed(s.jobs[j], until);
      Holding(s.(jobs := s.jobs[j := row]), w, Work(j, row))
    case Finish(w, outcome) => Done(s, s.ops[w], outcome).(ops := s.ops - {w})
  }

  /** Run of any interleaving; New replaces a non-positive attempt limit. */
  ghost predicate IsRun(maxAttempts: nat, run: seq<State>, acts: seq<Action>) {
    && maxAttempts > 0
    && |run| == |acts| + 1 && run[0] == Init
    && forall i :: 0 <= i < |acts| ==> Enabled(run[i], acts[i]) && run[i + 1] == Next(maxAttempts, run[i], acts[i])
  }

  // ----------------------------------------------------- every interleaving

  /** What every stored or held row satisfies. */
  ghost predicate RowOk(row: Job) {
    && row.attempts <= row.maxAttempts
    && (row.status == Queued ==> row.attempts < row.maxAttempts)
    && (row.lease.Some? <==> row.status == Processing)
    && (row.status == Completed ==> row.result.Some?)
    && (row.error.Some? <==> row.status == Failed)
  }

  ghost predicate OpOk(op: Op) {
    match op
    case Write(_, row, retry) => RowOk(row) && row.status == if retry then Queued else Failed
    case Work(_, row) => RowOk(row) && row.status == Processing
    case _ => true
  }

  ghost predicate Inv(s: State) {
    && (forall j :: j in s.jobs ==> RowOk(s.jobs[j]))
    && (forall w :: w in s.ops ==> OpOk(s.ops[w]))
  }

  lemma KeepsInv(maxAttempts: nat, s: State, a: Action)
    requires maxAttempts > 0 && Inv(s) && Enabled(s, a)
    ensures Inv(Next(maxAttempts, s, a))
  {
    match a
    case Create(_) =>
    case BeginApprove(_, _) =>
    case BeginReject(_, _) =>
    case BeginCancel(_, j) => assert RowOk(s.jobs[j]);
    case BeginRetry(_, j, _) => assert RowOk(s.jobs[j]);
    case Commit(w, _, _) => assert OpOk(s.ops[w]);
    case Claim(_, j, _, _) => assert RowOk(s.jobs[j]);
    case Finish(w, _) => assert OpOk(s.ops[w]);
  }

  lemma {:induction false} RunInv(maxAttempts: nat, run: seq<State>, acts: seq<Action>, i: nat)
    requires IsRun(maxAttempts, run, acts) && i < |run|
    ensures Inv(run[i])
  {
    if i > 0 {
      RunInv(maxAttempts, run, acts, i - 1);
      KeepsInv(maxAttempts, run[i - 1], acts[i - 1]);
    }
  }

  /** In every run, however stale the copies written back: attempts never exceed their
      limit, a queued job has an attempt left, a lease is held exactly while processing, an
      error is shown exactly while failed, and a completed job names its certificate. */
  lemma JobsSound(maxAttempts: nat, run: seq<State>, acts: seq<Action>, i: nat, j: nat)
    requires IsRun(maxAttempts, run, acts) && i < |run| && j in run[i].jobs
    ensures var row := run[i].jobs[j];
      && row.attempts <= row.maxAttempts
      && (row.status == Queued ==> row.attempts < row.maxAttempts)
      && (row.lease.Some? <==> row.status == Processing)
      && (row.status == Completed ==> row.result.Some?)
      && (row.error.Some? <==> row.status == Failed)
  {
    RunInv(maxAttempts, run, acts, i);
    assert RowOk(run[i].jobs[j]);
  }

  /** What the writes leave in a row: an approval queues a job that is due at once and has
      no attempt; a cancel and every way an issuance can fail keep request, attempts and
      limit and say why; a retry is due at once and keeps the attempts; a claim leases the
      row and counts one attempt; a stored result names its certificate. */
  lemma RowsAfter(r: nat, maxAttempts: nat, now: int, until: int, row: Job, outcome: Outcome)
    ensures var job := NewJob(r, maxAttempts, now);
      job.request == r && job.status == Queued && job.attempts == 0 && job.maxAttempts == maxAttempts && Due(job, now)
    ensures var job := Cancelled(row); SameJob(row, job) && job.attempts == row.attempts && job.status == Failed && job.error == Some("cancelled")
    ensures var job := Requeued(row, now); SameJob(row, job) && job.attempts == row.attempts && Due(job, now) && !Due(job, now - 1)
    ensures var job := Claimed(row, until);
      SameJob(row, job) && job.attempts == row.attempts + 1 && job.status == Processing && job.lease == Some(until) && job.runAfter == row.runAfter
    ensures var job := Finished(row, outcome);
      && SameJob(row, job) && job.attempts == row.attempts && job.lease == None && job.runAfter == row.runAfter
      && (job.status == Completed <==> outcome.Stored?) && (job.status == Failed <==> !outcome.Stored?)
      && (outcome.Stored? ==> job.result == Some(outcome.cert) && job.error == None)
      && job.error == (match outcome
                       case Unreadable => Some("request unavailable")
                       case NotIssued(None) => Some("issuance failed")
                       case NotIssued(Some(field)) => Some("invalid " + field)
                       case Stored(_) => None
                       case NotStored(_) => Some("persisting result failed"))
  {
  }

  /** The same request and the same limit. */
  predicate SameJob(a: Job, b: Job) {
    a.request == b.request && a.maxAttempts == b.maxAttempts
  }

  /** The step writes a retry of job j back. */
  ghost predicate RetryWrite(s: State, a: Action, j: nat) {
    a.Commit? && a.w in s.ops && s.ops[a.w].Write? && s.ops[a.w].retry && s.ops[a.w].j == j
  }

  lemma OnlyRetryQueues(maxAttempts: nat, s: State, a: Action, j: nat)
    requires Inv(s) && Enabled(s, a) && j in s.jobs && s.jobs[j].status != Queued && !RetryWrite(s, a, j)
    ensures j in Next(maxAttempts, s, a).jobs && Next(maxAttempts, s, a).jobs[j].status != Queued
  {
    if a.Commit? {
      assert OpOk(s.ops[a.w]);
    }
  }

  lemma {:induction false} NotQueuedAgain(maxAttempts: nat, run: seq<State>, acts: seq<Action>, i: nat, k: nat, j: nat)
    requires IsRun(maxAttempts, run, acts) && i <= k < |run| && j in run[i].jobs && run[i].jobs[j].status != Queued
    requires forall m :: i <= m < k ==> !RetryWrite(run[m], acts[m], j)
    ensures j in run[k].jobs && run[k].jobs[j].status != Queued
    decreases k
  {
    if i < k {
      NotQueuedAgain(maxAttempts, run, acts, i, k - 1, j);
      RunInv(maxAttempts, run, acts, k - 1);
      OnlyRetryQueues(maxAttempts, run[k - 1], acts[k - 1], j);
    }
  }

  /** No job is handed out by two claims without a retry written in between. */
  lemma OneClaimPerRetry(maxAttempts: nat, run: seq<State>, acts: seq<Action>, i: nat, k: nat)
    requires IsRun(maxAttempts, run, acts) && i < k < |acts|
    requires acts[i].Claim? && acts[k].Claim? && acts[i].j == acts[k].j
    ensures exists m :: i < m < k && RetryWrite(run[m], acts[m], acts[i].j)
  {
    var j := acts[i].j;
    if forall m :: i < m < k ==> !RetryWrite(run[m], acts[m], j) {
      NotQueuedAgain(maxAttempts, run, acts, i + 1, k, j);
    }
  }
}
