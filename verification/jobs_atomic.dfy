/** What a copy read earlier may do when it is written back: the exact conditions, over every
    run of the two-step machine, under which attempts count the claims, a completed job
    stays completed and decisions stand; that uninterrupted operations meet them; and runs
    that break each of them (internal/enroll/jobs.go, internal/enroll/requests.go). */
module EnrollAtomic {
  import opened Common
  import opened EnrollJobs

  /** How often a job has been claimed. */
  function ClaimsIn(acts: seq<Action>, j: nat): nat {
    if acts == [] then 0
    else
      var a := acts[|acts| - 1];
      ClaimsIn(acts[..|acts| - 1], j) + if a.Claim? && a.j == j then 1 else 0
  }

  lemma ClaimsNext(acts: seq<Action>, a: Action, j: nat)
    ensures ClaimsIn(acts + [a], j) == ClaimsIn(acts, j) + if a.Claim? && a.j == j then 1 else 0
  {
    assert (acts + [a])[..|acts|] == acts;
  }

  /** The step writes a row back from a copy read earlier: a cancel or retry, or a finish. */
  predicate WritesBack(s: State, a: Action) {
    (a.Commit? && a.w in s.ops && s.ops[a.w].Write?) || (a.Finish? && a.w in s.ops && s.ops[a.w].Work?)
  }

  // -------------------------------------------------- what every run keeps

  ghost predicate OpKnown(maxAttempts: nat, s: State, op: Op) {
    match op
    case Approving(r) => r in s.requests
    case Rejecting(r) => r in s.requests
    case Write(j, row, _) => j in s.jobs && row.request == s.jobs[j].request && row.maxAttempts == maxAttempts
    case Work(j, row) => j in s.jobs && row.request == s.jobs[j].request && row.maxAttempts == maxAttempts
  }

  /** However stale, a copy is of a stored job, its request and its limit. */
  ghost predicate Known(maxAttempts: nat, s: State) {
    && (forall j :: j in s.jobs ==> s.jobs[j].maxAttempts == maxAttempts)
    && (forall w :: w in s.ops ==> OpKnown(maxAttempts, s, s.ops[w]))
  }

  /** Rows and requests stay, and a job keeps its request. */
  ghost predicate Grows(s: State, s': State) {
    && (forall j :: j in s.jobs ==> j in s'.jobs && s'.jobs[j].request == s.jobs[j].request)
    && (forall r :: r in s.requests ==> r in s'.requests)
  }

  lemma KeepsGrowing(maxAttempts: nat, s: State, a: Action)
    requires Known(maxAttempts, s) && Enabled(s, a)
    ensures Grows(s, Next(maxAttempts, s, a))
    ensures forall j :: j in Next(maxAttempts, s, a).jobs ==> Next(maxAttempts, s, a).jobs[j].maxAttempts == maxAttempts
  {
    if WritesBack(s, a) {
      assert OpKnown(maxAttempts, s, s.ops[a.w]);
    }
  }

  lemma KeepsKnown(maxAttempts: nat, s: State, a: Action)
    requires Known(maxAttempts, s) && Enabled(s, a)
    ensures Known(maxAttempts, Next(maxAttempts, s, a))
  {
    var s' := Next(maxAttempts, s, a);
    KeepsGrowing(maxAttempts, s, a);
    forall w | w in s'.ops ensures OpKnown(maxAttempts, s', s'.ops[w]) {
      if w in s.ops && s'.ops[w] == s.ops[w] {
        assert OpKnown(maxAttempts, s, s.ops[w]);
        hide Next, Enabled;
      }
    }
  }

  ghost predicate Unclaimed(s: State, acts: seq<Action>) {
    forall j :: j !in s.jobs ==> ClaimsIn(acts, j) == 0
  }

  lemma {:induction false} RunKnown(maxAttempts: nat, run: seq<State>, acts: seq<Action>, i: nat)
    requires IsRun(maxAttempts, run, acts) && i < |run|
    ensures Known(maxAttempts, run[i]) && Unclaimed(run[i], acts[..i])
  {
    if i > 0 {
      RunKnown(maxAttempts, run, acts, i - 1);
      KeepsKnown(maxAttempts, run[i - 1], acts[i - 1]);
      KeepsGrowing(maxAttempts, run[i - 1], acts[i - 1]);
      assert acts[..i] == acts[..i - 1] + [acts[i - 1]];
      forall j: nat | j !in run[i].jobs ensures ClaimsIn(acts[..i], j) == 0 {
        ClaimsNext(acts[..i - 1], acts[i - 1], j);
      }
    }
  }

  // ------------------------------------------------- attempts count claims

  /** What is written back carries the attempts that are stored. */
  ghost predicate FreshCount(s: State, a: Action) {
    WritesBack(s, a) ==> s.ops[a.w].j in s.jobs && s.ops[a.w].row.attempts == s.jobs[s.ops[a.w].j].attempts
  }

  ghost predicate Counted(s: State, acts: seq<Action>) {
    forall j :: j in s.jobs ==> s.jobs[j].attempts == ClaimsIn(acts, j)
  }

  lemma CountedStep(maxAttempts: nat, s: State, acts: seq<Action>, a: Action)
    requires Known(maxAttempts, s) && Unclaimed(s, acts) && Counted(s, acts) && Enabled(s, a)
    ensures Counted(Next(maxAttempts, s, a), acts + [a]) <==> FreshCount(s, a)
  {
    var s' := Next(maxAttempts, s, a);
    if WritesBack(s, a) {
      assert OpKnown(maxAttempts, s, s.ops[a.w]);
      ClaimsNext(acts, a, s.ops[a.w].j);
    }
    if FreshCount(s, a) {
      forall j | j in s'.jobs ensures s'.jobs[j].attempts == ClaimsIn(acts + [a], j) {
        ClaimsNext(acts, a, j);
      }
    }
  }

  ghost predicate AllFresh(run: seq<State>, acts: seq<Action>) {
    |run| == |acts| + 1 && forall i :: 0 <= i < |acts| ==> FreshCount(run[i], acts[i])
  }

  lemma CountedNext(maxAttempts: nat, run: seq<State>, acts: seq<Action>, i: nat)
    requires IsRun(maxAttempts, run, acts) && i < |acts| && Counted(run[i], acts[..i])
    ensures Counted(run[i + 1], acts[..i + 1]) <==> FreshCount(run[i], acts[i])
  {
    RunKnown(maxAttempts, run, acts, i);
    CountedStep(maxAttempts, run[i], acts[..i], acts[i]);
    assert acts[..i + 1] == acts[..i] + [acts[i]];
  }

  lemma {:induction false} FreshCounts(maxAttempts: nat, run: seq<State>, acts: seq<Action>, i: nat)
    requires IsRun(maxAttempts, run, acts) && AllFresh(run, acts) && i < |run|
    ensures Counted(run[i], acts[..i])
  {
    if i > 0 {
      FreshCounts(maxAttempts, run, acts, i - 1);
      CountedNext(maxAttempts, run, acts, i - 1);
    }
  }

  /** In every run: every job's attempts are its claims in every state, if and only if every
      row written back carries the stored attempts. */
  lemma AttemptsExact(maxAttempts: nat, run: seq<State>, acts: seq<Action>)
    requires IsRun(maxAttempts, run, acts)
    ensures (forall i :: 0 <= i < |run| ==> Counted(run[i], acts[..i])) <==> AllFresh(run, acts)
  {
    if AllFresh(run, acts) {
      forall i | 0 <= i < |run| ensures Counted(run[i], acts[..i]) {
        FreshCounts(maxAttempts, run, acts, i);
      }
    }
    if forall i :: 0 <= i < |run| ==> Counted(run[i], acts[..i]) {
      forall i | 0 <= i < |acts| ensures FreshCount(run[i], acts[i]) {
        CountedNext(maxAttempts, run, acts, i);
      }
    }
  }

  /** Then a job is claimed at most as often as its attempt limit allows. */
  lemma ClaimsBounded(maxAttempts: nat, run: seq<State>, acts: seq<Action>, i: nat, j: nat)
    requires IsRun(maxAttempts, run, acts) && AllFresh(run, acts) && i < |run|
    ensures ClaimsIn(acts[..i], j) <= maxAttempts
  {
    AttemptsExact(maxAttempts, run, acts);
    RunKnown(maxAttempts, run, acts, i);
    RunInv(maxAttempts, run, acts, i);
    if j in run[i].jobs {
      assert RowOk(run[i].jobs[j]) && Counted(run[i], acts[..i]);
    }
  }

  // ------------------------------------------------ completed stays completed

  ghost predicate LandsOnCompleted(s: State, a: Action) {
    WritesBack(s, a) && s.ops[a.w].j in s.jobs && s.jobs[s.ops[a.w].j].status == Completed
  }

  ghost predicate NoneLands(run: seq<State>, acts: seq<Action>) {
    |run| == |acts| + 1 && forall i :: 0 <= i < |acts| ==> !LandsOnCompleted(run[i], acts[i])
  }

  ghost predicate CompletedStay(s: State, s': State) {
    forall j :: j in s.jobs && s.jobs[j].status == Completed ==> j in s'.jobs && s'.jobs[j] == s.jobs[j]
  }

  predicate Stores(a: Action, cert: nat) {
    a.Finish? && a.outcome == Stored(cert)
  }

  /** Every issuance makes a certificate of its own. */
  ghost predicate CertsDistinct(acts: seq<Action>) {
    forall i, k, cert :: 0 <= i < k < |acts| && Stores(acts[i], cert) ==> !Stores(acts[k], cert)
  }

  lemma CompletedBy(maxAttempts: nat, s: State, a: Action, j: nat)
    requires Inv(s) && Enabled(s, a) && j in Next(maxAttempts, s, a).jobs
    requires Next(maxAttempts, s, a).jobs[j].status == Completed
    ensures Next(maxAttempts, s, a).jobs[j].result.Some?
    ensures Stores(a, Next(maxAttempts, s, a).jobs[j].result.value) || (j in s.jobs && Next(maxAttempts, s, a).jobs[j] == s.jobs[j])
  {
    if WritesBack(s, a) {
      assert OpOk(s.ops[a.w]);
    }
    assert j in s.jobs ==> RowOk(s.jobs[j]);
  }

  /** A completed job's certificate was stored by an earlier finish. */
  lemma {:induction false} CompletedFrom(maxAttempts: nat, run: seq<State>, acts: seq<Action>, i: nat, j: nat) returns (m: nat)
    requires IsRun(maxAttempts, run, acts) && i < |run| && j in run[i].jobs && run[i].jobs[j].status == Completed
    ensures run[i].jobs[j].result.Some? && m < i && Stores(acts[m], run[i].jobs[j].result.value)
  {
    RunInv(maxAttempts, run, acts, i - 1);
    CompletedBy(maxAttempts, run[i - 1], acts[i - 1], j);
    if Stores(acts[i - 1], run[i].jobs[j].result.value) {
      m := i - 1;
    } else {
      m := CompletedFrom(maxAttempts, run, acts, i - 1, j);
    }
  }

  lemma StaysUnlessLands(maxAttempts: nat, s: State, a: Action)
    requires Enabled(s, a) && !LandsOnCompleted(s, a)
    ensures CompletedStay(s, Next(maxAttempts, s, a))
  {
  }

  /** A write-back that lands on a completed row changes it. */
  lemma LandingChanges(maxAttempts: nat, run: seq<State>, acts: seq<Action>, i: nat)
    requires IsRun(maxAttempts, run, acts) && CertsDistinct(acts) && i < |acts| && LandsOnCompleted(run[i], acts[i])
    ensures !CompletedStay(run[i], run[i + 1])
  {
    var s, a, j := run[i], acts[i], run[i].ops[acts[i].w].j;
    RunInv(maxAttempts, run, acts, i);
    assert OpOk(s.ops[a.w]);
    var m := CompletedFrom(maxAttempts, run, acts, i, j);
    assert !Stores(a, s.jobs[j].result.value);
    assert run[i + 1].jobs[j] != s.jobs[j];
  }

  /** In every run: completed jobs never change, if and only if no row is written back onto
      a completed one. */
  lemma CompletedExact(maxAttempts: nat, run: seq<State>, acts: seq<Action>)
    requires IsRun(maxAttempts, run, acts) && CertsDistinct(acts)
    ensures (forall i :: 0 <= i < |acts| ==> CompletedStay(run[i], run[i + 1])) <==> NoneLands(run, acts)
  {
    hide CompletedStay, LandsOnCompleted;
    if NoneLands(run, acts) {
      forall i | 0 <= i < |acts| ensures CompletedStay(run[i], run[i + 1]) {
        StaysUnlessLands(maxAttempts, run[i], acts[i]);
      }
    }
    if i :| 0 <= i < |acts| && LandsOnCompleted(run[i], acts[i]) {
      LandingChanges(maxAttempts, run, acts, i);
    }
  }

  // -------------------------------------------------------------- decisions

  ghost predicate HasJob(s: State, r: nat) {
    exists j :: j in s.jobs && s.jobs[j].request == r
  }

  const DECIDED_FOR := {Approved, Issued}

  /** The approved and issued requests have one job each, the others none. */
  ghost predicate OwnRequests(s: State) {
    && (forall j :: j in s.jobs ==> s.jobs[j].request in s.requests && s.requests[s.jobs[j].request] in DECIDED_FOR)
    && (forall j, k :: j in s.jobs && k in s.jobs && j != k ==> s.jobs[j].request != s.jobs[k].request)
    && (forall r :: r in s.requests && s.requests[r] in DECIDED_FOR ==> HasJob(s, r))
  }

  /** Decisions are not undone: rejected and issued stay, approved stays or is issued. */
  ghost predicate Stand(s: State, s': State) {
    forall r :: r in s.requests && s.requests[r] != Pending ==>
      r in s'.requests && (s'.requests[r] == s.requests[r] || (s.requests[r] == Approved && s'.requests[r] == Issued))
  }

  /** A decision is written while the request is pending; rejecting twice is the same. */
  ghost predicate Timely(s: State, a: Action) {
    a.Commit? && a.w in s.ops ==>
      match s.ops[a.w]
      case Approving(r) => r in s.requests && s.requests[r] == Pending
      case Rejecting(r) => r in s.requests && s.requests[r] in {Pending, Rejected}
      case _ => true
  }

  ghost predicate AllTimely(run: seq<State>, acts: seq<Action>) {
    |run| == |acts| + 1 && forall i :: 0 <= i < |acts| ==> Timely(run[i], acts[i])
  }

  /** Jobs and requests of s alone decide OwnRequests. */
  lemma OwnSame(s: State, s': State)
    requires OwnRequests(s) && s'.jobs.Keys == s.jobs.Keys && s'.requests.Keys == s.requests.Keys
    requires forall j :: j in s.jobs ==> s'.jobs[j].request == s.jobs[j].request
    requires forall r :: r in s.requests ==> (s'.requests[r] in DECIDED_FOR <==> s.requests[r] in DECIDED_FOR)
    ensures OwnRequests(s')
  {
    forall r | r in s'.requests && s'.requests[r] in DECIDED_FOR ensures HasJob(s', r) {
      assert HasJob(s, r);
      var j :| j in s.jobs && s.jobs[j].request == r;
      assert s'.jobs[j].request == r;
    }
  }

  /** The write of an approval is right exactly when the request is still pending. */
  lemma ApproveWriteExact(s: State, r: nat, j: nat, maxAttempts: nat, now: int)
    requires OwnRequests(s) && r in s.requests && j !in s.jobs
    ensures var s' := Committed(s, Approving(r), j, maxAttempts, now);
      OwnRequests(s') && Stand(s, s') <==> s.requests[r] == Pending
  {
    var s' := Committed(s, Approving(r), j, maxAttempts, now);
    assert s'.jobs[j].request == r;
    if s.requests[r] == Pending {
      forall q | q in s'.requests && s'.requests[q] in DECIDED_FOR ensures HasJob(s', q) {
        if q != r {
          assert HasJob(s, q);
          var k :| k in s.jobs && s.jobs[k].request == q;
          assert s'.jobs[k].request == q;
        }
      }
    } else if s.requests[r] in DECIDED_FOR {
      assert HasJob(s, r);
      var k :| k in s.jobs && s.jobs[k].request == r;
      assert k != j && s'.jobs[k].request == s'.jobs[j].request;
    }
  }

  /** The write of a rejection is right exactly when the request is not approved by then. */
  lemma RejectWriteExact(s: State, r: nat)
    requires OwnRequests(s) && r in s.requests
    ensures var s' := Committed(s, Rejecting(r), 0, 0, 0);
      OwnRequests(s') && Stand(s, s') <==> s.requests[r] in {Pending, Rejected}
  {
    var s' := Committed(s, Rejecting(r), 0, 0, 0);
    if s.requests[r] in {Pending, Rejected} {
      OwnSame(s, s');
    } else {
      assert s'.requests[r] == Rejected;
    }
  }

  lemma OtherStepsStand(maxAttempts: nat, s: State, a: Action)
    requires Known(maxAttempts, s) && OwnRequests(s) && Enabled(s, a)
    requires a.Commit? ==> s.ops[a.w].Write?
    ensures OwnRequests(Next(maxAttempts, s, a)) && Stand(s, Next(maxAttempts, s, a))
  {
    var s' := Next(maxAttempts, s, a);
    if WritesBack(s, a) {
      assert OpKnown(maxAttempts, s, s.ops[a.w]);
    }
    if a.Create? {
      forall q | q in s'.requests && s'.requests[q] in DECIDED_FOR ensures HasJob(s', q) {
        assert HasJob(s, q);
      }
    } else {
      OwnSame(s, s');
    }
  }

  lemma DecisionStep(maxAttempts: nat, s: State, a: Action)
    requires Known(maxAttempts, s) && OwnRequests(s) && Enabled(s, a)
    ensures OwnRequests(Next(maxAttempts, s, a)) && Stand(s, Next(maxAttempts, s, a)) <==> Timely(s, a)
  {
    hide OwnRequests, Stand;
    if a.Commit? && !s.ops[a.w].Write? {
      assert OpKnown(maxAttempts, s, s.ops[a.w]);
      var op := s.ops[a.w];
      var written := Committed(s, op, a.j, maxAttempts, a.now);
      OpsIrrelevant(s, written, s.ops - {a.w});
      if op.Approving? {
        ApproveWriteExact(s, op.r, a.j, maxAttempts, a.now);
      } else {
        RejectWriteExact(s, op.r);
      }
    } else {
      OtherStepsStand(maxAttempts, s, a);
    }
  }

  lemma OpsIrrelevant(s: State, s': State, ops: map<nat, Op>)
    ensures OwnRequests(s'.(ops := ops)) <==> OwnRequests(s')
    ensures Stand(s, s'.(ops := ops)) <==> Stand(s, s')
  {
    if OwnRequests(s') {
      OwnSame(s', s'.(ops := ops));
    }
    if OwnRequests(s'.(ops := ops)) {
      OwnSame(s'.(ops := ops), s');
    }
  }

  lemma {:induction false} TimelyOwns(maxAttempts: nat, run: seq<State>, acts: seq<Action>, i: nat)
    requires IsRun(maxAttempts, run, acts) && AllTimely(run, acts) && i < |run|
    ensures OwnRequests(run[i]) && (i > 0 ==> Stand(run[i - 1], run[i]))
  {
    if i > 0 {
      TimelyOwns(maxAttempts, run, acts, i - 1);
      RunKnown(maxAttempts, run, acts, i - 1);
      DecisionStep(maxAttempts, run[i - 1], acts[i - 1]);
    }
  }

  /** In every run: every request has at most one job, only approved and issued ones have
      any, and no decision is undone, if and only if every decision is written while its
      request is pending. */
  lemma DecisionsExact(maxAttempts: nat, run: seq<State>, acts: seq<Action>)
    requires IsRun(maxAttempts, run, acts)
    ensures ((forall i :: 0 <= i < |run| ==> OwnRequests(run[i])) && (forall i :: 0 <= i < |acts| ==> Stand(run[i], run[i + 1])))
      <==> AllTimely(run, acts)
  {
    hide OwnRequests, Stand, Timely;
    if AllTimely(run, acts) {
      forall i | 0 <= i < |run| ensures OwnRequests(run[i]) && (i > 0 ==> Stand(run[i - 1], run[i])) {
        TimelyOwns(maxAttempts, run, acts, i);
      }
      assert forall i :: 0 <= i < |acts| ==> Stand(run[i], run[i + 1]) by {
        forall i | 0 <= i < |acts| ensures Stand(run[i], run[i + 1]) {
          TimelyOwns(maxAttempts, run, acts, i + 1);
        }
      }
    }
    if (forall i :: 0 <= i < |run| ==> OwnRequests(run[i])) && (forall i :: 0 <= i < |acts| ==> Stand(run[i], run[i + 1])) {
      forall i | 0 <= i < |acts| ensures Timely(run[i], acts[i]) {
        RunKnown(maxAttempts, run, acts, i);
        assert OwnRequests(run[i + 1]) && Stand(run[i], run[i + 1]);
        DecisionStep(maxAttempts, run[i], acts[i]);
      }
    }
  }

  /** Each request has at most one job, and only an approved or issued one has any. */
  lemma OneJobPerRequest(maxAttempts: nat, run: seq<State>, acts: seq<Action>, i: nat)
    requires IsRun(maxAttempts, run, acts) && AllTimely(run, acts) && i < |run|
    ensures forall j, k :: j in run[i].jobs && k in run[i].jobs && run[i].jobs[j].request == run[i].jobs[k].request ==> j == k
    ensures forall j :: j in run[i].jobs ==> (
      && run[i].jobs[j].request in run[i].requests
      && run[i].requests[run[i].jobs[j].request] in {Approved, Issued})
  {
    DecisionsExact(maxAttempts, run, acts);
    assert OwnRequests(run[i]);
  }

  lemma {:induction false} Stands(maxAttempts: nat, run: seq<State>, acts: seq<Action>, i: nat, k: nat, r: nat)
    requires IsRun(maxAttempts, run, acts) && AllTimely(run, acts) && i <= k < |run|
    requires r in run[i].requests && run[i].requests[r] in {Rejected, Issued}
    ensures r in run[k].requests && run[k].requests[r] == run[i].requests[r]
    decreases k
  {
    if i < k {
      Stands(maxAttempts, run, acts, i, k - 1, r);
      TimelyOwns(maxAttempts, run, acts, k);
    }
  }

  /** A rejected request is rejected for good: it is never issued and never gets a job. */
  lemma RejectedForGood(maxAttempts: nat, run: seq<State>, acts: seq<Action>, i: nat, k: nat, r: nat)
    requires IsRun(maxAttempts, run, acts) && AllTimely(run, acts) && i <= k < |run|
    requires r in run[i].requests && run[i].requests[r] == Rejected
    ensures r in run[k].requests && run[k].requests[r] == Rejected
    ensures forall j :: j in run[k].jobs ==> run[k].jobs[j].request != r
  {
    Stands(maxAttempts, run, acts, i, k, r);
    TimelyOwns(maxAttempts, run, acts, k);
  }

  ghost predicate CompletedIssued(s: State) {
    forall j :: j in s.jobs && s.jobs[j].status == Completed ==>
      s.jobs[j].request in s.requests && s.requests[s.jobs[j].request] == Issued
  }

  lemma CompletedIssuedStep(maxAttempts: nat, s: State, a: Action)
    requires Known(maxAttempts, s) && Inv(s) && CompletedIssued(s) && Enabled(s, a) && Stand(s, Next(maxAttempts, s, a))
    ensures CompletedIssued(Next(maxAttempts, s, a))
  {
    var s' := Next(maxAttempts, s, a);
    if WritesBack(s, a) {
      assert OpKnown(maxAttempts, s, s.ops[a.w]) && OpOk(s.ops[a.w]);
    }
    forall j | j in s'.jobs && s'.jobs[j].status == Completed
      ensures s'.jobs[j].request in s'.requests && s'.requests[s'.jobs[j].request] == Issued
    {
      CompletedBy(maxAttempts, s, a, j);
    }
  }

  lemma {:induction false} RunCompletedIssued(maxAttempts: nat, run: seq<State>, acts: seq<Action>, i: nat)
    requires IsRun(maxAttempts, run, acts) && AllTimely(run, acts) && i < |run|
    ensures CompletedIssued(run[i])
  {
    if i > 0 {
      RunCompletedIssued(maxAttempts, run, acts, i - 1);
      RunKnown(maxAttempts, run, acts, i - 1);
      RunInv(maxAttempts, run, acts, i - 1);
      TimelyOwns(maxAttempts, run, acts, i);
      CompletedIssuedStep(maxAttempts, run[i - 1], acts[i - 1]);
    }
  }

  /** A completed job never changes again and its request is issued from then on. */
  lemma {:induction false} CompletedForGood(maxAttempts: nat, run: seq<State>, acts: seq<Action>, i: nat, k: nat, j: nat)
    requires IsRun(maxAttempts, run, acts) && AllTimely(run, acts) && NoneLands(run, acts)
    requires i <= k < |run| && j in run[i].jobs && run[i].jobs[j].status == Completed
    ensures j in run[k].jobs && run[k].jobs[j] == run[i].jobs[j]
    ensures run[k].jobs[j].request in run[k].requests && run[k].requests[run[k].jobs[j].request] == Issued
    decreases k
  {
    if i < k {
      CompletedForGood(maxAttempts, run, acts, i, k - 1, j);
      StaysUnlessLands(maxAttempts, run[k - 1], acts[k - 1]);
    }
    RunCompletedIssued(maxAttempts, run, acts, k);
  }

  // -------------------------------------------------- uninterrupted operations

  /** The step is the read of an operation by w. */
  predicate Reads(a: Action, w: nat) {
    (a.BeginApprove? || a.BeginReject? || a.BeginCancel? || a.BeginRetry?) && a.w == w
  }

  /** The write directly follows its read. */
  ghost predicate AtOnce(acts: seq<Action>, i: nat)
    requires i < |acts|
  {
    acts[i].Commit? ==> i > 0 && Reads(acts[i - 1], acts[i].w)
  }

  /** What a write finds when nothing came between. */
  lemma JustRead(maxAttempts: nat, s: State, a: Action, w: nat)
    requires Enabled(s, a) && Reads(a, w)
    ensures var s' := Next(maxAttempts, s, a);
      && w in s'.ops
      && match s'.ops[w]
         case Approving(r) => r in s'.requests && s'.requests[r] == Pending
         case Rejecting(r) => r in s'.requests && s'.requests[r] == Pending
         case Write(j, row, retry) =>
           && j in s'.jobs && row.attempts == s'.jobs[j].attempts
           && (if retry then s'.jobs[j].status == Failed else a.BeginCancel? && a.j == j && s.jobs[j].status == s'.jobs[j].status)
           && (!retry ==> s'.jobs[j].status in {Queued, Processing})
         case Work(_, _) => false
  {
  }

  /** Approving and rejecting without interruption makes every decision timely. */
  lemma DecisionsAtOnce(maxAttempts: nat, run: seq<State>, acts: seq<Action>)
    requires IsRun(maxAttempts, run, acts)
    requires forall i :: 0 <= i < |acts| && acts[i].Commit? && !run[i].ops[acts[i].w].Write? ==> AtOnce(acts, i)
    ensures AllTimely(run, acts)
  {
    forall i | 0 <= i < |acts| ensures Timely(run[i], acts[i]) {
      if acts[i].Commit? && !run[i].ops[acts[i].w].Write? {
        assert AtOnce(acts, i);
        JustRead(maxAttempts, run[i - 1], acts[i - 1], acts[i].w);
      }
    }
  }

  /** Every worker holds the row as stored, one worker per job. */
  ghost predicate WorkFresh(s: State) {
    && (forall w :: w in s.ops && s.ops[w].Work? ==>
          s.ops[w].j in s.jobs && s.jobs[s.ops[w].j] == s.ops[w].row && s.ops[w].row.status == Processing)
    && (forall v, w :: v in s.ops && w in s.ops && v != w && s.ops[v].Work? && s.ops[w].Work? ==> s.ops[v].j != s.ops[w].j)
  }

  /** Every operation is uninterrupted and only queued jobs are cancelled. */
  ghost predicate Uninterrupted(run: seq<State>, acts: seq<Action>) {
    && |run| == |acts| + 1
    && (forall i :: 0 <= i < |acts| ==> AtOnce(acts, i))
    && (forall i :: 0 <= i < |acts| && acts[i].BeginCancel? ==> acts[i].j in run[i].jobs && run[i].jobs[acts[i].j].status == Queued)
  }

  lemma WorkFreshStep(maxAttempts: nat, s: State, a: Action)
    requires WorkFresh(s) && Enabled(s, a)
    requires a.Commit? && s.ops[a.w].Write? ==> s.ops[a.w].j in s.jobs && s.jobs[s.ops[a.w].j].status != Processing
    ensures WorkFresh(Next(maxAttempts, s, a))
  {
  }

  /** What a write finds in an uninterrupted run: a row that is no one's work. */
  lemma UninterruptedWrite(maxAttempts: nat, run: seq<State>, acts: seq<Action>, i: nat)
    requires IsRun(maxAttempts, run, acts) && Uninterrupted(run, acts) && i < |acts| && acts[i].Commit? && run[i].ops[acts[i].w].Write?
    ensures var op := run[i].ops[acts[i].w];
      op.j in run[i].jobs && run[i].jobs[op.j].status in {Queued, Failed} && op.row.attempts == run[i].jobs[op.j].attempts
  {
    assert AtOnce(acts, i);
    JustRead(maxAttempts, run[i - 1], acts[i - 1], acts[i].w);
  }

  lemma {:induction false} RunWorkFresh(maxAttempts: nat, run: seq<State>, acts: seq<Action>, i: nat)
    requires IsRun(maxAttempts, run, acts) && Uninterrupted(run, acts) && i < |run|
    ensures WorkFresh(run[i])
  {
    if i > 0 {
      RunWorkFresh(maxAttempts, run, acts, i - 1);
      if acts[i - 1].Commit? && run[i - 1].ops[acts[i - 1].w].Write? {
        UninterruptedWrite(maxAttempts, run, acts, i - 1);
      }
      WorkFreshStep(maxAttempts, run[i - 1], acts[i - 1]);
    }
  }

  /** Uninterrupted operations that cancel only queued jobs meet all three conditions. */
  lemma UninterruptedMeets(maxAttempts: nat, run: seq<State>, acts: seq<Action>)
    requires IsRun(maxAttempts, run, acts) && Uninterrupted(run, acts)
    ensures AllFresh(run, acts) && NoneLands(run, acts) && AllTimely(run, acts)
  {
    DecisionsAtOnce(maxAttempts, run, acts);
    forall i | 0 <= i < |acts| ensures FreshCount(run[i], acts[i]) && !LandsOnCompleted(run[i], acts[i]) {
      RunWorkFresh(maxAttempts, run, acts, i);
      if acts[i].Commit? && run[i].ops[acts[i].w].Write? {
        UninterruptedWrite(maxAttempts, run, acts, i);
      }
    }
  }

  lemma HeldThenReleased(ops: map<nat, Op>, w: nat, op: Op)
    requires w !in ops
    ensures ops[w := op] - {w} == ops
  {
  }

  /** A read followed at once by its write is the operation in one piece. */
  lemma WholeIsTwoSteps(maxAttempts: nat, s: State, a: Action, w: nat, j: nat, now: int)
    requires Enabled(s, a) && Reads(a, w) && j !in s.jobs
    ensures var mid := Next(maxAttempts, s, a);
      && Enabled(mid, Commit(w, j, now))
      && Next(maxAttempts, mid, Commit(w, j, now)) == Committed(s, mid.ops[w], j, maxAttempts, now)
  {
    var mid := Next(maxAttempts, s, a);
    HeldThenReleased(s.ops, w, mid.ops[w]);
  }

  // ------------------------------------------------------- runs that break them

  /** The actions of a run of the two-step machine lead to s. */
  ghost predicate Reached(maxAttempts: nat, acts: seq<Action>, s: State) {
    exists run :: IsRun(maxAttempts, run, acts) && run[|acts|] == s
  }

  predicate NoCancel(acts: seq<Action>) {
    forall a :: a in acts ==> !a.BeginCancel?
  }

  lemma Start(maxAttempts: nat)
    requires maxAttempts > 0
    ensures Reached(maxAttempts, [], Init) && ClaimsIn([], 0) == 0
  {
    assert IsRun(maxAttempts, [Init], []);
  }

  lemma RunOn(maxAttempts: nat, run: seq<State>, acts: seq<Action>, a: Action)
    requires IsRun(maxAttempts, run, acts) && Enabled(run[|acts|], a)
    ensures IsRun(maxAttempts, run + [Next(maxAttempts, run[|acts|], a)], acts + [a])
  {
    hide Enabled, Next;
  }

  lemma Take(maxAttempts: nat, acts: seq<Action>, s: State, a: Action) returns (acts': seq<Action>, s': State)
    requires Reached(maxAttempts, acts, s) && Enabled(s, a)
    ensures s' == Next(maxAttempts, s, a) && acts' == acts + [a] && Reached(maxAttempts, acts', s')
    ensures ClaimsIn(acts', 0) == ClaimsIn(acts, 0) + if a.Claim? && a.j == 0 then 1 else 0
    ensures NoCancel(acts') <==> NoCancel(acts) && !a.BeginCancel?
  {
    acts', s' := acts + [a], Next(maxAttempts, s, a);
    var run :| IsRun(maxAttempts, run, acts) && run[|acts|] == s;
    RunOn(maxAttempts, run, acts, a);
    assert (run + [s'])[|acts'|] == s';
    ClaimsNext(acts, a, 0);
    assert a in acts' && forall b :: b in acts' <==> b in acts || b == a;
  }

  /** A run up to the claim of job 0 by worker 1, two attempts allowed. */
  lemma FirstClaim() returns (acts: seq<Action>, s: State)
    ensures Reached(2, acts, s) && ClaimsIn(acts, 0) == 1 && NoCancel(acts)
    ensures 0 in s.jobs && s.jobs[0] == Claimed(NewJob(0, 2, 0), 9)
    ensures s.ops == map[1 := Work(0, s.jobs[0])]
  {
    hide Reached, ClaimsIn;
    Start(2);
    acts, s := Take(2, [], Init, Create(0));
    acts, s := Take(2, acts, s, BeginApprove(1, 0));
    acts, s := Take(2, acts, s, Commit(1, 0, 0));
    acts, s := Take(2, acts, s, Claim(1, 0, 0, 9));
  }

  /** Cancelling and retrying a job that a worker still holds, and claiming it again. */
  lemma SecondClaim() returns (acts: seq<Action>, s: State)
    ensures Reached(2, acts, s) && ClaimsIn(acts, 0) == 2
    ensures s.ops.Keys == {1, 3} && s.ops[1] == Work(0, Claimed(NewJob(0, 2, 0), 9))
  {
    hide Reached, ClaimsIn, NoCancel;
    acts, s := FirstClaim();
    acts, s := Take(2, acts, s, BeginCancel(2, 0));
    acts, s := Take(2, acts, s, Commit(2, 0, 0));
    acts, s := Take(2, acts, s, BeginRetry(2, 0, 0));
    acts, s := Take(2, acts, s, Commit(2, 0, 0));
    acts, s := Take(2, acts, s, Claim(3, 0, 0, 9));
  }

  /** When a processing job may be cancelled, a worker writing back its stale copy undoes
      a later claim's count: a job with two attempts is claimed three times. */
  lemma CancelBreaksLimit() returns (acts: seq<Action>, s: State)
    ensures Reached(2, acts, s) && ClaimsIn(acts, 0) == 3
  {
    hide Reached, ClaimsIn, NoCancel;
    acts, s := SecondClaim();
    acts, s := Take(2, acts, s, Finish(1, Unreadable));
    acts, s := Take(2, acts, s, BeginRetry(2, 0, 0));
    acts, s := Take(2, acts, s, Commit(2, 0, 0));
    acts, s := Take(2, acts, s, Claim(4, 0, 0, 9));
  }

  /** The job was claimed, failed, and two retries have read it; one was written and the
      next claim completed the job. */
  lemma RetriedAndDone() returns (acts: seq<Action>, s: State)
    ensures Reached(2, acts, s) && ClaimsIn(acts, 0) == 2 && NoCancel(acts)
    ensures 0 in s.jobs && s.jobs[0].status == Completed
    ensures s.ops.Keys == {2} && s.ops[2] == Write(0, Requeued(FailedWith(Claimed(NewJob(0, 2, 0), 9), "request unavailable"), 0), true)
  {
    hide Reached, ClaimsIn, NoCancel;
    acts, s := FirstClaim();
    acts, s := Take(2, acts, s, Finish(1, Unreadable));
    acts, s := Take(2, acts, s, BeginRetry(1, 0, 0));
    acts, s := Take(2, acts, s, BeginRetry(2, 0, 0));
    acts, s := Take(2, acts, s, Commit(1, 0, 0));
    acts, s := Take(2, acts, s, Claim(3, 0, 0, 9));
    acts, s := Take(2, acts, s, Finish(3, Stored(7)));
  }

  /** A run without any cancel: after its first n actions the job is completed, the retry
      written next queues it again, and the claim after that is the third out of two. */
  lemma LateRetryReopens() returns (run: seq<State>, acts: seq<Action>, n: nat)
    ensures IsRun(2, run, acts) && NoCancel(acts) && |acts| == n + 2
    ensures acts[n] == Commit(2, 0, 0) && acts[n + 1] == Claim(4, 0, 0, 9)
    ensures LandsOnCompleted(run[n], acts[n]) && 0 in run[n].jobs && run[n].jobs[0].status == Completed
    ensures 0 in run[n + 1].jobs && run[n + 1].jobs[0].status == Queued
    ensures ClaimsIn(acts[..n], 0) == 2 && ClaimsIn(acts, 0) == 3
  {
    var before, s := RetriedAndDone();
    n := |before|;
    run :| IsRun(2, run, before) && run[n] == s;
    hide IsRun;
    var retried := Next(2, s, Commit(2, 0, 0));
    RunOn(2, run, before, Commit(2, 0, 0));
    RunLength(2, run, before);
    var late := before + [Commit(2, 0, 0)];
    RunOn(2, run + [retried], late, Claim(4, 0, 0, 9));
    ClaimsNext(before, Commit(2, 0, 0), 0);
    ClaimsNext(late, Claim(4, 0, 0, 9), 0);
    acts := late + [Claim(4, 0, 0, 9)];
    assert acts[..n] == before;
    run := run + [retried] + [Next(2, retried, Claim(4, 0, 0, 9))];
  }

  lemma RunLength(maxAttempts: nat, run: seq<State>, acts: seq<Action>)
    requires IsRun(maxAttempts, run, acts)
    ensures |run| == |acts| + 1
  {
  }

  /** A cancel that read a queued job, written after the job completed, fails it and forgets
      its claim. */
  lemma LateCancelReopens() returns (acts: seq<Action>, s: State)
    ensures Reached(2, acts, s) && ClaimsIn(acts, 0) == 1
    ensures LandsOnCompleted(s, Commit(2, 0, 0)) && Enabled(s, Commit(2, 0, 0))
    ensures var s' := Next(2, s, Commit(2, 0, 0)); 0 in s'.jobs && s'.jobs[0].status == Failed && s'.jobs[0].attempts == 0
  {
    hide Reached, ClaimsIn, NoCancel;
    Start(2);
    acts, s := Take(2, [], Init, Create(0));
    acts, s := Take(2, acts, s, BeginApprove(1, 0));
    acts, s := Take(2, acts, s, Commit(1, 0, 0));
    acts, s := Take(2, acts, s, BeginCancel(2, 0));
    acts, s := Take(2, acts, s, Claim(1, 0, 0, 9));
    acts, s := Take(2, acts, s, Finish(1, Stored(7)));
  }

  ghost predicate TwoJobs(s: State, r: nat) {
    exists j, k :: j in s.jobs && k in s.jobs && j != k && s.jobs[j].request == r && s.jobs[k].request == r
  }

  /** Two approvals that both read the pending request queue two jobs for it. */
  lemma ApprovalsRace(maxAttempts: nat) returns (acts: seq<Action>, s: State)
    requires maxAttempts > 0
    ensures Reached(maxAttempts, acts, s) && TwoJobs(s, 0)
  {
    hide Reached, ClaimsIn, NoCancel;
    Start(maxAttempts);
    acts, s := Take(maxAttempts, [], Init, Create(0));
    acts, s := Take(maxAttempts, acts, s, BeginApprove(1, 0));
    acts, s := Take(maxAttempts, acts, s, BeginApprove(2, 0));
    acts, s := Take(maxAttempts, acts, s, Commit(1, 0, 0));
    acts, s := Take(maxAttempts, acts, s, Commit(2, 1, 0));
    assert 0 in s.jobs && 1 in s.jobs;
  }

  /** An approval that read before a rejection was written queues a job for the rejected
      request. */
  lemma RejectionUndone(maxAttempts: nat) returns (acts: seq<Action>, s: State)
    requires maxAttempts > 0
    ensures Reached(maxAttempts, acts, s) && 0 in s.requests && s.requests[0] == Rejected
    ensures Enabled(s, Commit(1, 0, 0)) && HasJob(Next(maxAttempts, s, Commit(1, 0, 0)), 0)
  {
    hide Reached, ClaimsIn, NoCancel;
    Start(maxAttempts);
    acts, s := Take(maxAttempts, [], Init, Create(0));
    acts, s := Take(maxAttempts, acts, s, BeginApprove(1, 0));
    acts, s := Take(maxAttempts, acts, s, BeginReject(2, 0));
    acts, s := Take(maxAttempts, acts, s, Commit(2, 0, 0));
    assert Next(maxAttempts, s, Commit(1, 0, 0)).jobs[0].request == 0;
  }
}
