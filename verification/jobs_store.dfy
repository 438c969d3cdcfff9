/** The job operations as they run on the stored rows: claiming a batch, processing it, and
    the caller's approve, reject, cancel and retry (internal/enroll/jobs.go,
    internal/enroll/requests.go, internal/memstore/memstore.go). */
module JobStore {
  import opened Common
  import opened EnrollJobs
  import Paging

  datatype Reply = Ok | NotFound | Conflict

  datatype Row = Row(j: nat, row: Job)

  // ------------------------------------------------------------ the due order

  predicate Before(a: Row, b: Row) {
    a.row.runAfter < b.row.runAfter || (a.row.runAfter == b.row.runAfter && a.j < b.j)
  }

  ghost predicate Sorted(s: seq<Row>) {
    forall i, k :: 0 <= i < k < |s| ==> Before(s[i], s[k])
  }

  function Insert(s: seq<Row>, c: Row): seq<Row> {
    if s == [] || Before(c, s[0]) then [c] + s else [s[0]] + Insert(s[1..], c)
  }

  function Sort(s: seq<Row>): seq<Row> {
    if s == [] then [] else Insert(Sort(s[1..]), s[0])
  }

  lemma {:induction false} InsertSorts(s: seq<Row>, c: Row)
    requires Sorted(s) && forall i :: 0 <= i < |s| ==> s[i].j != c.j
    ensures Sorted(Insert(s, c)) && |Insert(s, c)| == |s| + 1
    ensures forall x :: x in Insert(s, c) <==> x in s || x == c
  {
    if s != [] && !Before(c, s[0]) {
      InsertSorts(s[1..], c);
      var rest := Insert(s[1..], c);
      forall k | 0 <= k < |rest| ensures Before(s[0], rest[k]) {
        assert rest[k] in rest;
      }
    }
  }

  ghost predicate DistinctJobs(s: seq<Row>) {
    forall i, k :: 0 <= i < k < |s| ==> s[i].j != s[k].j
  }

  lemma {:induction false} SortSorts(s: seq<Row>)
    requires DistinctJobs(s)
    ensures Sorted(Sort(s)) && |Sort(s)| == |s|
    ensures forall x :: x in Sort(s) <==> x in s
  {
    if s != [] {
      SortSorts(s[1..]);
      forall i | 0 <= i < |Sort(s[1..])| ensures Sort(s[1..])[i].j != s[0].j {
        assert Sort(s[1..])[i] in s[1..];
      }
      InsertSorts(Sort(s[1..]), s[0]);
    }
  }

  /** The jobs due now. */
  function DueSet(jobs: map<nat, Job>, now: int): set<nat> {
    set j | j in jobs && Due(jobs[j], now)
  }

  ghost function Given(out: seq<Row>): set<nat> {
    set c | c in out :: c.j
  }

  /** Distinct due jobs, claimed, in order. */
  ghost predicate InOrder(jobs: map<nat, Job>, out: seq<Row>, now: int, until: int) {
    && DistinctJobs(out) && Sorted(out)
    && (forall i :: 0 <= i < |out| ==> out[i].j in DueSet(jobs, now) && out[i].row == Claimed(jobs[out[i].j], until))
  }

  /** Every due job left out comes after every job handed out. */
  ghost predicate Firsts(jobs: map<nat, Job>, out: seq<Row>, now: int) {
    forall i, j :: 0 <= i < |out| && j in DueSet(jobs, now) - Given(out) ==> Before(out[i], Row(j, jobs[j]))
  }

  /** What a claim may hand out: the first due jobs in order, as many as the limit allows. */
  ghost predicate ClaimOf(jobs: map<nat, Job>, out: seq<Row>, now: int, until: int, limit: int) {
    && InOrder(jobs, out, now, until)
    && Firsts(jobs, out, now)
    && |out| == if limit <= 0 then 0 else if |DueSet(jobs, now)| > limit then limit else |DueSet(jobs, now)|
  }

  /** The stored rows after handing out. */
  ghost predicate Handed(jobs: map<nat, Job>, jobs': map<nat, Job>, out: seq<Row>) {
    && jobs'.Keys == jobs.Keys
    && (forall i :: 0 <= i < |out| ==> out[i].j in jobs && jobs'[out[i].j] == out[i].row)
    && (forall j :: j in jobs && j !in Given(out) ==> jobs'[j] == jobs[j])
  }

  /** The due rows, each once, in any order. */
  ghost predicate Collected(jobs: map<nat, Job>, due: seq<Row>, now: int) {
    && DistinctJobs(due)
    && (forall i :: 0 <= i < |due| ==> due[i].j in DueSet(jobs, now) && due[i].row == jobs[due[i].j])
    && (forall j :: j in DueSet(jobs, now) ==> Row(j, jobs[j]) in due)
  }

  lemma {:induction false} DistinctCount(due: seq<Row>)
    requires DistinctJobs(due)
    ensures |Given(due)| == |due|
  {
    if due != [] {
      var rest := due[1..];
      DistinctCount(rest);
      assert due == [due[0]] + rest;
      assert Given(due) == {due[0].j} + Given(rest);
    }
  }

  lemma CollectedCount(jobs: map<nat, Job>, due: seq<Row>, now: int)
    requires Collected(jobs, due, now)
    ensures |due| == |DueSet(jobs, now)|
  {
    DistinctCount(due);
    assert Given(due) == DueSet(jobs, now) by {
      forall j | j in DueSet(jobs, now) ensures j in Given(due) {
        assert Row(j, jobs[j]) in due;
      }
    }
  }

  lemma SortCollected(jobs: map<nat, Job>, due: seq<Row>, now: int)
    requires Collected(jobs, due, now)
    ensures Collected(jobs, Sort(due), now) && Sorted(Sort(due)) && |Sort(due)| == |due|
  {
    SortSorts(due);
    var s := Sort(due);
    forall i | 0 <= i < |s| ensures s[i].j in DueSet(jobs, now) && s[i].row == jobs[s[i].j] {
      assert s[i] in due;
    }
    forall i, k | 0 <= i < k < |s| ensures s[i].j != s[k].j {
      assert Before(s[i], s[k]) && s[i].row == jobs[s[i].j] && s[k].row == jobs[s[k].j];
    }
  }

  ghost predicate ClaimedFrom(picked: seq<Row>, out: seq<Row>, until: int) {
    && |out| == |picked|
    && forall i :: 0 <= i < |out| ==> out[i] == Row(picked[i].j, Claimed(picked[i].row, until))
  }

  lemma PickedInOrder(jobs: map<nat, Job>, s: seq<Row>, out: seq<Row>, now: int, until: int, limit: int)
    requires Collected(jobs, s, now) && Sorted(s) && ClaimedFrom(Paging.SqlLimit(s, limit), out, until)
    ensures InOrder(jobs, out, now, until)
  {
    forall i, k | 0 <= i < k < |out| ensures Before(out[i], out[k]) {
      assert Before(s[i], s[k]);
    }
  }

  lemma PickedFirst(jobs: map<nat, Job>, s: seq<Row>, out: seq<Row>, now: int, until: int, limit: int)
    requires Collected(jobs, s, now) && Sorted(s) && ClaimedFrom(Paging.SqlLimit(s, limit), out, until)
    ensures Firsts(jobs, out, now)
  {
    forall i, j | 0 <= i < |out| && j in DueSet(jobs, now) - Given(out) ensures Before(out[i], Row(j, jobs[j])) {
      var k :| 0 <= k < |s| && s[k] == Row(j, jobs[j]);
      assert k >= |out| by {
        assert k < |out| ==> out[k].j in Given(out);
      }
      assert Before(s[i], s[k]);
    }
  }

  lemma LimitedDistinct(jobs: map<nat, Job>, s: seq<Row>, now: int, limit: int)
    requires Collected(jobs, s, now)
    ensures var picked := Paging.SqlLimit(s, limit);
      DistinctJobs(picked) && forall i :: 0 <= i < |picked| ==> picked[i].j in DueSet(jobs, now) && jobs[picked[i].j] == picked[i].row
  {
    hide DueSet;
  }

  lemma LimitedCount(s: seq<Row>, out: seq<Row>, until: int, limit: int)
    requires ClaimedFrom(Paging.SqlLimit(s, limit), out, until)
    ensures |out| == if limit <= 0 then 0 else if |s| > limit then limit else |s|
  {
  }

  lemma ClaimFacts(jobs: map<nat, Job>, out: seq<Row>, now: int, until: int, limit: int)
    requires ClaimOf(jobs, out, now, until, limit)
    ensures DistinctJobs(out)
    ensures forall i :: 0 <= i < |out| ==> out[i].j in jobs && out[i].row.request == jobs[out[i].j].request
  {
  }

  /** The row waits for a worker: queued, its time has come, and no lease runs. */
  predicate Waits(row: Job, now: int) {
    row.status == Queued && row.runAfter <= now && (row.lease.None? || row.lease.value < now)
  }

  /** What the order means: by run_after, and by id among jobs of the same run_after; and
      no due job left out belongs before one handed out. */
  lemma ClaimOrder(jobs: map<nat, Job>, out: seq<Row>, now: int, until: int, limit: int)
    requires ClaimOf(jobs, out, now, until, limit)
    ensures forall i, k :: 0 <= i < k < |out| ==>
      out[i].row.runAfter < out[k].row.runAfter || (out[i].row.runAfter == out[k].row.runAfter && out[i].j < out[k].j)
    ensures forall i :: 0 <= i < |out| ==> out[i].j in jobs && Waits(jobs[out[i].j], now)
    ensures forall i, j :: 0 <= i < |out| && j in jobs && j !in Given(out) && Waits(jobs[j], now) ==>
      out[i].row.runAfter < jobs[j].runAfter || (out[i].row.runAfter == jobs[j].runAfter && out[i].j < j)
  {
    forall i, k | 0 <= i < k < |out|
      ensures out[i].row.runAfter < out[k].row.runAfter || (out[i].row.runAfter == out[k].row.runAfter && out[i].j < out[k].j)
    {
      assert Before(out[i], out[k]);
    }
    forall i, j | 0 <= i < |out| && j in jobs && j !in Given(out) && Waits(jobs[j], now)
      ensures out[i].row.runAfter < jobs[j].runAfter || (out[i].row.runAfter == jobs[j].runAfter && out[i].j < j)
    {
      assert j in DueSet(jobs, now) - Given(out);
      assert Before(out[i], Row(j, jobs[j]));
    }
  }

  class Store {
    var requests: map<nat, RequestStatus>
    var jobs: map<nat, Job>

    constructor ()
      ensures requests == map[] && jobs == map[]
    {
      requests, jobs := map[], map[];
    }

    ghost function Whole(ops: map<nat, Op>): State
      reads this
    {
      State(requests, jobs, ops)
    }

    /** ApproveRequest, uninterrupted; j is the new job's id. */
    method Approve(r: nat, j: nat, maxAttempts: nat, now: int) returns (reply: Reply)
      requires j !in jobs
      modifies this
      ensures (reply == NotFound <==> r !in old(requests)) && (reply == Ok <==> r in old(requests) && old(requests)[r] == Pending)
      ensures forall ops :: Whole(ops) == if reply == Ok
        then Committed(old(Whole(ops)), Approving(r), j, maxAttempts, now) else old(Whole(ops))
    {
      if r !in requests { return NotFound; }
      if requests[r] != Pending { return Conflict; }
      requests := requests[r := Approved];
      jobs := jobs[j := NewJob(r, maxAttempts, now)];
      return Ok;
    }

    method Reject(r: nat) returns (reply: Reply)
      modifies this`requests
      ensures (reply == NotFound <==> r !in old(requests)) && (reply == Ok <==> r in old(requests) && old(requests)[r] == Pending)
      ensures forall ops :: Whole(ops) == if reply == Ok
        then Committed(old(Whole(ops)), Rejecting(r), 0, 0, 0) else old(Whole(ops))
    {
      if r !in requests { return NotFound; }
      if requests[r] != Pending { return Conflict; }
      requests := requests[r := Rejected];
      return Ok;
    }

    /** CancelJob: takes a queued or a processing job. */
    method Cancel(j: nat) returns (reply: Reply)
      modifies this`jobs
      ensures (reply == NotFound <==> j !in old(jobs)) && (reply == Ok <==> j in old(jobs) && old(jobs)[j].status in {Queued, Processing})
      ensures forall ops :: Whole(ops) == if reply == Ok
        then Committed(old(Whole(ops)), Write(j, Cancelled(old(jobs)[j]), false), 0, 0, 0) else old(Whole(ops))
    {
      if j !in jobs { return NotFound; }
      var row := jobs[j];
      if row.status != Queued && row.status != Processing { return Conflict; }
      jobs := jobs[j := row.(status := Failed, lease := None, error := Some("cancelled"))];
      return Ok;
    }

    method Retry(j: nat, now: int) returns (reply: Reply)
      modifies this`jobs
      ensures (reply == NotFound <==> j !in old(jobs))
      ensures reply == Ok <==> j in old(jobs) && old(jobs)[j].status == Failed && old(jobs)[j].attempts < old(jobs)[j].maxAttempts
      ensures forall ops :: Whole(ops) == if reply == Ok
        then Committed(old(Whole(ops)), Write(j, Requeued(old(jobs)[j], now), true), 0, 0, now) else old(Whole(ops))
    {
      if j !in jobs { return NotFound; }
      var row := jobs[j];
      if row.status != Failed { return Conflict; }
      if row.attempts >= row.maxAttempts { return Conflict; }
      jobs := jobs[j := row.(status := Queued, error := None, lease := None, runAfter := now)];
      return Ok;
    }

    /** ProcessJob on a claimed copy; how the issuance ends is a parameter. A request that
        is gone cannot be read, and reading a stored one may fail. */
    method Process(c: Row, outcome: Outcome)
      requires c.row.request !in requests ==> outcome.Unreadable?
      modifies this
      ensures jobs == old(jobs)[c.j := Finished(c.row, outcome)]
      ensures requests == if outcome.Stored? then old(requests)[c.row.request := Issued] else old(requests)
    {
      if outcome.Unreadable? {
        jobs := jobs[c.j := FailedWith(c.row, "request unavailable")];
        return;
      }
      var row := c.row;
      match outcome
      case NotIssued(invalid) => jobs := jobs[c.j := FailedWith(row, Scrub(invalid))];
      case Stored(cert) =>
        row := row.(status := Completed, result := Some(cert), error := None, lease := None);
        jobs := jobs[c.j := row];
        requests := requests[row.request := Issued];
      case NotStored(cert) =>
        row := row.(status := Completed, result := Some(cert), error := None, lease := None);
        jobs := jobs[c.j := FailedWith(row, "persisting result failed")];
    }

    /** Once: claims a batch and processes it. Every job it claims is settled when it
        returns, with one attempt more; no other job changes. */
    method Once(now: int, lease: int, batch: int, ends: nat -> Outcome) returns (n: nat, ghost due: seq<Row>)
      requires forall j :: j in jobs && jobs[j].request !in requests ==> ends(j).Unreadable?
      modifies this
      ensures ClaimOf(old(jobs), due, now, now + lease, batch) && n == |due|
      ensures jobs.Keys == old(jobs).Keys
      ensures forall i :: 0 <= i < |due| ==> jobs[due[i].j] == Finished(due[i].row, ends(due[i].j))
      ensures forall j :: j in jobs && j !in Given(due) ==> jobs[j] == old(jobs)[j]
      ensures forall r :: r in old(requests) ==> r in requests && (requests[r] == old(requests)[r] || requests[r] == Issued)
    {
      var claimed := ClaimDueJobs(now, lease, batch);
      due := claimed;
      ClaimFacts(old(jobs), claimed, now, now + lease, batch);
      assert jobs.Keys == old(jobs).Keys && forall j :: j in jobs && j !in Given(claimed) ==> jobs[j] == old(jobs)[j];
      hide ClaimOf, Handed, Finished, DueSet, DistinctJobs;
      n := ProcessAll(claimed, ends);
    }

    /** The loop over a claimed batch. No job is left processing by it. */
    method ProcessAll(claimed: seq<Row>, ends: nat -> Outcome) returns (n: nat)
      requires DistinctJobs(claimed)
      requires forall i :: 0 <= i < |claimed| ==>
        claimed[i].j in jobs && (claimed[i].row.request !in requests ==> ends(claimed[i].j).Unreadable?)
      modifies this
      ensures n == |claimed| && jobs.Keys == old(jobs).Keys
      ensures forall i :: 0 <= i < |claimed| ==> jobs[claimed[i].j] == Finished(claimed[i].row, ends(claimed[i].j))
      ensures forall j :: j in jobs && j !in Given(claimed) ==> jobs[j] == old(jobs)[j]
      ensures forall r :: r in old(requests) ==> r in requests && (requests[r] == old(requests)[r] || requests[r] == Issued)
    {
      hide Finished;
      n := 0;
      for k := 0 to |claimed|
        invariant n == k && jobs.Keys == old(jobs).Keys && requests.Keys == old(requests).Keys
        invariant forall i :: 0 <= i < k ==> jobs[claimed[i].j] == Finished(claimed[i].row, ends(claimed[i].j))
        invariant forall j :: j in jobs && j !in Given(claimed) ==> jobs[j] == old(jobs)[j]
        invariant forall r :: r in old(requests) ==> requests[r] == old(requests)[r] || requests[r] == Issued
      {
        assert claimed[k].j in Given(claimed);
        Process(claimed[k], ends(claimed[k].j));
        n := n + 1;
      }
    }

    /** ClaimDueJobs under the store's lock. */
    method ClaimDueJobs(now: int, lease: int, limit: int) returns (out: seq<Row>)
      modifies this`jobs
      ensures ClaimOf(old(jobs), out, now, now + lease, limit)
      ensures Handed(old(jobs), jobs, out)
      ensures forall i, k :: 0 <= i < k < |out| ==>
        out[i].row.runAfter < out[k].row.runAfter || (out[i].row.runAfter == out[k].row.runAfter && out[i].j < out[k].j)
      ensures forall i, j :: 0 <= i < |out| && j in old(jobs) && j !in Given(out) && Waits(old(jobs)[j], now) ==>
        out[i].row.runAfter < old(jobs)[j].runAfter || (out[i].row.runAfter == old(jobs)[j].runAfter && out[i].j < j)
    {
      hide Collected, DueSet, Sort, Firsts, InOrder, Handed, ClaimedFrom, Waits, Given;
      var due := CollectDue(now);
      SortCollected(jobs, due, now);
      CollectedCount(jobs, due, now);
      ghost var before := jobs;
      var sorted := Sort(due);
      LimitedDistinct(jobs, sorted, now, limit);
      out := ClaimEach(Paging.SqlLimit(sorted, limit), now, now + lease);
      LimitedCount(sorted, out, now + lease, limit);
      PickedInOrder(before, sorted, out, now, now + lease, limit);
      PickedFirst(before, sorted, out, now, now + lease, limit);
      ClaimOrder(before, out, now, now + lease, limit);
    }

    /** The map is ranged over in no particular order. */
    method CollectDue(now: int) returns (due: seq<Row>)
      ensures Collected(jobs, due, now)
    {
      due := [];
      var left := jobs.Keys;
      while left != {}
        invariant left <= jobs.Keys && DistinctJobs(due)
        invariant forall i :: 0 <= i < |due| ==>
          due[i].j in DueSet(jobs, now) && due[i].j !in left && due[i].row == jobs[due[i].j]
        invariant forall j :: j in DueSet(jobs, now) ==> j in left || Row(j, jobs[j]) in due
        decreases |left|
      {
        var j :| j in left;
        left := left - {j};
        if Due(jobs[j], now) {
          due := due + [Row(j, jobs[j])];
        }
      }
    }

    method ClaimEach(picked: seq<Row>, ghost now: int, until: int) returns (out: seq<Row>)
      requires DistinctJobs(picked)
      requires forall i :: 0 <= i < |picked| ==> picked[i].j in DueSet(jobs, now) && jobs[picked[i].j] == picked[i].row
      modifies this`jobs
      ensures ClaimedFrom(picked, out, until)
      ensures Handed(old(jobs), jobs, out)
    {
      out := [];
      for n := 0 to |picked|
        invariant |out| == n && jobs.Keys == old(jobs).Keys
        invariant forall i :: 0 <= i < n ==>
          out[i] == Row(picked[i].j, Claimed(picked[i].row, until)) && jobs[picked[i].j] == out[i].row
        invariant forall i :: n <= i < |picked| ==> jobs[picked[i].j] == picked[i].row
        invariant forall j :: j in jobs && j !in Given(out) ==> jobs[j] == old(jobs)[j]
      {
        var stored := Claimed(jobs[picked[n].j], until);
        jobs := jobs[picked[n].j := stored];
        ghost var before := out;
        out := out + [Row(picked[n].j, stored)];
        assert forall j :: j in Given(before) ==> j in Given(out);
        assert out[n].j in Given(out);
      }
    }
  }
}
