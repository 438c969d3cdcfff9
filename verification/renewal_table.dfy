/** Passes over the certificate table: what is selected is superseded by a fresh certificate,
    and every automatically renewed lineage keeps one that is valid (internal/renew/renew.go,
    internal/issue/certificates.go, internal/issue/issue.go). */
module RenewalTable {
  import opened Common
  import opened Paging
  import opened Renewal

  datatype Table = Table(rows: map<nat, Certificate>, nextId: nat)

  ghost predicate WellKept(t: Table) {
    forall id :: id in t.rows ==> t.rows[id].id == id < t.nextId
  }

  /** The rows of the table as the scan orders them. */
  ghost predicate Listing(rows: seq<Certificate>, t: Table) {
    ByExpiry(rows) && forall c :: c in rows <==> c.id in t.rows && t.rows[c.id] == c
  }

  // ------------------------------------------------------------------ a pass

  /** What renewCert mints for a certificate. */
  function Successor(c: Certificate, id: nat, now: int): Certificate {
    Certificate(id, c.line, now, now + RenewedTtl(Ttl(c)), Active, false, true)
  }

  function RenewOne(t: Table, c: Certificate, now: int): Table {
    Table(t.rows[c.id := c.(superseded := true)][t.nextId := Successor(c, t.nextId, now)], t.nextId + 1)
  }

  function RenewAll(t: Table, due: seq<Certificate>, now: int): Table {
    if due == [] then t else RenewOne(RenewAll(t, due[..|due| - 1], now), due[|due| - 1], now)
  }

  function AfterPass(cfg: Config, t: Table, rows: seq<Certificate>, now: int): Table
    requires cfg.q > 0
  {
    RenewAll(t, Selected(cfg, rows, now), now)
  }

  /** RunOnce, every renewal succeeding: selects, then renews each. */
  method RunOnce(cfg: Config, t: Table, rows: seq<Certificate>, now: int) returns (t': Table, renewed: nat)
    requires cfg.q > 0
    ensures t' == AfterPass(cfg, t, rows, now) && renewed == |Selected(cfg, rows, now)|
  {
    var due := SelectDue(cfg, rows, now);
    t', renewed := t, 0;
    while renewed < |due|
      invariant renewed <= |due| && t' == RenewAll(t, due[..renewed], now)
    {
      assert due[..renewed + 1][..renewed] == due[..renewed];
      var old' := due[renewed].(superseded := true);
      t' := Table(t'.rows[old'.id := old'][t'.nextId := Successor(due[renewed], t'.nextId, now)], t'.nextId + 1);
      renewed := renewed + 1;
    }
    assert due[..|due|] == due;
  }

  // ---------------------------------------------------------------- a lineage

  /** c is the one row of the line that is not superseded. */
  ghost predicate OneLive(t: Table, line: nat, c: Certificate) {
    && c.id in t.rows && t.rows[c.id] == c && c.line == line && !c.superseded
    && (forall id :: id in t.rows && t.rows[id].line == line && !t.rows[id].superseded ==> id == c.id)
  }

  /** The rows of a line. */
  function LineRows(t: Table, line: nat): map<nat, Certificate> {
    map id | id in t.rows && t.rows[id].line == line :: t.rows[id]
  }

  lemma LiveByLine(t: Table, t': Table, line: nat, c: Certificate)
    requires LineRows(t, line) == LineRows(t', line) && OneLive(t, line, c)
    ensures OneLive(t', line, c)
  {
    assert c.id in LineRows(t, line) && LineRows(t, line)[c.id] == c;
    forall id | id in t'.rows && t'.rows[id].line == line && !t'.rows[id].superseded ensures id == c.id {
      assert id in LineRows(t', line) && LineRows(t', line)[id] == t'.rows[id];
    }
  }

  lemma RenewOther(t: Table, d: Certificate, now: int, line: nat, c: Certificate)
    requires WellKept(t) && d.id in t.rows && d.line != line && t.rows[d.id].line == d.line && OneLive(t, line, c)
    ensures OneLive(RenewOne(t, d, now), line, c)
  {
  }

  lemma RenewOwn(t: Table, now: int, line: nat, c: Certificate)
    requires WellKept(t) && OneLive(t, line, c)
    ensures OneLive(RenewOne(t, c, now), line, Successor(c, t.nextId, now))
  {
  }

  /** Selected rows: stored, not superseded, no two of one id. */
  ghost predicate Renewable(t: Table, due: seq<Certificate>) {
    && (forall i :: 0 <= i < |due| ==> due[i].id in t.rows && t.rows[due[i].id] == due[i] && !due[i].superseded)
    && (forall i, k :: 0 <= i < k < |due| ==> due[i].id != due[k].id)
  }

  /** Renewing rows leaves the table well kept and every other old row as it was. */
  lemma {:induction false} RenewAllKeeps(t: Table, due: seq<Certificate>, now: int)
    requires WellKept(t) && Renewable(t, due)
    ensures var t' := RenewAll(t, due, now);
      && WellKept(t') && t.nextId <= t'.nextId
      && forall id :: id in t.rows && (forall i :: 0 <= i < |due| ==> due[i].id != id) ==> id in t'.rows && t'.rows[id] == t.rows[id]
  {
    if due != [] {
      var n := |due| - 1;
      RenewAllKeeps(t, due[..n], now);
      var m := RenewAll(t, due[..n], now);
      assert forall i :: 0 <= i < n ==> due[..n][i] == due[i];
      assert due[n].id in m.rows && m.rows[due[n].id] == due[n];
    }
  }

  lemma {:induction false} RenewAllLine(t: Table, due: seq<Certificate>, now: int, line: nat, c: Certificate) returns (c': Certificate)
    requires WellKept(t) && Renewable(t, due) && OneLive(t, line, c)
    ensures OneLive(RenewAll(t, due, now), line, c')
    ensures c' == if c in due then Successor(c, c'.id, now) else c
  {
    if due == [] {
      c' := c;
    } else {
      var n := |due| - 1;
      var d := due[n];
      c' := RenewAllLine(t, due[..n], now, line, c);
      RenewAllKeeps(t, due[..n], now);
      var m := RenewAll(t, due[..n], now);
      assert forall i :: 0 <= i < n ==> due[..n][i] == due[i];
      assert d.id in m.rows && m.rows[d.id] == d;
      if d.line == line {
        assert d == c && c !in due[..n];
        RenewOwn(m, now, line, c);
        c' := Successor(c, m.nextId, now);
      } else {
        RenewOther(m, d, now, line, c');
      }
      assert c in due <==> c in due[..n] || c == d;
    }
  }

  lemma {:induction false} KeepDistinct(rows: seq<Certificate>, p: Certificate -> bool)
    requires forall i, k :: 0 <= i < k < |rows| ==> rows[i].id != rows[k].id
    ensures forall i, k :: 0 <= i < k < |Keep(rows, p)| ==> Keep(rows, p)[i].id != Keep(rows, p)[k].id
  {
    if rows != [] {
      var rest := Keep(rows[1..], p);
      KeepDistinct(rows[1..], p);
      forall k | 0 <= k < |rest| ensures rest[k].id != rows[0].id {
        KeepIn(rows[1..], p, rest[k]);
      }
    }
  }

  lemma SelectedRenewable(cfg: Config, t: Table, rows: seq<Certificate>, now: int)
    requires cfg.q > 0 && WellKept(t) && Listing(rows, t)
    ensures Renewable(t, Selected(cfg, rows, now))
  {
    forall i, k | 0 <= i < k < |rows| ensures rows[i].id != rows[k].id {
      assert rows[i] in rows && rows[k] in rows;
    }
    KeepDistinct(rows, IsCandidate(cfg, now));
    KeepDistinct(Scan(cfg, rows, now), IsDue(cfg, now));
    var due := Selected(cfg, rows, now);
    forall i | 0 <= i < |due| ensures due[i].id in t.rows && t.rows[due[i].id] == due[i] && !due[i].superseded {
      SelectedFrom(cfg, rows, now, due[i]);
    }
  }

  /** A certificate of a lineage that renews by itself. */
  ghost predicate Carried(c: Certificate) {
    c.status in {Active, Expiring} && c.autoRenew && 0 < Ttl(c) <= MAX_TTL
  }

  function AsCurrent(c: Certificate): Current {
    Current(c.notBefore, Ttl(c))
  }

  /** Fewer than a batch of candidates expire before the certificate when it is wanted. */
  ghost predicate Reached(cfg: Config, rows: seq<Certificate>, now: int, c: Certificate)
    requires cfg.q > 0
  {
    forall i :: 0 <= i < |rows| && rows[i] == c && Wanted(cfg, c, now) ==> AheadOf(cfg, rows, now, i) < MAX_BATCH
  }

  /** A lineage's certificate is selected exactly when a pass renews it. */
  lemma SelectedIsPassed(cfg: Config, t: Table, rows: seq<Certificate>, now: int, line: nat, c: Certificate)
    requires Valid(cfg) && Listing(rows, t) && OneLive(t, line, c) && Carried(c) && Reached(cfg, rows, now, c)
    ensures c in Selected(cfg, rows, now) <==> Wanted(cfg, c, now)
    ensures Passed(cfg, AsCurrent(c), now) == if c in Selected(cfg, rows, now) then Current(now, RenewedTtl(Ttl(c))) else AsCurrent(c)
  {
    assert c in rows;
    var i :| 0 <= i < |rows| && rows[i] == c;
    RowSelected(cfg, rows, now, i);
  }

  /** After a pass the lineage has again one live row: the one the pass leaves it with. */
  lemma LinePasses(cfg: Config, t: Table, rows: seq<Certificate>, now: int, line: nat, c: Certificate) returns (c': Certificate)
    requires Valid(cfg) && WellKept(t) && Listing(rows, t) && OneLive(t, line, c) && Carried(c) && Reached(cfg, rows, now, c)
    ensures OneLive(AfterPass(cfg, t, rows, now), line, c') && Carried(c')
    ensures AsCurrent(c') == Passed(cfg, AsCurrent(c), now)
  {
    SelectedRenewable(cfg, t, rows, now);
    SelectedIsPassed(cfg, t, rows, now, line, c);
    hide Selected, Passed, OneLive, Listing, RenewAll, Wanted, Reached;
    c' := RenewAllLine(t, Selected(cfg, rows, now), now, line, c);
    LifetimeKept(Ttl(c));
  }

  // -------------------------------------------------------------------- runs

  /** Tables at the passes and their listings. Between two passes other lineages may change
      in any way; this one changes by the pass alone. */
  ghost predicate Passes(cfg: Config, tables: seq<Table>, listings: seq<seq<Certificate>>, times: seq<int>, line: nat)
    requires cfg.q > 0
  {
    && |tables| == |times| + 1 && |listings| == |times|
    && (forall k :: 0 <= k < |times| ==> WellKept(tables[k]) && Listing(listings[k], tables[k]))
    && (forall k :: 0 <= k < |times| ==>
          LineRows(tables[k + 1], line) == LineRows(AfterPass(cfg, tables[k], listings[k], times[k]), line))
  }

  /** At no pass a full batch of candidates is before the lineage's certificate. */
  ghost predicate AlwaysReached(cfg: Config, tables: seq<Table>, listings: seq<seq<Certificate>>, times: seq<int>, line: nat)
    requires cfg.q > 0 && |tables| == |times| + 1 && |listings| == |times|
  {
    forall k, c :: 0 <= k < |times| && OneLive(tables[k], line, c) ==> Reached(cfg, listings[k], times[k], c)
  }

  ghost predicate LineRun(cfg: Config, tables: seq<Table>, listings: seq<seq<Certificate>>, times: seq<int>, start: Certificate) {
    && Valid(cfg) && Passes(cfg, tables, listings, times, start.line) && AlwaysReached(cfg, tables, listings, times, start.line)
    && OneLive(tables[0], start.line, start) && Carried(start)
  }

  /** At every pass the lineage has exactly one row that is not superseded, from the time
      and of the lifetime that the passes so far give it. */
  lemma {:induction false} LineageFollows(cfg: Config, tables: seq<Table>, listings: seq<seq<Certificate>>, times: seq<int>, start: Certificate, k: nat)
      returns (c: Certificate)
    requires LineRun(cfg, tables, listings, times, start) && k <= |times|
    ensures OneLive(tables[k], start.line, c) && Carried(c) && AsCurrent(c) == At(cfg, AsCurrent(start), times, k)
  {
    if k == 0 {
      c := start;
    } else {
      var b := LineageFollows(cfg, tables, listings, times, start, k - 1);
      hide OneLive, Carried, Passed, AfterPass, LineRows, Listing, Reached;
      c := LinePasses(cfg, tables[k - 1], listings[k - 1], times[k - 1], start.line, b);
      LiveByLine(AfterPass(cfg, tables[k - 1], listings[k - 1], times[k - 1]), tables[k], start.line, c);
    }
  }

  /** The lineage's live row is unexpired at pass k. */
  ghost predicate ValidAt(t: Table, line: nat, now: int) {
    exists c :: OneLive(t, line, c) && now < c.notAfter
  }

  lemma LiveUnique(t: Table, line: nat, b: Certificate, c: Certificate)
    requires OneLive(t, line, b) && OneLive(t, line, c)
    ensures b == c
  {
  }

  /** Under every schedule: the lineage always has exactly one row that is not superseded,
      and it is unexpired at every pass if and only if the lineage never lapses. */
  lemma LineageValid(cfg: Config, tables: seq<Table>, listings: seq<seq<Certificate>>, times: seq<int>, start: Certificate)
    requires LineRun(cfg, tables, listings, times, start)
    ensures (forall k :: 0 <= k < |times| ==> ValidAt(tables[k], start.line, times[k])) <==> NeverLapses(cfg, AsCurrent(start), times)
  {
    assert |tables| == |times| + 1;
    hide OneLive, Carried, At, Passes, AlwaysReached;
    forall k | 0 <= k < |times|
      ensures ValidAt(tables[k], start.line, times[k]) <==>
        times[k] < At(cfg, AsCurrent(start), times, k).from + At(cfg, AsCurrent(start), times, k).ttl
    {
      var c := LineageFollows(cfg, tables, listings, times, start, k);
      if b :| OneLive(tables[k], start.line, b) && times[k] < b.notAfter {
        LiveUnique(tables[k], start.line, b, c);
      }
    }
  }

  /** So passes that are never further apart than the windows of its lifetimes keep a valid
      certificate for every lineage. */
  lemma LineageCovered(cfg: Config, tables: seq<Table>, listings: seq<seq<Certificate>>, times: seq<int>, start: Certificate, gap: int, k: nat)
    requires LineRun(cfg, tables, listings, times, start) && Schedule(AsCurrent(start), times, gap) && k < |times|
    requires gap <= Window(cfg, Ttl(start)) && gap <= Window(cfg, RenewedTtl(Ttl(start)))
    ensures ValidAt(tables[k], start.line, times[k])
  {
    assert Valid(cfg) && Ttl(start) > 0 && |tables| == |times| + 1;
    hide LineRun, Passes, AlwaysReached, ValidAt, Schedule, Window, At;
    CoverageExact(cfg, AsCurrent(start), gap);
    LineageValid(cfg, tables, listings, times, start);
  }
}
