/** When certificates are renewed, and that a lineage never lapses
    (internal/renew/renew.go, internal/issue/issue.go, internal/issue/certificates.go,
    internal/store/repos.go). Durations are nanoseconds; the fraction is p / q. */
module Renewal {
  import opened Common
  import opened Paging

  const SECOND := 1_000_000_000
  const DAY := 24 * 3600 * SECOND
  const MIN_VALIDITY := 60
  const DEFAULT_VALIDITY := 90 * 24 * 3600
  const MAX_VALIDITY := 365 * 24 * 3600
  const MAX_TTL := MAX_VALIDITY * SECOND
  const EXPIRING_WINDOW := 30 * DAY
  const MAX_BATCH := 256

  /** The scheduler's configuration, after its defaults. */
  datatype Config = Config(p: int, q: int, longLived: int)

  ghost predicate Valid(cfg: Config) {
    0 < cfg.p < cfg.q && cfg.longLived > 0
  }

  const DEFAULTS := Config(1, 2, 30 * DAY)

  datatype Status = Active | Expiring | Expired | Revoked

  /** line is the certificate that its chain of renewals started from. */
  datatype Certificate = Certificate(id: nat, line: nat, notBefore: int, notAfter: int, status: Status, superseded: bool, autoRenew: bool)

  function Ttl(c: Certificate): int {
    c.notAfter - c.notBefore
  }

  /** n p / q, rounded down, for n not negative. */
  function Share(n: int, p: int, q: int): int
    requires q > 0
  {
    n * p / q
  }

  /** How long before expiry a certificate of a lifetime is renewed. */
  function Window(cfg: Config, ttl: int): int
    requires cfg.q > 0
  {
    if ttl <= 0 then cfg.longLived
    else if ttl <= cfg.longLived then Share(ttl, cfg.p, cfg.q)
    else Max(cfg.longLived, Share(ttl, cfg.q - cfg.p, cfg.q))
  }

  predicate Due(cfg: Config, c: Certificate, now: int)
    requires cfg.q > 0
  {
    now >= c.notAfter - Window(cfg, Ttl(c))
  }

  function MaxWindow(cfg: Config): int
    requires cfg.q > 0
  {
    Max(cfg.longLived, Share(MAX_TTL, cfg.q - cfg.p, cfg.q))
  }

  // ---------------------------------------------------------------- the scan

  lemma ShareGrows(m: int, n: int, p: int, q: int)
    requires 0 <= m <= n && 0 <= p && 0 < q
    ensures Share(m, p, q) <= Share(n, p, q)
  {
    assert m * p <= n * p;
    DivGrows(m * p, n * p, q);
  }

  lemma DivGrows(a: int, b: int, q: int)
    requires 0 <= a <= b && 0 < q
    ensures a / q <= b / q
  {
    assert q * (a / q) <= a && b < q * (b / q) + q;
    var d := a / q - b / q;
    assert q * d < q;
    assert d >= 1 ==> q * d >= q;
  }

  lemma SharePart(n: int, p: int, q: int)
    requires 0 < n && 0 < p < q
    ensures 0 <= Share(n, p, q) < n
  {
    assert 0 <= n * p < n * q;
    DivGrows(0, n * p, q);
    assert q * (n * p / q) <= n * p;
  }

  /** No certificate is due the moment it is issued. */
  lemma FreshNotDue(cfg: Config, ttl: int)
    requires Valid(cfg) && ttl > 0
    ensures 0 <= Window(cfg, ttl) < ttl
  {
    SharePart(ttl, cfg.p, cfg.q);
    SharePart(ttl, cfg.q - cfg.p, cfg.q);
  }

  /** The scan's bound covers every lifetime the service issues. */
  lemma WindowBounded(cfg: Config, ttl: int)
    requires Valid(cfg) && ttl <= MAX_TTL
    ensures Window(cfg, ttl) <= MaxWindow(cfg)
  {
    if 0 < ttl <= cfg.longLived {
      FreshNotDue(cfg, ttl);
    } else if ttl > 0 {
      ShareGrows(ttl, MAX_TTL, cfg.q - cfg.p, cfg.q);
    }
  }

  /** And no more than that: some lifetime within the service's limit needs all of it. */
  lemma WindowTight(cfg: Config) returns (ttl: int)
    requires Valid(cfg)
    ensures ttl <= 365 * 24 * 3600 * 1_000_000_000 && Window(cfg, ttl) == MaxWindow(cfg)
  {
    if cfg.longLived < MAX_TTL {
      ttl := MAX_TTL;
    } else {
      ttl := 0;
      FreshNotDue(cfg, MAX_TTL);
      SharePart(MAX_TTL, cfg.q - cfg.p, cfg.q);
    }
  }

  /** The scan reaches a certificate at every moment it is due and not expired, exactly
      when its window is within the bound. */
  lemma ScanReaches(cfg: Config, c: Certificate)
    requires Valid(cfg)
    ensures (forall now :: now < c.notAfter && Due(cfg, c, now) ==> c.notAfter <= now + MaxWindow(cfg))
      <==> Window(cfg, Ttl(c)) <= MaxWindow(cfg)
  {
    var at := c.notAfter - Window(cfg, Ttl(c));
    assert Due(cfg, c, at);
    if Ttl(c) > 0 {
      FreshNotDue(cfg, Ttl(c));
    }
  }

  /** A certificate imported with its key, automatic renewal asked for and valid for ten
      years, is due long before the scan reaches it. */
  lemma LongImportMissed()
    ensures var c := Certificate(0, 0, 0, 10 * MAX_TTL, Active, false, true);
      var now := 5 * MAX_TTL;
      now < c.notAfter && Due(DEFAULTS, c, now) && c.notAfter > now + MaxWindow(DEFAULTS)
  {
  }

  lemma ShareMeans(rest: int, n: int, p: int, q: int)
    requires 0 < q
    ensures rest <= Share(n, p, q) <==> rest * q <= n * p
  {
    var w := n * p / q;
    assert q * w <= n * p < q * w + q;
    if rest <= w {
      assert q * rest <= q * w;
    } else {
      assert q * (w + 1) <= q * rest;
    }
  }

  /** When a certificate is due, without rounding: a short-lived one when what remains of
      its lifetime is at most the fraction of it; a longer one within the fixed window, or
      when what remains is at most the rest of the fraction. */
  lemma DueMeans(cfg: Config, c: Certificate, now: int)
    requires Valid(cfg) && Ttl(c) > 0
    ensures var left := c.notAfter - now;
      Due(cfg, c, now) <==>
        if Ttl(c) <= cfg.longLived then left * cfg.q <= Ttl(c) * cfg.p
        else left <= cfg.longLived || left * cfg.q <= Ttl(c) * (cfg.q - cfg.p)
  {
    ShareMeans(c.notAfter - now, Ttl(c), cfg.p, cfg.q);
    ShareMeans(c.notAfter - now, Ttl(c), cfg.q - cfg.p, cfg.q);
  }

  // ------------------------------------------------------------------ a pass

  predicate Candidate(cfg: Config, c: Certificate, now: int)
    requires cfg.q > 0
  {
    && (c.status == Active || c.status == Expiring) && !c.superseded && c.autoRenew
    && now < c.notAfter <= now + MaxWindow(cfg)
  }

  ghost predicate ByExpiry(rows: seq<Certificate>) {
    forall i, k :: 0 <= i < k < |rows| ==>
      rows[i].notAfter < rows[k].notAfter || (rows[i].notAfter == rows[k].notAfter && rows[i].id < rows[k].id)
  }

  /** DueForRenewal over the stored rows, by expiry. */
  function Scan(cfg: Config, rows: seq<Certificate>, now: int): seq<Certificate>
    requires cfg.q > 0
  {
    SqlLimit(Keep(rows, IsCandidate(cfg, now)), MAX_BATCH)
  }

  function IsCandidate(cfg: Config, now: int): Certificate -> bool
    requires cfg.q > 0
  {
    (c: Certificate) => Candidate(cfg, c, now)
  }

  function IsDue(cfg: Config, now: int): Certificate -> bool
    requires cfg.q > 0
  {
    (c: Certificate) => Due(cfg, c, now)
  }

  /** The scanned certificates that are due. */
  function Selected(cfg: Config, rows: seq<Certificate>, now: int): seq<Certificate>
    requires cfg.q > 0
  {
    Keep(Scan(cfg, rows, now), IsDue(cfg, now))
  }

  /** The certificates a pass renews: the scanned ones that are due, each once. */
  method SelectDue(cfg: Config, rows: seq<Certificate>, now: int) returns (due: seq<Certificate>)
    requires cfg.q > 0
    ensures due == Selected(cfg, rows, now)
  {
    var scanned := Scan(cfg, rows, now);
    due := [];
    var p := IsDue(cfg, now);
    KeepEmpty(scanned, p, 0);
    for n := 0 to |scanned|
      invariant due == Keep(scanned[0..n], p)
    {
      KeepNext(scanned, p, 0, n);
      if Due(cfg, scanned[n], now) {
        due := due + [scanned[n]];
      }
    }
    assert scanned[0..|scanned|] == scanned;
  }

  /** What should be renewed now: live, not superseded, renewed automatically, due. */
  predicate Wanted(cfg: Config, c: Certificate, now: int)
    requires cfg.q > 0
  {
    && (c.status == Active || c.status == Expiring) && !c.superseded && c.autoRenew
    && now < c.notAfter && Due(cfg, c, now)
  }

  /** How many certificates the scan takes before row i. */
  function AheadOf(cfg: Config, rows: seq<Certificate>, now: int, i: nat): nat
    requires cfg.q > 0 && i <= |rows|
  {
    |Keep(rows[..i], IsCandidate(cfg, now))|
  }

  lemma DistinctRows(rows: seq<Certificate>, i: nat)
    requires ByExpiry(rows) && i < |rows|
    ensures rows[i] !in rows[..i] && rows[i] !in rows[i + 1..]
  {
    forall k | 0 <= k < |rows| && k != i ensures rows[k] != rows[i] {
    }
  }

  /** A scan takes every candidate, or 256 of them. */
  lemma BatchSize(cfg: Config, rows: seq<Certificate>, now: int)
    requires cfg.q > 0
    ensures |Scan(cfg, rows, now)| == Min(256, |Keep(rows, IsCandidate(cfg, now))|)
    ensures Scan(cfg, rows, now) <= Keep(rows, IsCandidate(cfg, now))
  {
  }

  /** Where a candidate stands among the candidates. */
  lemma ScanTakes(cfg: Config, rows: seq<Certificate>, now: int, i: nat)
    requires cfg.q > 0 && ByExpiry(rows) && i < |rows| && Candidate(cfg, rows[i], now)
    ensures rows[i] in Scan(cfg, rows, now) <==> AheadOf(cfg, rows, now, i) < MAX_BATCH
  {
    var p, r := IsCandidate(cfg, now), rows[i];
    var a, b := Keep(rows[..i], p), Keep(rows[i + 1..], p);
    assert rows == rows[..i] + ([r] + rows[i + 1..]);
    KeepSplit(rows[..i], [r] + rows[i + 1..], p);
    KeepSplit([r], rows[i + 1..], p);
    assert Keep([r], p) == [r];
    assert Keep(rows, p) == a + ([r] + b);
    DistinctRows(rows, i);
    KeepIn(rows[..i], p, r);
    if |a| < MAX_BATCH {
      assert Scan(cfg, rows, now)[|a|] == r;
    } else {
      assert Scan(cfg, rows, now) == a[..MAX_BATCH];
    }
  }

  /** A row is selected exactly when it is wanted and fewer than a batch are before it. */
  lemma RowSelected(cfg: Config, rows: seq<Certificate>, now: int, i: nat)
    requires Valid(cfg) && ByExpiry(rows) && i < |rows| && Ttl(rows[i]) <= MAX_TTL
    ensures rows[i] in Selected(cfg, rows, now) <==> Wanted(cfg, rows[i], now) && AheadOf(cfg, rows, now, i) < MAX_BATCH
  {
    var r := rows[i];
    KeepIn(Scan(cfg, rows, now), IsDue(cfg, now), r);
    WindowBounded(cfg, Ttl(r));
    if Candidate(cfg, r, now) {
      ScanTakes(cfg, rows, now, i);
    } else {
      KeepIn(rows, IsCandidate(cfg, now), r);
    }
  }

  lemma SelectedFrom(cfg: Config, rows: seq<Certificate>, now: int, c: Certificate)
    requires cfg.q > 0 && c in Selected(cfg, rows, now)
    ensures c in rows && Wanted(cfg, c, now)
  {
    KeepIn(Scan(cfg, rows, now), IsDue(cfg, now), c);
    KeepIn(rows, IsCandidate(cfg, now), c);
  }

  /** No wanted row has a full batch of candidates before it. */
  ghost predicate BatchReaches(cfg: Config, rows: seq<Certificate>, now: int)
    requires cfg.q > 0
  {
    forall i :: 0 <= i < |rows| && Wanted(cfg, rows[i], now) ==> AheadOf(cfg, rows, now, i) < MAX_BATCH
  }

  /** A pass selects exactly the wanted certificates, if and only if fewer than a batch of
      candidates expire before each of them. */
  lemma PassExact(cfg: Config, rows: seq<Certificate>, now: int)
    requires Valid(cfg) && ByExpiry(rows) && (forall i :: 0 <= i < |rows| ==> Ttl(rows[i]) <= MAX_TTL)
    ensures (forall c :: c in Selected(cfg, rows, now) <==> c in rows && Wanted(cfg, c, now)) <==> BatchReaches(cfg, rows, now)
  {
    hide Selected, Wanted, AheadOf, ByExpiry;
    forall i | 0 <= i < |rows|
      ensures rows[i] in Selected(cfg, rows, now) <==> Wanted(cfg, rows[i], now) && AheadOf(cfg, rows, now, i) < MAX_BATCH
    {
      RowSelected(cfg, rows, now, i);
    }
    if BatchReaches(cfg, rows, now) {
      forall c ensures c in Selected(cfg, rows, now) <==> c in rows && Wanted(cfg, c, now) {
        if c in Selected(cfg, rows, now) {
          SelectedFrom(cfg, rows, now, c);
        }
      }
    }
  }

  // ---------------------------------------------------------- renewed lifetimes

  /** Go's division: toward zero. */
  function Quotient(a: int, b: int): int
    requires b > 0
  {
    if a >= 0 then a / b else -((-a) / b)
  }

  function ClampValidity(seconds: int): int {
    var s := if seconds <= 0 then DEFAULT_VALIDITY else seconds;
    Min(Max(s, MIN_VALIDITY), MAX_VALIDITY) * SECOND
  }

  /** The lifetime a renewal gives. */
  function RenewedTtl(ttl: int): int {
    ClampValidity(Quotient(ttl, SECOND))
  }

  /** The lifetime given for a requested one: ninety days when none is asked for, else the
      request held between a minute and a year. */
  lemma ClampMeans(seconds: int)
    ensures seconds <= 0 ==> ClampValidity(seconds) == 90 * 24 * 3600 * 1_000_000_000
    ensures 0 < seconds < 60 ==> ClampValidity(seconds) == 60 * 1_000_000_000
    ensures 60 <= seconds <= 365 * 24 * 3600 ==> ClampValidity(seconds) == seconds * 1_000_000_000
    ensures seconds > 365 * 24 * 3600 ==> ClampValidity(seconds) == 365 * 24 * 3600 * 1_000_000_000
  {
  }

  /** A renewal keeps the lifetime exactly when it is whole seconds between a minute and
      a year; renewing again never changes it further. */
  lemma LifetimeKept(ttl: int)
    ensures RenewedTtl(ttl) == ttl <==> ttl % SECOND == 0 && MIN_VALIDITY * SECOND <= ttl <= MAX_TTL
    ensures RenewedTtl(RenewedTtl(ttl)) == RenewedTtl(ttl)
    ensures MIN_VALIDITY * SECOND <= RenewedTtl(ttl) <= MAX_TTL
    ensures MIN_VALIDITY * SECOND <= ttl <= MAX_TTL ==> ttl - SECOND < RenewedTtl(ttl) <= ttl
    ensures ttl < SECOND ==> RenewedTtl(ttl) == DEFAULT_VALIDITY * SECOND
  {
  }

  // ------------------------------------------------------------- never a lapse

  /** The current certificate of a lineage. */
  datatype Current = Current(from: int, ttl: int)

  /** A pass at time t over the lineage: an expired certificate is not found. */
  function Passed(cfg: Config, c: Current, t: int): Current
    requires cfg.q > 0
  {
    if t < c.from + c.ttl && t >= c.from + c.ttl - Window(cfg, c.ttl) then Current(t, RenewedTtl(c.ttl)) else c
  }

  /** The certificate that is current just before pass k. */
  function At(cfg: Config, start: Current, times: seq<int>, k: nat): Current
    requires cfg.q > 0 && k <= |times|
  {
    if k == 0 then start else Passed(cfg, At(cfg, start, times, k - 1), times[k - 1])
  }

  /** Passes from the start on, never more than gap apart. */
  ghost predicate Schedule(start: Current, times: seq<int>, gap: int) {
    && (forall k :: 0 <= k < |times| ==> times[k] >= start.from)
    && (|times| > 0 ==> times[0] <= start.from + gap)
    && (forall k :: 0 < k < |times| ==> times[k - 1] <= times[k] <= times[k - 1] + gap)
  }

  /** At every pass the lineage still has a certificate that is not expired. */
  ghost predicate NeverLapses(cfg: Config, start: Current, times: seq<int>)
    requires cfg.q > 0
  {
    forall k :: 0 <= k < |times| ==> times[k] < At(cfg, start, times, k).from + At(cfg, start, times, k).ttl
  }

  /** Not due yet at time t, and of a lifetime that the gap suits. */
  ghost predicate Safe(cfg: Config, c: Current, t: int, gap: int)
    requires cfg.q > 0
  {
    && c.ttl > 0 && t < c.from + c.ttl - Window(cfg, c.ttl)
    && gap <= Window(cfg, c.ttl) && gap <= Window(cfg, RenewedTtl(c.ttl))
  }

  lemma {:induction false} StaysSafe(cfg: Config, start: Current, times: seq<int>, gap: int, k: nat)
    requires Valid(cfg) && start.ttl > 0 && Schedule(start, times, gap) && k <= |times|
    requires gap <= Window(cfg, start.ttl) && gap <= Window(cfg, RenewedTtl(start.ttl))
    ensures Safe(cfg, At(cfg, start, times, k), if k == 0 then start.from else times[k - 1], gap)
    ensures k < |times| ==> times[k] < At(cfg, start, times, k).from + At(cfg, start, times, k).ttl
  {
    if k == 0 {
      FreshNotDue(cfg, start.ttl);
    } else {
      StaysSafe(cfg, start, times, gap, k - 1);
      var ttl := At(cfg, start, times, k - 1).ttl;
      LifetimeKept(ttl);
      FreshNotDue(cfg, RenewedTtl(ttl));
    }
  }

  /** A pass every nanosecond for n passes, and one more after a last gap. */
  function UnitSteps(start: Current, n: nat, gap: int): seq<int>
    requires n > 0
  {
    seq(n, (i: int) => start.from + i) + [start.from + n - 1 + gap]
  }

  /** Under unit steps the first certificate is renewed the moment it is due. */
  lemma {:induction false} UnitAt(cfg: Config, start: Current, n: nat, gap: int, k: nat)
    requires Valid(cfg) && start.ttl > 0 && 0 < n && k <= n
    requires var d := start.ttl - Window(cfg, start.ttl);
      n <= d || (Window(cfg, start.ttl) > 0 && n <= d + RenewedTtl(start.ttl) - Window(cfg, RenewedTtl(start.ttl)))
    ensures var d := start.ttl - Window(cfg, start.ttl);
      At(cfg, start, UnitSteps(start, n, gap), k) == if k <= d then start else Current(start.from + d, RenewedTtl(start.ttl))
  {
    FreshNotDue(cfg, start.ttl);
    hide Window, RenewedTtl;
    if k > 0 {
      UnitAt(cfg, start, n, gap, k - 1);
      assert UnitSteps(start, n, gap)[k - 1] == start.from + k - 1;
    }
  }

  lemma UnitSchedule(start: Current, n: nat, gap: int)
    requires n > 0 && gap > 0
    ensures Schedule(start, UnitSteps(start, n, gap), gap)
  {
  }

  /** A gap wider than a window lets the certificate of that window expire. */
  lemma WideGapLapses(cfg: Config, start: Current, gap: int) returns (times: seq<int>)
    requires Valid(cfg) && start.ttl > 0
    requires gap > Window(cfg, start.ttl) || gap > Window(cfg, RenewedTtl(start.ttl))
    ensures Schedule(start, times, gap) && !NeverLapses(cfg, start, times)
  {
    LifetimeKept(start.ttl);
    FreshNotDue(cfg, start.ttl);
    FreshNotDue(cfg, RenewedTtl(start.ttl));
    var n := start.ttl - Window(cfg, start.ttl);
    if gap <= Window(cfg, start.ttl) {
      n := n + RenewedTtl(start.ttl) - Window(cfg, RenewedTtl(start.ttl));
    }
    times := UnitSteps(start, n, gap);
    UnitSchedule(start, n, gap);
    UnitAt(cfg, start, n, gap, n);
    assert times[n] >= At(cfg, start, times, n).from + At(cfg, start, times, n).ttl;
  }

  /** A lineage never lapses under every schedule of passes with a given largest gap, if
      and only if the gap is within the window of its first and its renewed lifetime. */
  lemma CoverageExact(cfg: Config, start: Current, gap: int)
    requires Valid(cfg) && start.ttl > 0
    ensures (forall times :: Schedule(start, times, gap) ==> NeverLapses(cfg, start, times))
      <==> gap <= Window(cfg, start.ttl) && gap <= Window(cfg, RenewedTtl(start.ttl))
  {
    if gap <= Window(cfg, start.ttl) && gap <= Window(cfg, RenewedTtl(start.ttl)) {
      forall times | Schedule(start, times, gap) ensures NeverLapses(cfg, start, times) {
        forall k | 0 <= k < |times| ensures times[k] < At(cfg, start, times, k).from + At(cfg, start, times, k).ttl {
          StaysSafe(cfg, start, times, gap, k);
        }
      }
    } else {
      var times := WideGapLapses(cfg, start, gap);
    }
  }

  // ------------------------------------------------------------ derived status

  /** deriveStatus at a time, without changing the row. */
  function DeriveStatus(c: Certificate, now: int): Status {
    if c.status == Revoked then Revoked
    else if now >= c.notAfter then Expired
    else if c.notAfter <= now + Min(EXPIRING_WINDOW, Quotient(Ttl(c), 2)) then Expiring
    else Active
  }

  /** What is shown when: revoked for good; else expired from not-after on; before that
      expiring in the last thirty days or the last half of the lifetime, whichever is
      shorter; and active until then. */
  lemma StatusShown(c: Certificate, now: int)
    requires c.notBefore < c.notAfter
    ensures DeriveStatus(c, now) == Revoked <==> c.status == Revoked
    ensures DeriveStatus(c, now) == Expired <==> c.status != Revoked && now >= c.notAfter
    ensures DeriveStatus(c, now) == Expiring <==>
      c.status != Revoked && now < c.notAfter && c.notAfter - now <= 30 * 24 * 3600 * 1_000_000_000 && 2 * (c.notAfter - now) <= c.notAfter - c.notBefore
    ensures DeriveStatus(c, now) == Active <==>
      c.status != Revoked && now < c.notAfter && (c.notAfter - now > 30 * 24 * 3600 * 1_000_000_000 || 2 * (c.notAfter - now) > c.notAfter - c.notBefore)
  {
  }

  /** Whatever is shown as expiring is due for renewal, exactly when the shown window is
      within the renewal window. */
  lemma ExpiringIsDue(cfg: Config, c: Certificate)
    requires Valid(cfg) && c.status != Revoked && Ttl(c) > 1
    ensures (forall now :: DeriveStatus(c, now) == Expiring ==> Due(cfg, c, now))
      <==> Min(EXPIRING_WINDOW, Quotient(Ttl(c), 2)) <= Window(cfg, Ttl(c))
  {
    var at := c.notAfter - Min(EXPIRING_WINDOW, Quotient(Ttl(c), 2));
    assert DeriveStatus(c, at) == Expiring;
  }

  /** With the default configuration it always is. */
  lemma DefaultExpiringIsDue(c: Certificate, now: int)
    requires Ttl(c) > 1 && DeriveStatus(c, now) == Expiring
    ensures Due(DEFAULTS, c, now)
  {
    ExpiringIsDue(DEFAULTS, c);
  }

  // ---------------------------------------------------- a full batch can starve

  function Blocker(i: int): Certificate {
    Certificate(Max(i, 0), Max(i, 0), 0, 90 * DAY + i, Active, false, true)
  }

  /** A month after issuance: within the scan's reach, not due. */
  lemma BlockerBlocks(i: int)
    requires 0 <= i < MAX_BATCH
    ensures Candidate(DEFAULTS, Blocker(i), 30 * DAY) && !Due(DEFAULTS, Blocker(i), 30 * DAY)
  {
  }

  const LATE := Certificate(1000, 1000, 30 * DAY - 183 * DAY, 30 * DAY + 182 * DAY, Active, false, true)

  lemma LateIsDue()
    ensures Candidate(DEFAULTS, LATE, 30 * DAY) && Wanted(DEFAULTS, LATE, 30 * DAY)
  {
  }

  lemma BlockersFirst(rows: seq<Certificate>)
    requires |rows| == MAX_BATCH + 1 && rows[MAX_BATCH] == LATE && forall i :: 0 <= i < MAX_BATCH ==> rows[i] == Blocker(i)
    ensures ByExpiry(rows)
  {
  }

  /** Certificates that are not due and fill the batch keep a due one from being renewed:
      256 ninety-day certificates a month old hide a one-year one past its half. */
  lemma FullBatchStarves()
    ensures exists rows, now, c :: (
      && ByExpiry(rows) && c in rows && Wanted(DEFAULTS, c, now)
      && Selected(DEFAULTS, rows, now) == [])
  {
    hide Keep, Candidate, Due, Blocker, Wanted, ByExpiry;
    var now := 30 * DAY;
    var blockers := seq(MAX_BATCH, i => Blocker(i));
    var rows := blockers + [LATE];
    assert rows[MAX_BATCH] == LATE;
    BlockersFirst(rows);
    LateIsDue();
    var p, due := IsCandidate(DEFAULTS, now), IsDue(DEFAULTS, now);
    forall i | 0 <= i < |blockers| ensures p(rows[i]) && !due(blockers[i]) {
      BlockerBlocks(i);
    }
    KeepAll(rows, p);
    assert Scan(DEFAULTS, rows, now) == rows[..MAX_BATCH] == blockers;
    KeepNone(blockers, due);
  }
}
