/** ListCertificates page by page (internal/issue/certificates.go,
    internal/memstore/memstore.go). */
module CertificatePages {
  import opened Common
  import opened Paging

  /** created 0 is the zero time. */
  datatype Certificate = Certificate(id: nat, created: int)

  /** The cursor a client sends: none, a text that is no UUID, or an id. */
  datatype Cursor = Start | NoUuid | At(id: nat)

  predicate Newer(a: Certificate, b: Certificate) {
    a.created > b.created || (a.created == b.created && a.id > b.id)
  }

  ghost predicate Descending(rows: seq<Certificate>) {
    forall i, k :: 0 <= i < k < |rows| ==> Newer(rows[i], rows[k])
  }

  /** beforeCursor: a zero cursor time accepts everything. */
  predicate BeforeCursor(c: Certificate, created: int, id: nat) {
    created == 0 || c.created < created || (c.created == created && c.id < id)
  }

  /** The store's rows after a cursor; rows are the tenant's that match the filter, sorted. */
  function After(rows: seq<Certificate>, created: int, id: nat): seq<Certificate> {
    Keep(rows, c => BeforeCursor(c, created, id))
  }

  function From(rows: seq<Certificate>, cursor: Option<Certificate>): seq<Certificate> {
    if cursor.None? then rows else After(rows, cursor.value.created, cursor.value.id)
  }

  /** The rows after a cursor row are those behind it in the table, exactly when its
      creation time is not the zero time. */
  lemma CursorExact(rows: seq<Certificate>, k: nat)
    requires Descending(rows) && k < |rows|
    ensures From(rows, Some(rows[k])) == rows[k + 1..] <==> rows[k].created != 0
  {
    var p := (c: Certificate) => BeforeCursor(c, rows[k].created, rows[k].id);
    if rows[k].created != 0 {
      forall i | 0 <= i <= k ensures !p(rows[i]) {
        assert i < k ==> Newer(rows[i], rows[k]);
      }
      KeepSuffix(rows, p, k + 1);
    } else {
      KeepAll(rows, p);
      assert |rows[k + 1..]| < |rows|;
    }
  }

  lemma RowResumes(rows: seq<Certificate>, k: nat)
    requires Descending(rows) && k < |rows| && rows[k].created != 0
    ensures After(rows, rows[k].created, rows[k].id) == rows[k + 1..]
  {
    CursorExact(rows, k);
  }

  lemma AfterIsSuffix(rows: seq<Certificate>, created: int, id: nat) returns (at: nat)
    requires Descending(rows)
    ensures at <= |rows| && After(rows, created, id) == rows[at..]
  {
    var p := (c: Certificate) => BeforeCursor(c, created, id);
    at := 0;
    while at < |rows| && !p(rows[at])
      invariant at <= |rows| && forall i :: 0 <= i < at ==> !p(rows[i])
    {
      at := at + 1;
    }
    forall i | at <= i < |rows| ensures p(rows[i]) {
      assert at < i ==> Newer(rows[at], rows[i]);
    }
    KeepSuffix(rows, p, at);
  }

  ghost predicate Timed(rows: seq<Certificate>) {
    forall i :: 0 <= i < |rows| ==> rows[i].created != 0
  }

  /** A client that sends each full page's last id back gets every readable certificate
      once, newest first, whatever the page size, and stops. */
  lemma CertificatesOnce(rows: seq<Certificate>, readable: Certificate -> bool, n: nat)
    requires Descending(rows) && Timed(rows) && n > 0
    ensures Resumes(rows, (c: Certificate) => From(rows, Some(c)))
    ensures Follow(rows, readable, (c: Certificate) => From(rows, Some(c)), 0, n) == Keep(rows, readable)
  {
    var after := (c: Certificate) => From(rows, Some(c));
    forall k | 0 <= k < |rows| ensures after(rows[k]) == rows[k + 1..] {
      CursorExact(rows, k);
    }
    assert Resumes(rows, after);
    FollowComplete(rows, readable, after, 0, n);
    assert rows[0..] == rows;
  }

  /** A row with the zero creation time, sent back as a cursor, starts the list over. */
  lemma ZeroTimeRepeats(rows: seq<Certificate>, k: nat)
    requires k < |rows| && rows[k].created == 0
    ensures From(rows, Some(rows[k])) == rows
  {
    KeepAll(rows, (c: Certificate) => BeforeCursor(c, 0, rows[k].id));
  }

  /** The position a cursor stands for: None when it ends the list, being no UUID,
      unknown or not readable. */
  function Resolve(tenant: map<nat, Certificate>, readable: Certificate -> bool, cursor: Cursor): Option<Option<Certificate>> {
    match cursor
    case Start => Some(None)
    case NoUuid => None
    case At(id) => if id in tenant && readable(tenant[id]) then Some(Some(tenant[id])) else None
  }

  /** What follows a cursor row is older than it. */
  lemma CursorPasses(rows: seq<Certificate>, at: Certificate, readable: Certificate -> bool, n: nat)
    requires Descending(rows) && at in rows && at.created != 0
    ensures forall c :: c in Take(Keep(From(rows, Some(at)), readable), n) ==> Newer(at, c)
  {
    var k :| 0 <= k < |rows| && rows[k] == at;
    CursorExact(rows, k);
    forall c | c in Take(Keep(rows[k + 1..], readable), n) ensures Newer(at, c) {
      KeepIn(rows[k + 1..], readable, c);
      var i :| k < i < |rows| && rows[i] == c;
    }
  }

  /** ListCertificates: the page after the cursor, and the next cursor when it is full. */
  method ListCertificates(tenant: map<nat, Certificate>, rows: seq<Certificate>, readable: Certificate -> bool, cursor: Cursor, limit: int)
      returns (out: seq<Certificate>, next: Option<nat>)
    requires Descending(rows) && Timed(rows)
    requires forall id :: id in tenant ==> tenant[id].id == id && tenant[id].created != 0
    ensures var at := Resolve(tenant, readable, cursor);
      out == if at.None? then [] else Take(Keep(From(rows, at.value), readable), PageLimit(limit))
    ensures next == if |out| == PageLimit(limit) then Some(out[|out| - 1].id) else None
    ensures cursor.NoUuid? || (cursor.At? && (cursor.id !in tenant || !readable(tenant[cursor.id]))) ==> out == [] && next == None
    ensures cursor.Start? ==> out == Take(Keep(rows, readable), PageLimit(limit))
    ensures cursor.At? && cursor.id in tenant && readable(tenant[cursor.id]) && tenant[cursor.id] in rows ==>
      forall c :: c in out ==> Newer(tenant[cursor.id], c)
  {
    if cursor.At? && cursor.id in tenant && readable(tenant[cursor.id]) && tenant[cursor.id] in rows {
      CursorPasses(rows, tenant[cursor.id], readable, PageLimit(limit));
    }
    var n := PageLimit(limit);
    out, next := [], None;
    var created, id := 0, 0;
    match cursor {
      case Start =>
      case NoUuid => return;
      case At(given) =>
        if given !in tenant {
          return;
        }
        if !readable(tenant[given]) {
          return;
        }
        created, id := tenant[given].created, given;
    }
    KeepAllWhenStart(rows, created, id);
    out := FillPage(rows, readable, created, id, n);
    if |out| == n {
      next := Some(out[|out| - 1].id);
    }
  }

  lemma FillStep(rows: seq<Certificate>, readable: Certificate -> bool, start: nat, at: nat, before: seq<Certificate>,
                 fetched: seq<Certificate>, read: nat, out: seq<Certificate>, n: nat)
    requires Descending(rows) && Timed(rows) && start <= at <= |rows| && n > 0 && before == Keep(rows[start..at], readable)
    requires fetched == SqlLimit(rows[at..], n) && 0 < read <= |fetched| && out == before + Keep(fetched[..read], readable)
    ensures at + read <= |rows| && out == Keep(rows[start..at + read], readable)
    ensures After(rows, fetched[read - 1].created, fetched[read - 1].id) == rows[at + read..]
    ensures |fetched| < n ==> at + |fetched| == |rows|
  {
    hide Keep, Descending, After;
    assert fetched[..read] == rows[at..][..read];
    KeepMore(rows, readable, start, at, read);
    assert fetched[read - 1] == rows[at + read - 1];
    RowResumes(rows, at + read - 1);
  }

  /** The loop over the store's pages, until the page is full or the rows end. */
  method FillPage(rows: seq<Certificate>, readable: Certificate -> bool, created0: int, id0: nat, n: nat) returns (out: seq<Certificate>)
    requires Descending(rows) && Timed(rows) && n > 0
    ensures out == Take(Keep(After(rows, created0, id0), readable), n)
  {
    assert Timed(rows);
    hide Keep, BeforeCursor, Descending, After, From;
    var created, id := created0, id0;
    ghost var start := AfterIsSuffix(rows, created, id);
    ghost var at := start;
    out := [];
    KeepEmpty(rows, readable, start);
    while |out| < n
      invariant start <= at <= |rows| && |out| <= n
      invariant After(rows, created, id) == rows[at..]
      invariant out == Keep(rows[start..at], readable)
      decreases |rows| - at
    {
      var fetched := SqlLimit(After(rows, created, id), n);
      if |fetched| == 0 {
        break;
      }
      var read;
      ghost var before := out;
      out, read := Collect(fetched, readable, out, n);
      created, id := fetched[read - 1].created, fetched[read - 1].id;
      FillStep(rows, readable, start, at, before, fetched, read, out, n);
      at := at + read;
      if |fetched| < n {
        break;
      }
    }
    PageIsTake(rows, readable, start, at, n);
  }

  lemma KeepAllWhenStart(rows: seq<Certificate>, created: int, id: nat)
    ensures created == 0 ==> After(rows, created, id) == rows
  {
    if created == 0 {
      KeepAll(rows, (c: Certificate) => BeforeCursor(c, 0, id));
    }
  }

  // --------------------------------------------------------- the backup's walk

  const PAGE_SIZE := 1000
  const MAX_CERTS := 100000

  /** pageCertificates: the newest certificates up to the export's bound. */
  method PageAll(rows: seq<Certificate>) returns (out: seq<Certificate>)
    requires Descending(rows) && Timed(rows)
    ensures out == Take(rows, 100000)
  {
    hide Keep, BeforeCursor, Descending;
    out := [];
    var created, id := 0, 0;
    KeepAllWhenStart(rows, created, id);
    while true
      invariant |out| <= |rows| && out == rows[..|out|] && |out| < MAX_CERTS && |out| % PAGE_SIZE == 0
      invariant After(rows, created, id) == rows[|out|..]
      decreases |rows| - |out|
    {
      var batch := SqlLimit(After(rows, created, id), PAGE_SIZE);
      out := out + batch;
      if |batch| < PAGE_SIZE || |out| >= MAX_CERTS {
        break;
      }
      created, id := batch[|batch| - 1].created, batch[|batch| - 1].id;
      CursorExact(rows, |out| - 1);
    }
  }
}

/** The enrollment listings: a page is cut first, then filtered, and its last row is the
    next cursor (internal/enroll/requests.go, internal/enroll/jobs.go,
    internal/enroll/enroll.go). */
module EnrollPages {
  import opened Common
  import StreamIds
  import opened Paging
  import opened CertificatePages

  /** ListRequests and ListJobs: the readable rows of the page cut after the cursor, and
      the cut's last row as the next cursor when the cut is full. */
  method ListReadable(rows: seq<Certificate>, readable: Certificate -> bool, cursor: Option<Certificate>, limit: int)
      returns (out: seq<Certificate>, next: Option<Certificate>)
    requires Descending(rows)
    ensures var cut := Take(From(rows, cursor), PageLimit(limit));
      && out == Keep(cut, readable)
      && next == if |cut| == PageLimit(limit) then Some(cut[|cut| - 1]) else None
  {
    var n := PageLimit(limit);
    var cut := SqlLimit(From(rows, cursor), n);
    out, next := [], None;
    KeepEmpty(cut, readable, 0);
    for j := 0 to |cut|
      invariant out == Keep(cut[0..j], readable)
    {
      KeepNext(cut, readable, 0, j);
      if !readable(cut[j]) {
        continue;
      }
      out := out + [cut[j]];
    }
    assert cut[0..|cut|] == cut;
    if |cut| == n {
      next := Some(cut[|cut| - 1]);
    }
  }

  /** A client that sends each next cursor back gets every readable row once, newest
      first, also when a page shows fewer rows than were cut, and stops. */
  lemma RequestsOnce(rows: seq<Certificate>, readable: Certificate -> bool, n: nat)
    requires Descending(rows) && Timed(rows) && n > 0
    ensures Resumes(rows, (c: Certificate) => From(rows, Some(c)))
    ensures FollowCut(rows, readable, (c: Certificate) => From(rows, Some(c)), 0, n) == Keep(rows, readable)
  {
    CertificatesOnce(rows, readable, n);
    FollowCutComplete(rows, readable, (c: Certificate) => From(rows, Some(c)), 0, n);
    assert rows[0..] == rows;
  }

  // ------------------------------------------------------------ cursor texts

  /** A time format: never empty, without the separator, and read back by its parser. */
  ghost predicate TimeFormat(format: int -> string, parse: string -> Option<int>) {
    forall ts :: (
      && format(ts) != "" && (forall i :: 0 <= i < |format(ts)| ==> format(ts)[i] != '|')
      && parse(format(ts)) == Some(ts))
  }

  function EncodeCursor(format: int -> string, ts: int, id: string): string {
    format(ts) + "|" + id
  }

  datatype Decoded = First | Position(ts: int, id: string) | BadCursor

  /** The first separator that is not at the start ends the time. */
  function Decode(parse: string -> Option<int>, c: string): Decoded {
    if c == "" then First
    else
      var i := 1 + StreamIds.IndexOf(c[1..], '|');
      if i == |c| || parse(c[..i]).None? then BadCursor
      else Position(parse(c[..i]).value, c[i + 1..])
  }

  method DecodeCursor(parse: string -> Option<int>, c: string) returns (d: Decoded)
    ensures d == Decode(parse, c)
  {
    if c == "" {
      return First;
    }
    ghost var bar := 1 + StreamIds.IndexOf(c[1..], '|');
    for i := 0 to |c|
      invariant i <= bar
    {
      assert 0 < i < bar ==> c[i] == c[1..][i - 1];
      if c[i] == '|' && i > 0 {
        var ts := parse(c[..i]);
        if ts.None? {
          return BadCursor;
        }
        return Position(ts.value, c[i + 1..]);
      }
    }
    return BadCursor;
  }

  /** Which cursors are refused: a text that is not empty and has no separator behind its
      first character, or no time before the first such one. Any other is read around it. */
  lemma DecodeExact(parse: string -> Option<int>, c: string, i: nat)
    requires c != "" && 1 <= i <= |c| && (forall k :: 1 <= k < i ==> c[k] != '|') && (i < |c| ==> c[i] == '|')
    ensures Decode(parse, c).BadCursor? <==> i == |c| || parse(c[..i]).None?
    ensures i < |c| && parse(c[..i]).Some? ==> Decode(parse, c) == Position(parse(c[..i]).value, c[i + 1..])
    ensures Decode(parse, "") == First
  {
    var j := 1 + StreamIds.IndexOf(c[1..], '|');
    assert i < |c| ==> c[1..][i - 1] == '|';
    assert j < |c| ==> c[j] == '|';
    assert forall k :: 1 <= k < j ==> c[k] == c[1..][k - 1];
  }

  /** A next cursor, sent back, is read as the position it was made from, whatever the id. */
  lemma CursorRoundTrip(format: int -> string, parse: string -> Option<int>, ts: int, id: string)
    requires TimeFormat(format, parse)
    ensures Decode(parse, EncodeCursor(format, ts, id)) == Position(ts, id)
  {
    var c := EncodeCursor(format, ts, id);
    var i := |format(ts)|;
    assert c[i] == '|' && c[..i] == format(ts) && c[i + 1..] == id;
    assert forall k :: 0 <= k < i - 1 ==> c[1..][k] == format(ts)[k + 1];
    assert c[1..][i - 1] == '|';
  }
}
