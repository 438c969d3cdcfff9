/** Clients that walk a listing: each page's next cursor is sent back to the listing itself
    until none is returned (internal/issue/certificates.go, internal/issue/issuers.go,
    internal/enroll/requests.go). */
module ListWalks {
  import opened Common
  import opened Paging
  import opened EnrollPages
  import C = CertificatePages
  import I = IssuerPages

  /** One turn of a walk over pages filled with visible rows. */
  lemma WalkTurn<T>(rows: seq<T>, p: T -> bool, after: T -> seq<T>, at: nat, n: nat, all: seq<T>, page: seq<T>) returns (to: nat)
    requires Resumes(rows, after) && at <= |rows| && n > 0
    requires all == Keep(rows[..at], p) && page == Take(Keep(rows[at..], p), n)
    ensures |page| < n ==> all + page == Keep(rows, p)
    ensures |page| == n ==> (
      && at < to <= |rows| && after(page[n - 1]) == rows[to..]
      && all + page == Keep(rows[..to], p) && p(page[n - 1]) && page[n - 1] in rows)
  {
    to := at;
    assert rows == rows[..at] + rows[at..];
    KeepSplit(rows[..at], rows[at..], p);
    hide Keep;
    if |page| == n {
      to := NextFrom(rows, p, after, at, n);
      assert rows[..to] == rows[..at] + rows[at..to];
      KeepSplit(rows[..at], rows[at..to], p);
      KeepIn(rows[at..], p, page[n - 1]);
    }
  }

  lemma CertificatesResume(rows: seq<C.Certificate>)
    requires C.Descending(rows) && C.Timed(rows)
    ensures Resumes(rows, (c: C.Certificate) => C.From(rows, Some(c)))
  {
    C.CertificatesOnce(rows, c => true, 1);
  }

  /** Every row is the tenant's certificate of its id. */
  ghost predicate OfTenant(tenant: map<nat, C.Certificate>, rows: seq<C.Certificate>) {
    forall i :: 0 <= i < |rows| ==> rows[i].id in tenant && tenant[rows[i].id] == rows[i]
  }

  /** A client of ListCertificates: every readable certificate once, newest first, whatever
      the page size. */
  method WalkCertificates(tenant: map<nat, C.Certificate>, rows: seq<C.Certificate>, readable: C.Certificate -> bool, limit: int)
      returns (all: seq<C.Certificate>)
    requires C.Descending(rows) && C.Timed(rows) && OfTenant(tenant, rows)
    requires forall id :: id in tenant ==> tenant[id].id == id && tenant[id].created != 0
    ensures all == Keep(rows, readable)
  {
    CertificatesResume(rows);
    ghost var after := (c: C.Certificate) => C.From(rows, Some(c));
    var cursor := C.Start;
    ghost var at := 0;
    all := [];
    assert Keep(rows[..0], readable) == [] && rows[0..] == rows;
    hide Keep, C.Descending, C.From;
    while true
      invariant at <= |rows| && all == Keep(rows[..at], readable)
      invariant C.Resolve(tenant, readable, cursor).Some? && C.From(rows, C.Resolve(tenant, readable, cursor).value) == rows[at..]
      decreases |rows| - at
    {
      var page, next := C.ListCertificates(tenant, rows, readable, cursor, limit);
      at := WalkTurn(rows, readable, after, at, PageLimit(limit), all, page);
      all := all + page;
      if next.None? {
        break;
      }
      cursor := C.At(next.value);
    }
  }

  lemma IssuersResume(rows: seq<I.Issuer>)
    requires I.ByName(rows) && I.Named(rows)
    ensures Resumes(rows, (i: I.Issuer) => I.After(rows, i.name)) && I.After(rows, 0) == rows
  {
    I.IssuersOnce(rows, i => true, 1);
  }

  /** A client of ListIssuers, which starts from the empty name: every readable issuer
      once, by name, whatever the page size. */
  method WalkIssuers(rows: seq<I.Issuer>, readable: I.Issuer -> bool, limit: int) returns (all: seq<I.Issuer>)
    requires I.ByName(rows) && I.Named(rows)
    ensures all == Keep(rows, readable)
  {
    IssuersResume(rows);
    ghost var after := (i: I.Issuer) => I.After(rows, i.name);
    var name := 0;
    ghost var at := 0;
    all := [];
    assert Keep(rows[..0], readable) == [] && rows[0..] == rows;
    hide Keep, I.ByName, I.After;
    while true
      invariant at <= |rows| && all == Keep(rows[..at], readable)
      invariant I.After(rows, name) == rows[at..]
      decreases |rows| - at
    {
      var page, next := I.ListIssuers(rows, readable, name, limit);
      at := WalkTurn(rows, readable, after, at, PageLimit(limit), all, page);
      all := all + page;
      if next.None? {
        break;
      }
      name := next.value;
    }
  }

  // ---------------------------------------------------------------- requests

  /** How ids are written and read: the text of an id, and the rank of any text. */
  ghost predicate IdText(text: nat -> string, rank: string -> nat) {
    forall id: nat :: rank(text(id)) == id
  }

  /** The rows a decoded cursor lists. */
  function Listed(rows: seq<C.Certificate>, rank: string -> nat, d: Decoded): seq<C.Certificate> {
    if d.Position? then C.After(rows, d.ts, rank(d.id)) else rows
  }

  /** ListRequests with its cursor as text: the readable rows of the page cut after it, and
      the text of the cut's last row, empty when the cut is not full. A cursor that does
      not decode is an error. */
  method ListRequests(rows: seq<C.Certificate>, readable: C.Certificate -> bool, format: int -> string, parse: string -> Option<int>,
                      text: nat -> string, rank: string -> nat, cursor: string, limit: int)
      returns (ok: bool, out: seq<C.Certificate>, next: string)
    requires C.Descending(rows)
    ensures ok <==> !Decode(parse, cursor).BadCursor?
    ensures !ok ==> out == [] && next == ""
    ensures ok ==>
      var cut := Take(Listed(rows, rank, Decode(parse, cursor)), PageLimit(limit));
      && out == Keep(cut, readable)
      && next == if |cut| == PageLimit(limit) then EncodeCursor(format, cut[|cut| - 1].created, text(cut[|cut| - 1].id)) else ""
  {
    hide Keep, C.Descending, C.After, Decode, EncodeCursor;
    var d := DecodeCursor(parse, cursor);
    if d.BadCursor? {
      return false, [], "";
    }
    var last: Option<C.Certificate>;
    var from := if d.First? then None else Some(C.Certificate(rank(d.id), d.ts));
    out, last := ListReadable(rows, readable, from, limit);
    ok, next := true, if last.Some? then EncodeCursor(format, last.value.created, text(last.value.id)) else "";
  }

  /** One turn of a walk over pages that are cut first and filtered after. */
  lemma CutTurn<T>(rows: seq<T>, p: T -> bool, at: nat, n: nat, all: seq<T>)
    requires at <= |rows| && n > 0 && all == Keep(rows[..at], p)
    ensures var cut := Take(rows[at..], n);
      && (|cut| < n ==> all + Keep(cut, p) == Keep(rows, p))
      && (|cut| == n ==> at + n <= |rows| && all + Keep(cut, p) == Keep(rows[..at + n], p) && cut[n - 1] == rows[at + n - 1])
  {
    var cut := Take(rows[at..], n);
    assert rows[..at + |cut|] == rows[..at] + cut;
    KeepSplit(rows[..at], cut, p);
    assert |cut| < n ==> rows[..at + |cut|] == rows;
  }

  /** A client of ListRequests: every readable request once, newest first, also when a page
      shows fewer rows than were cut; the cursors it is handed always decode. */
  method WalkRequests(rows: seq<C.Certificate>, readable: C.Certificate -> bool, format: int -> string, parse: string -> Option<int>,
                      text: nat -> string, rank: string -> nat, limit: int)
      returns (ok: bool, all: seq<C.Certificate>)
    requires C.Descending(rows) && C.Timed(rows) && TimeFormat(format, parse) && IdText(text, rank)
    ensures ok && all == Keep(rows, readable)
  {
    var cursor := "";
    ghost var at := 0;
    ok, all := true, [];
    assert Keep(rows[..0], readable) == [] && rows[0..] == rows;
    assert forall id: nat :: rank(text(id)) == id;
    assert C.Timed(rows);
    hide Keep, C.Descending, C.After, Decode, EncodeCursor, TimeFormat;
    assert Decode(parse, "") == First by { StartDecodes(parse); }
    while true
      invariant ok && at <= |rows| && all == Keep(rows[..at], readable)
      invariant !Decode(parse, cursor).BadCursor? && Listed(rows, rank, Decode(parse, cursor)) == rows[at..]
      decreases |rows| - at
    {
      var page;
      ok, page, cursor := ListRequests(rows, readable, format, parse, text, rank, cursor, limit);
      CutTurn(rows, readable, at, PageLimit(limit), all);
      all := all + page;
      if cursor == "" {
        assert |rows[at..]| < PageLimit(limit) by { NextNotEmpty(rows, format, text, at, PageLimit(limit)); }
        break;
      }
      at := at + PageLimit(limit);
      ghost var last := rows[at - 1];
      CursorRoundTrip(format, parse, last.created, text(last.id));
      C.RowResumes(rows, at - 1);
    }
  }

  lemma StartDecodes(parse: string -> Option<int>)
    ensures Decode(parse, "") == First
  {
  }

  lemma NextNotEmpty(rows: seq<C.Certificate>, format: int -> string, text: nat -> string, at: nat, n: nat)
    requires at <= |rows| && n > 0
    ensures |Take(rows[at..], n)| == n ==> EncodeCursor(format, rows[at + n - 1].created, text(rows[at + n - 1].id)) != ""
  {
  }
}
