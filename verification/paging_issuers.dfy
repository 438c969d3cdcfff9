/** ListIssuers page by page, by name (internal/issue/issuers.go,
    internal/memstore/memstore.go). */
module IssuerPages {
  import opened Common
  import opened Paging

  /** name is the rank of the lower-cased name among all names; the empty name ranks 0. */
  datatype Issuer = Issuer(id: string, name: nat, domain: string, isDefault: bool)

  /** Lower-cased names are unique within a tenant. */
  ghost predicate ByName(rows: seq<Issuer>) {
    forall i, k :: 0 <= i < k < |rows| ==> rows[i].name < rows[k].name
  }

  ghost predicate Named(rows: seq<Issuer>) {
    forall i :: 0 <= i < |rows| ==> rows[i].name > 0
  }

  /** The store's rows after a name. */
  function After(rows: seq<Issuer>, name: nat): seq<Issuer> {
    Keep(rows, (i: Issuer) => i.name > name)
  }

  lemma AfterIsSuffix(rows: seq<Issuer>, name: nat) returns (at: nat)
    requires ByName(rows)
    ensures at <= |rows| && After(rows, name) == rows[at..]
  {
    at := 0;
    while at < |rows| && rows[at].name <= name
      invariant at <= |rows| && forall i :: 0 <= i < at ==> rows[i].name <= name
    {
      at := at + 1;
    }
    KeepSuffix(rows, (i: Issuer) => i.name > name, at);
  }

  lemma NameResumes(rows: seq<Issuer>, k: nat)
    requires ByName(rows) && k < |rows|
    ensures After(rows, rows[k].name) == rows[k + 1..]
  {
    KeepSuffix(rows, (i: Issuer) => i.name > rows[k].name, k + 1);
  }

  /** The list from the start holds every issuer exactly when none has an empty name. */
  lemma StartExact(rows: seq<Issuer>)
    requires ByName(rows)
    ensures After(rows, 0) == rows <==> Named(rows)
  {
    var at := AfterIsSuffix(rows, 0);
    if !Named(rows) {
      KeepIn(rows, (i: Issuer) => i.name > 0, rows[0]);
    } else {
      KeepAll(rows, (i: Issuer) => i.name > 0);
    }
  }

  /** A client that sends each full page's last name back gets every readable issuer once,
      by name, whatever the page size, and stops. */
  lemma IssuersOnce(rows: seq<Issuer>, readable: Issuer -> bool, n: nat)
    requires ByName(rows) && Named(rows) && n > 0
    ensures After(rows, 0) == rows
    ensures Resumes(rows, (i: Issuer) => After(rows, i.name))
    ensures Follow(rows, readable, (i: Issuer) => After(rows, i.name), 0, n) == Keep(rows, readable)
  {
    StartExact(rows);
    var after := (i: Issuer) => After(rows, i.name);
    forall k | 0 <= k < |rows| ensures after(rows[k]) == rows[k + 1..] {
      NameResumes(rows, k);
    }
    assert Resumes(rows, after);
    FollowComplete(rows, readable, after, 0, n);
    assert rows[0..] == rows;
  }

  /** ListIssuers: the page after a name, and the last name when it is full. */
  method ListIssuers(rows: seq<Issuer>, readable: Issuer -> bool, name: nat, limit: int) returns (out: seq<Issuer>, next: Option<nat>)
    requires ByName(rows)
    ensures out == Take(Keep(After(rows, name), readable), PageLimit(limit))
    ensures next == if |out| == PageLimit(limit) then Some(out[|out| - 1].name) else None
  {
    hide Keep, ByName, After;
    var n := PageLimit(limit);
    var after := name;
    ghost var start := AfterIsSuffix(rows, after);
    ghost var at := start;
    out := [];
    KeepEmpty(rows, readable, start);
    while |out| < n
      invariant start <= at <= |rows| && |out| <= n
      invariant After(rows, after) == rows[at..]
      invariant out == Keep(rows[start..at], readable)
      decreases |rows| - at
    {
      var fetched := SqlLimit(After(rows, after), n);
      if |fetched| == 0 {
        break;
      }
      var read;
      out, read := Collect(fetched, readable, out, n);
      assert fetched[..read] == rows[at..][..read];
      KeepMore(rows, readable, start, at, read);
      at := at + read;
      assert fetched[read - 1] == rows[at - 1];
      after := fetched[read - 1].name;
      NameResumes(rows, at - 1);
      if |fetched| < n {
        break;
      }
    }
    PageIsTake(rows, readable, start, at, n);
    next := if |out| == n then Some(out[|out| - 1].name) else None;
  }
}
