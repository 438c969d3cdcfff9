/** The read scope of an enrollment list against the check of each single record
    (internal/enroll/lists.go, internal/enroll/requests.go, internal/enroll/jobs.go,
    internal/memstore/pages.go, internal/store/pages.go). */
module EnrollScope {
  import opened Common
  import opened Authz
  import opened IssuerPages
  import Paging
  import StreamIds

  /** pinned is empty when the request names no issuer. */
  datatype Request = Request(requestedBy: string, pinned: string, spiffe: string)

  datatype Scope = Scope(actor: string, allPinned: bool, allJobs: bool, issuers: set<string>, domains: set<string>)

  // --------------------------------------------------------------- SPIFFE ids

  predicate DomainChar(c: char) {
    'a' <= c <= 'z' || '0' <= c <= '9' || c == '.' || c == '-'
  }

  const SCHEME := "spiffe://"

  /** The shape a list accepts: spiffe://, a lower-case domain, a slash and a path that is
      not empty and has no query or fragment. */
  predicate SpiffeShape(s: string) {
    && SCHEME <= s
    && var rest := s[|SCHEME|..];
      var end := StreamIds.IndexOf(rest, '/');
      && 0 < end && end + 1 < |rest|
      && (forall i :: 0 <= i < end ==> DomainChar(rest[i]))
      && (forall i :: end < i < |rest| ==> rest[i] != '?' && rest[i] != '#')
  }

  lemma ShapeParts(s: string) returns (domain: string, path: string)
    requires SpiffeShape(s)
    ensures Shaped(s, domain, path)
  {
    var rest := s[|SCHEME|..];
    var end := StreamIds.IndexOf(rest, '/');
    domain, path := rest[..end], rest[end + 1..];
    assert rest == domain + [rest[end]] + path;
    assert s == SCHEME + rest;
    forall i | 0 <= i < |path| ensures path[i] !in ['?', '#'] {
      assert path[i] == rest[end + 1 + i];
    }
  }

  lemma PartsShape(s: string, domain: string, path: string)
    requires Shaped(s, domain, path)
    ensures SpiffeShape(s)
  {
    var rest := s[|SCHEME|..];
    assert SCHEME <= s && rest == domain + "/" + path;
    assert rest[|domain|] == '/' && forall i :: 0 <= i < |domain| ==> rest[i] == domain[i];
    assert StreamIds.IndexOf(rest, '/') == |domain|;
    assert forall i :: |domain| < i < |rest| ==> rest[i] == path[i - |domain| - 1];
  }

  /** The shape in its parts. */
  lemma ShapeExact(s: string)
    ensures SpiffeShape(s) <==> exists domain, path :: Shaped(s, domain, path)
  {
    hide SpiffeShape, Shaped;
    if SpiffeShape(s) {
      var domain, path := ShapeParts(s);
    }
    if domain, path :| Shaped(s, domain, path) {
      PartsShape(s, domain, path);
    }
  }

  /** spiffe://, a domain of lower-case letters, digits, dots and hyphens, a slash, and a
      path without query or fragment. */
  ghost predicate Shaped(s: string, domain: string, path: string) {
    && s == "spiffe://" + domain + "/" + path && domain != "" && path != ""
    && (forall i :: 0 <= i < |domain| ==> 'a' <= domain[i] <= 'z' || '0' <= domain[i] <= '9' || domain[i] in ['.', '-'])
    && (forall i :: 0 <= i < |path| ==> path[i] !in ['?', '#'])
  }

  /** The trust domain a list takes a request to have. */
  function ListedDomain(s: string): Option<string> {
    if !SpiffeShape(s) then None
    else
      var parts := StreamIds.Split(s, '/');
      if |parts| >= 3 then Some(parts[2]) else None
  }

  lemma SchemeSplits(rest: string)
    ensures StreamIds.Split(SCHEME + rest, '/') == ["spiffe:"] + ([""] + StreamIds.Split(rest, '/'))
  {
    hide StreamIds.Split;
    var tail := ['/'] + rest;
    assert SCHEME + rest == "spiffe:" + ['/'] + tail;
    SplitAt("spiffe:", tail);
    assert tail == "" + ['/'] + rest;
    SplitAt("", rest);
  }

  lemma FirstPart(rest: string, end: nat)
    requires end == StreamIds.IndexOf(rest, '/') < |rest|
    ensures StreamIds.Split(rest, '/')[0] == rest[..end]
  {
  }

  /** Of a text with the shape, it is everything between the scheme and the next slash. */
  lemma ListedDomainIs(s: string)
    requires SpiffeShape(s)
    ensures var rest := s[|SCHEME|..];
      ListedDomain(s) == Some(rest[..StreamIds.IndexOf(rest, '/')])
  {
    var rest := s[|SCHEME|..];
    var end := StreamIds.IndexOf(rest, '/');
    assert s == SCHEME + rest;
    FirstPart(rest, end);
    SchemeSplits(rest);
    hide StreamIds.Split;
    var parts := StreamIds.Split(s, '/');
    assert parts[2] == StreamIds.Split(rest, '/')[0];
  }

  lemma SplitAt(head: string, tail: string)
    requires forall i :: 0 <= i < |head| ==> head[i] != '/'
    ensures StreamIds.Split(head + ['/'] + tail, '/') == [head] + StreamIds.Split(tail, '/')
  {
    var s := head + ['/'] + tail;
    assert s[|head|] == '/' && s[..|head|] == head && s[|head| + 1..] == tail;
    assert forall k :: 0 <= k < |head| ==> s[k] == head[k];
    assert StreamIds.IndexOf(s, '/') == |head|;
  }

  // ----------------------------------------------------------- the single check

  /** DefaultIssuer of a trust domain. */
  ghost predicate IsDefaultOf(rows: seq<Issuer>, k: int, domain: string) {
    0 <= k < |rows| && rows[k].isDefault && rows[k].domain == domain
  }

  /** What the store keeps: rows by name, ids unique, one default issuer per domain, and
      the authorizer's issuers are these. */
  ghost predicate Stored(st: State, tenant: string, rows: seq<Issuer>) {
    && ByName(rows) && Named(rows)
    && (forall i, k :: 0 <= i < k < |rows| ==> rows[i].id != rows[k].id)
    && (forall i, k, d: string :: IsDefaultOf(rows, i, d) && IsDefaultOf(rows, k, d) ==> i == k)
    && (forall id: string :: Resource(tenant, ResourceType.Issuer, id) in st.resources <==> exists k :: 0 <= k < |rows| && rows[k].id == id)
    && NoDangling(st)
  }

  predicate MayReadIssuer(st: State, s: Subjects, id: string, now: int) {
    Allowed(st, s, Resource(s.tenant, ResourceType.Issuer, id), Read, now)
  }

  /** The issuer a request is, or would be, issued from can be read. */
  ghost predicate IssuerReadable(st: State, rows: seq<Issuer>, s: Subjects, r: Request, parse: string -> Option<string>, now: int) {
    if r.pinned != "" then MayReadIssuer(st, s, r.pinned, now)
    else parse(r.spiffe).Some? && exists k :: IsDefaultOf(rows, k, parse(r.spiffe).value) && MayReadIssuer(st, s, rows[k].id, now)
  }

  ghost predicate Resolves(rows: seq<Issuer>, r: Request, parse: string -> Option<string>) {
    r.pinned != "" || (parse(r.spiffe).Some? && exists k :: IsDefaultOf(rows, k, parse(r.spiffe).value))
  }

  predicate Own(s: Subjects, r: Request) {
    ActorId(s) != "" && r.requestedBy == ActorId(s)
  }

  /** authorizeReadRequest. */
  ghost predicate MayReadRequest(st: State, rows: seq<Issuer>, s: Subjects, r: Request, parse: string -> Option<string>, now: int) {
    Own(s, r) || IssuerReadable(st, rows, s, r, parse, now)
  }

  /** authorizeJob for reading; r is None when the job's request is gone. */
  ghost predicate MayReadJob(st: State, rows: seq<Issuer>, s: Subjects, r: Option<Request>, parse: string -> Option<string>, now: int) {
    if r.None? || !Resolves(rows, r.value, parse) then IsAdmin(s)
    else IssuerReadable(st, rows, s, r.value, parse, now)
  }

  // ------------------------------------------------------------------ the scope

  ghost function Domains(rows: seq<Issuer>, all: bool, ids: set<string>): set<string> {
    set i | i in rows && i.isDefault && (all || i.id in ids) :: i.domain
  }

  const ISSUER_PAGE := 200

  /** scope: the listing filter, and the domains whose default issuer is readable, read a
      page of issuers at a time. */
  method ReadScope(grants: map<nat, Grant>, rows: seq<Issuer>, s: Subjects, now: int) returns (sc: Scope)
    requires ByName(rows) && Named(rows)
    ensures sc == ScopeOf(grants, rows, s, now)
  {
    var all := IsAdmin(s);
    var ids := if all then {} else AccessibleIds(grants, s, ResourceType.Issuer, now);
    var domains: set<string> := {};
    var after := 0;
    ghost var at := 0;
    StartExact(rows);
    while true
      invariant at <= |rows| && After(rows, after) == rows[at..]
      invariant domains == Domains(rows[..at], all, ids)
      decreases |rows| - at
    {
      var page := Paging.SqlLimit(After(rows, after), ISSUER_PAGE);
      domains := AddDomains(domains, page, all, ids);
      assert rows[..at + |page|] == rows[..at] + page;
      assert Domains(rows[..at + |page|], all, ids) == Domains(rows[..at], all, ids) + Domains(page, all, ids);
      at := at + |page|;
      if |page| < ISSUER_PAGE {
        break;
      }
      after := page[|page| - 1].name;
      NameResumes(rows, at - 1);
    }
    assert rows[..at] == rows;
    sc := Scope(ActorId(s), all, all, ids, domains);
  }

  method AddDomains(before: set<string>, page: seq<Issuer>, all: bool, ids: set<string>) returns (domains: set<string>)
    ensures domains == before + Domains(page, all, ids)
  {
    domains := before;
    for n := 0 to |page|
      invariant domains == before + Domains(page[..n], all, ids)
    {
      var i := page[n];
      assert page[..n + 1] == page[..n] + [i];
      if i.isDefault && (all || i.id in ids) {
        domains := domains + {i.domain};
      }
    }
    assert page[..|page|] == page;
  }

  ghost function ScopeOf(grants: map<nat, Grant>, rows: seq<Issuer>, s: Subjects, now: int): Scope {
    var all := IsAdmin(s);
    var ids := if all then {} else AccessibleIds(grants, s, ResourceType.Issuer, now);
    Scope(ActorId(s), all, all, ids, Domains(rows, all, ids))
  }

  /** requestIssuerReadable of the store. */
  predicate ScopeReadable(sc: Scope, r: Request) {
    if r.pinned != "" then sc.allPinned || r.pinned in sc.issuers
    else ListedDomain(r.spiffe).Some? && ListedDomain(r.spiffe).value in sc.domains
  }

  predicate ListsRequest(sc: Scope, r: Request) {
    (sc.actor != "" && r.requestedBy == sc.actor) || ScopeReadable(sc, r)
  }

  predicate ListsJob(sc: Scope, r: Option<Request>) {
    sc.allJobs || (r.Some? && ScopeReadable(sc.(allPinned := false), r.value))
  }

  // ----------------------------------------------------------------- exactness

  /** An issuer is readable exactly when it exists and the filter names it. */
  lemma FilterExact(st: State, rows: seq<Issuer>, s: Subjects, id: string, now: int)
    requires Stored(st, s.tenant, rows)
    ensures MayReadIssuer(st, s, id, now) <==>
      Resource(s.tenant, ResourceType.Issuer, id) in st.resources && (IsAdmin(s) || id in AccessibleIds(st.grants, s, ResourceType.Issuer, now))
    ensures !IsAdmin(s) && id in AccessibleIds(st.grants, s, ResourceType.Issuer, now) ==> Resource(s.tenant, ResourceType.Issuer, id) in st.resources
  {
    if !IsAdmin(s) {
      ListExact(st, s, ResourceType.Issuer, now);
    }
  }

  /** The default issuer of a domain is readable exactly when the scope holds the domain. */
  lemma DomainExact(st: State, rows: seq<Issuer>, s: Subjects, d: string, now: int)
    requires Stored(st, s.tenant, rows)
    ensures d in ScopeOf(st.grants, rows, s, now).domains <==> exists k :: IsDefaultOf(rows, k, d) && MayReadIssuer(st, s, rows[k].id, now)
  {
    var sc := ScopeOf(st.grants, rows, s, now);
    if d in sc.domains {
      var i :| i in rows && i.isDefault && (sc.allPinned || i.id in sc.issuers) && i.domain == d;
      var k :| 0 <= k < |rows| && rows[k] == i;
      FilterExact(st, rows, s, i.id, now);
      assert IsDefaultOf(rows, k, d);
    }
    if k :| IsDefaultOf(rows, k, d) && MayReadIssuer(st, s, rows[k].id, now) {
      FilterExact(st, rows, s, rows[k].id, now);
      assert rows[k] in rows;
    }
  }

  /** For the records whose texts both readings agree on, and whose pinned issuer exists
      unless the caller is no administrator. */
  ghost predicate Agrees(st: State, s: Subjects, r: Request, parse: string -> Option<string>) {
    if r.pinned != "" then IsAdmin(s) ==> Resource(s.tenant, ResourceType.Issuer, r.pinned) in st.resources
    else parse(r.spiffe) == ListedDomain(r.spiffe)
  }

  lemma ReadableExact(st: State, rows: seq<Issuer>, s: Subjects, r: Request, parse: string -> Option<string>, now: int)
    requires Stored(st, s.tenant, rows) && Agrees(st, s, r, parse)
    ensures ScopeReadable(ScopeOf(st.grants, rows, s, now), r) <==> IssuerReadable(st, rows, s, r, parse, now)
  {
    if r.pinned != "" {
      FilterExact(st, rows, s, r.pinned, now);
    } else if parse(r.spiffe).Some? {
      DomainExact(st, rows, s, parse(r.spiffe).value, now);
    }
  }

  /** A list shows exactly the requests the caller may read one by one. */
  lemma RequestListExact(st: State, rows: seq<Issuer>, s: Subjects, r: Request, parse: string -> Option<string>, now: int)
    requires Stored(st, s.tenant, rows) && Agrees(st, s, r, parse)
    ensures ListsRequest(ScopeOf(st.grants, rows, s, now), r) <==> MayReadRequest(st, rows, s, r, parse, now)
  {
    ReadableExact(st, rows, s, r, parse, now);
  }

  /** Nothing is listed that may not be read, as long as the parser reads the same domain
      out of every text of the listed shape that it accepts, and stored ids were accepted
      by it; texts of another shape may be readable and yet not listed. */
  lemma RequestListSound(st: State, rows: seq<Issuer>, s: Subjects, r: Request, parse: string -> Option<string>, now: int)
    requires Stored(st, s.tenant, rows) && ListsRequest(ScopeOf(st.grants, rows, s, now), r)
    requires r.pinned != "" && IsAdmin(s) ==> Resource(s.tenant, ResourceType.Issuer, r.pinned) in st.resources
    requires parse(r.spiffe).Some? && (SpiffeShape(r.spiffe) ==> parse(r.spiffe) == ListedDomain(r.spiffe))
    ensures MayReadRequest(st, rows, s, r, parse, now)
  {
    if r.pinned != "" || SpiffeShape(r.spiffe) {
      RequestListExact(st, rows, s, r, parse, now);
    }
  }

  /** A list shows exactly the jobs the caller may read one by one. */
  lemma JobListExact(st: State, rows: seq<Issuer>, s: Subjects, r: Option<Request>, parse: string -> Option<string>, now: int)
    requires Stored(st, s.tenant, rows) && (r.Some? ==> Agrees(st, s, r.value, parse))
    ensures ListsJob(ScopeOf(st.grants, rows, s, now).(actor := ""), r) <==> MayReadJob(st, rows, s, r, parse, now)
  {
    if r.Some? {
      ReadableExact(st, rows, s, r.value, parse, now);
      if IsAdmin(s) && Resolves(rows, r.value, parse) {
        AdminReads(st, rows, s, r.value, parse, now);
      }
    }
  }

  lemma AdminReads(st: State, rows: seq<Issuer>, s: Subjects, r: Request, parse: string -> Option<string>, now: int)
    requires Stored(st, s.tenant, rows) && Agrees(st, s, r, parse) && IsAdmin(s) && Resolves(rows, r, parse)
    ensures IssuerReadable(st, rows, s, r, parse, now)
  {
    if r.pinned == "" {
      var k :| IsDefaultOf(rows, k, parse(r.spiffe).value);
      assert MayReadIssuer(st, s, rows[k].id, now);
    }
  }

  // -------------------------------------------------------- when they disagree

  /** An administrator's list shows another's request pinned to an issuer that is gone,
      which reading it alone refuses. */
  lemma PinnedGone(st: State, rows: seq<Issuer>, s: Subjects, r: Request, parse: string -> Option<string>, now: int)
    requires Stored(st, s.tenant, rows) && IsAdmin(s) && r.pinned != "" && !Own(s, r)
    ensures (ListsRequest(ScopeOf(st.grants, rows, s, now), r) <==> MayReadRequest(st, rows, s, r, parse, now))
      <==> Resource(s.tenant, ResourceType.Issuer, r.pinned) in st.resources
  {
  }

  const ADMIN := Subjects("t", "u", ["admin"], "")

  ghost function OneIssuer(d: string): seq<Issuer> {
    [IssuerPages.Issuer.Issuer("i", 1, d, true)]
  }

  const ONE := State({Resource("t", ResourceType.Issuer, "i")}, map[])

  /** In a store with one issuer, the default of domain d, read by an administrator. */
  lemma OneDefault(spiffe: string, parse: string -> Option<string>, d: string)
    ensures Stored(ONE, "t", OneIssuer(d))
    ensures var r := Request("", "", spiffe);
      && (ListsRequest(ScopeOf(ONE.grants, OneIssuer(d), ADMIN, 0), r) <==> ListedDomain(spiffe) == Some(d))
      && (MayReadRequest(ONE, OneIssuer(d), ADMIN, r, parse, 0) <==> parse(spiffe) == Some(d))
  {
    var rows := OneIssuer(d);
    assert rows[0].id == "i" && rows[0] in rows;
    assert "admin" in ADMIN.roles && "admin" in ADMIN_ROLES by {
      assert ADMIN_ROLES[1] == "admin" && ADMIN.roles[0] == "admin";
    }
    assert IsDefaultOf(rows, 0, d) && MayReadIssuer(ONE, ADMIN, rows[0].id, 0);
    assert ScopeOf(ONE.grants, rows, ADMIN, 0).domains == {d};
  }

  /** Whatever SPIFFE parser the single check uses: a request without a pinned issuer is
      listed exactly when it may be read, in every store, if and only if the parser reads
      the same trust domain out of its SPIFFE id as the list does. */
  lemma ParserExact(spiffe: string, parse: string -> Option<string>)
    ensures (forall st, rows, s: Subjects, who, now :: Stored(st, s.tenant, rows) ==>
               (ListsRequest(ScopeOf(st.grants, rows, s, now), Request(who, "", spiffe))
                <==> MayReadRequest(st, rows, s, Request(who, "", spiffe), parse, now)))
      <==> parse(spiffe) == ListedDomain(spiffe)
  {
    if parse(spiffe) == ListedDomain(spiffe) {
      forall st, rows, s: Subjects, who, now | Stored(st, s.tenant, rows)
        ensures ListsRequest(ScopeOf(st.grants, rows, s, now), Request(who, "", spiffe))
            <==> MayReadRequest(st, rows, s, Request(who, "", spiffe), parse, now)
      {
        RequestListExact(st, rows, s, Request(who, "", spiffe), parse, now);
      }
    } else {
      var d := if parse(spiffe).Some? then parse(spiffe).value else ListedDomain(spiffe).value;
      OneDefault(spiffe, parse, d);
      assert Stored(ONE, ADMIN.tenant, OneIssuer(d));
    }
  }
}
