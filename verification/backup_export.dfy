/** The export as it runs: the loops that collect the document (internal/transfer/backup.go). */
module BackupExport {
  import opened Common
  import opened Sealed
  import opened Backup
  import opened BackupLaws

  /** Issuers under their names; ids given out once. */
  ghost predicate Keyed(t: Tenant) {
    IdsUnique(t) && (forall k :: k in t.issuers ==> t.issuers[k].name.low == k) && (forall k :: k in t.secrets ==> t.secrets[k].name.low == k)
  }

  lemma AllDone<T>(all: set<T>, done: set<T>)
    requires done <= all && all - done == {}
    ensures done == all
  {
    forall x | x in all ensures x in done {
      assert x !in all - done;
    }
  }

  function NameIn(names: map<nat, Name>, id: nat): Name {
    if id in names then names[id] else NO_NAME
  }

  ghost predicate IssuersOf(rules: Rules, t: Tenant, credentials: bool, keys: set<nat>, out: seq<DocIssuer>) {
    && Distinct(out)
    && (forall d :: d in out <==> exists k :: k in keys && k in t.issuers && d == ExportIssuer(rules, t.issuers[k], credentials))
  }

  lemma IssuersGrow(rules: Rules, t: Tenant, credentials: bool, keys: set<nat>, out: seq<DocIssuer>, k: nat)
    requires Keyed(t) && keys <= t.issuers.Keys && IssuersOf(rules, t, credentials, keys, out) && k in t.issuers && k !in keys
    ensures IssuersOf(rules, t, credentials, keys + {k}, out + [ExportIssuer(rules, t.issuers[k], credentials)])
  {
    var d, out' := ExportIssuer(rules, t.issuers[k], credentials), out + [ExportIssuer(rules, t.issuers[k], credentials)];
    assert d.name.low == k;
    hide ExportIssuer, IdsUnique;
    forall e | e in out ensures e.name.low != k {
      var j :| j in keys && j in t.issuers && e == ExportIssuer(rules, t.issuers[j], credentials);
      ExportsName(rules, t.issuers[j], credentials);
    }
    forall e ensures e in out' <==> exists j :: j in keys + {k} && j in t.issuers && e == ExportIssuer(rules, t.issuers[j], credentials) {
      if e in out {
        var j :| j in keys && j in t.issuers && e == ExportIssuer(rules, t.issuers[j], credentials);
        assert j in keys + {k};
      }
    }
  }

  lemma ExportsName(rules: Rules, row: IssuerRow, credentials: bool)
    ensures ExportIssuer(rules, row, credentials).name == row.name
  {
  }

  ghost predicate NamesOf(t: Tenant, keys: set<nat>, names: map<nat, Name>) {
    && (forall k :: k in keys && k in t.issuers ==> t.issuers[k].id in names && names[t.issuers[k].id] == t.issuers[k].name)
    && (forall id :: id in names ==> exists k :: k in keys && k in t.issuers && t.issuers[k].id == id)
  }

  /** The issuers, and the names of the listed ones by id; nothing when a sealed issuer
      does not open and credentials are asked for. */
  method ExportIssuers(rules: Rules, t: Tenant, credentials: bool) returns (out: Option<seq<DocIssuer>>, names: map<nat, Name>)
    requires Keyed(t)
    ensures out.None? <==> credentials && exists k :: k in Listed(t.issuers) && OpenIssuer(t.issuers[k]).None?
    ensures out.Some? ==> IssuersOf(rules, t, credentials, Listed(t.issuers).Keys, out.value) && NamesOf(t, Listed(t.issuers).Keys, names)
  {
    hide ExportIssuer, OpenIssuer, IdsUnique;
    var listed := Listed(t.issuers).Keys;
    var done: set<nat> := {};
    var items: seq<DocIssuer> := [];
    names := map[];
    while listed - done != {}
      invariant done <= listed && IssuersOf(rules, t, credentials, done, items) && NamesOf(t, done, names)
      invariant credentials ==> forall k :: k in done ==> OpenIssuer(t.issuers[k]).Some?
      decreases listed - done
    {
      var k :| k in listed - done;
      var row := t.issuers[k];
      if credentials && OpenIssuer(row).None? {
        return None, names;
      }
      NamesGrow(t, done, names, k);
      names := names[row.id := row.name];
      IssuersGrow(rules, t, credentials, done, items, k);
      items := items + [ExportIssuer(rules, row, credentials)];
      done := done + {k};
    }
    AllDone(listed, done);
    out := Some(items);
  }

  lemma NamesGrow(t: Tenant, keys: set<nat>, names: map<nat, Name>, k: nat)
    requires Keyed(t) && NamesOf(t, keys, names) && k in t.issuers
    ensures NamesOf(t, keys + {k}, names[t.issuers[k].id := t.issuers[k].name])
  {
    var names' := names[t.issuers[k].id := t.issuers[k].name];
    assert IssuerIds(t.issuers, t.nextId);
    forall id | id in names' ensures exists j :: j in keys + {k} && j in t.issuers && t.issuers[j].id == id {
      if id != t.issuers[k].id {
        var j :| j in keys && j in t.issuers && t.issuers[j].id == id;
        assert j in keys + {k};
      } else {
        assert k in keys + {k};
      }
    }
  }

  lemma NameFound(t: Tenant, names: map<nat, Name>, id: nat, name: Name)
    requires Keyed(t) && NamesOf(t, Listed(t.issuers).Keys, names)
    ensures NameOf(t, id, name) <==> name == NameIn(names, id)
  {
    assert IssuerIds(t.issuers, t.nextId);
    if id in names {
      var k :| k in Listed(t.issuers).Keys && k in t.issuers && t.issuers[k].id == id;
      assert names[id] == t.issuers[k].name;
    }
  }

  function CertEntry(t: Tenant, names: map<nat, Name>, s: string): DocCert
    requires s in t.certs
  {
    DocCert(s, NameIn(names, t.certs[s].issuer), t.certs[s].info, t.certs[s].status, t.certs[s].chain)
  }

  method ExportCerts(t: Tenant, names: map<nat, Name>) returns (out: seq<DocCert>)
    requires Keyed(t) && NamesOf(t, Listed(t.issuers).Keys, names)
    ensures Distinct(out) && forall d :: d in out <==> ExportsCert(t, d)
  {
    var listed := ListedCerts(t.certs).Keys;
    var done: set<string> := {};
    out := [];
    while listed - done != {}
      invariant done <= listed && Distinct(out)
      invariant forall d :: d in out <==> d.serial in done && d == CertEntry(t, names, d.serial)
      decreases listed - done
    {
      var s :| s in listed - done;
      out := out + [CertEntry(t, names, s)];
      done := done + {s};
    }
    AllDone(listed, done);
    forall d ensures d in out <==> ExportsCert(t, d) {
      if d.serial in listed {
        NameFound(t, names, t.certs[d.serial].issuer, d.issuer);
      }
    }
  }

  // --------------------------------------------------------------- permissions

  /** The permission that exports a grant on a resource with a reference. */
  function PermissionOf(key: GrantKey, value: GrantValue, on: Ref): DocPermission {
    DocPermission(on, key.subjectType, key.subject, value)
  }

  ghost predicate OnResource(grants: map<GrantKey, GrantValue>, on: Resource, r: Ref, keys: set<GrantKey>, out: seq<DocPermission>) {
    && Distinct(out)
    && forall d :: d in out <==> (
         && d.on == r && GrantKey(on, d.subjectType, d.subject) in keys && GrantKey(on, d.subjectType, d.subject) in grants
         && grants[GrantKey(on, d.subjectType, d.subject)] == d.value)
  }

  /** The grants on one resource, under its reference. */
  method GrantsOn(grants: map<GrantKey, GrantValue>, on: Resource, r: Ref) returns (out: seq<DocPermission>)
    ensures OnResource(grants, on, r, grants.Keys, out)
  {
    var left := grants.Keys;
    out := [];
    while left != {}
      invariant left <= grants.Keys && OnResource(grants, on, r, grants.Keys - left, out)
      decreases left
    {
      var key :| key in left;
      if key.on == on {
        out := out + [PermissionOf(key, grants[key], r)];
      }
      left := left - {key};
    }
    assert grants.Keys - left == grants.Keys;
  }

  ghost predicate IssuerPermissions(t: Tenant, keys: set<nat>, out: seq<DocPermission>) {
    && Distinct(out)
    && forall d :: d in out <==> (
         && d.on.IssuerRef? && d.on.name.low in keys && d.on.name.low in t.issuers && d.on.name == t.issuers[d.on.name.low].name
         && GrantKey(OfIssuer(t.issuers[d.on.name.low].id), d.subjectType, d.subject) in t.grants
         && t.grants[GrantKey(OfIssuer(t.issuers[d.on.name.low].id), d.subjectType, d.subject)] == d.value)
  }

  ghost predicate CertPermissions(t: Tenant, keys: set<string>, out: seq<DocPermission>) {
    && Distinct(out)
    && forall d :: d in out <==> (
         && d.on.CertRef? && d.on.serial in keys && d.on.serial in t.certs
         && GrantKey(OfCertificate(t.certs[d.on.serial].id), d.subjectType, d.subject) in t.grants
         && t.grants[GrantKey(OfCertificate(t.certs[d.on.serial].id), d.subjectType, d.subject)] == d.value)
  }

  lemma DistinctJoin<T(!new)>(a: seq<T>, b: seq<T>)
    requires Distinct(a) && Distinct(b) && forall x :: x in a ==> x !in b
    ensures Distinct(a + b)
  {
    var s := a + b;
    forall i, k | 0 <= i < k < |s| ensures s[i] != s[k] {
      if i < |a| <= k {
        assert s[i] in a && s[k] in b;
      }
    }
  }

  lemma IssuerPermissionsGrow(t: Tenant, keys: set<nat>, out: seq<DocPermission>, k: nat, more: seq<DocPermission>)
    requires Keyed(t) && IssuerPermissions(t, keys, out) && k in t.issuers && k !in keys
    requires OnResource(t.grants, OfIssuer(t.issuers[k].id), IssuerRef(t.issuers[k].name), t.grants.Keys, more)
    ensures IssuerPermissions(t, keys + {k}, out + more)
  {
    assert t.issuers[k].name.low == k;
    hide IdsUnique;
    DistinctJoin(out, more);
  }

  lemma CertPermissionsGrow(t: Tenant, keys: set<string>, out: seq<DocPermission>, s: string, more: seq<DocPermission>)
    requires CertPermissions(t, keys, out) && s in t.certs && s !in keys
    requires OnResource(t.grants, OfCertificate(t.certs[s].id), CertRef(s), t.grants.Keys, more)
    ensures CertPermissions(t, keys + {s}, out + more)
  {
    DistinctJoin(out, more);
  }

  method ExportPermissions(t: Tenant) returns (out: seq<DocPermission>)
    requires Keyed(t)
    ensures Distinct(out) && forall d :: d in out <==> ExportsPermission(t, d)
  {
    hide IssuerPermissions, CertPermissions, OnResource;
    var ofIssuers := ExportIssuerPermissions(t);
    var ofCerts := ExportCertPermissions(t);
    out := ofIssuers + ofCerts;
    PermissionsTogether(t, ofIssuers, ofCerts);
  }

  method ExportIssuerPermissions(t: Tenant) returns (out: seq<DocPermission>)
    requires Keyed(t)
    ensures IssuerPermissions(t, Listed(t.issuers).Keys, out)
  {
    var listed := Listed(t.issuers).Keys;
    var done: set<nat> := {};
    out := [];
    assert IssuerPermissions(t, done, out);
    hide IssuerPermissions, OnResource, IdsUnique;
    while listed - done != {}
      invariant done <= listed && IssuerPermissions(t, done, out)
      decreases listed - done
    {
      var k :| k in listed - done;
      var more := GrantsOn(t.grants, OfIssuer(t.issuers[k].id), IssuerRef(t.issuers[k].name));
      IssuerPermissionsGrow(t, done, out, k, more);
      out := out + more;
      done := done + {k};
    }
    AllDone(listed, done);
  }

  method ExportCertPermissions(t: Tenant) returns (out: seq<DocPermission>)
    ensures CertPermissions(t, ListedCerts(t.certs).Keys, out)
  {
    var listed := ListedCerts(t.certs).Keys;
    var done: set<string> := {};
    out := [];
    assert CertPermissions(t, done, out);
    hide CertPermissions, OnResource;
    while listed - done != {}
      invariant done <= listed && CertPermissions(t, done, out)
      decreases listed - done
    {
      var s :| s in listed - done;
      var more := GrantsOn(t.grants, OfCertificate(t.certs[s].id), CertRef(s));
      CertPermissionsGrow(t, done, out, s, more);
      out := out + more;
      done := done + {s};
    }
    AllDone(listed, done);
  }

  lemma PermissionsTogether(t: Tenant, ofIssuers: seq<DocPermission>, ofCerts: seq<DocPermission>)
    requires Keyed(t) && IssuerPermissions(t, Listed(t.issuers).Keys, ofIssuers) && CertPermissions(t, ListedCerts(t.certs).Keys, ofCerts)
    ensures Distinct(ofIssuers + ofCerts) && forall d :: d in ofIssuers + ofCerts <==> ExportsPermission(t, d)
  {
    DistinctJoin(ofIssuers, ofCerts);
    hide IdsUnique, Distinct;
    forall d ensures d in ofIssuers + ofCerts <==> ExportsPermission(t, d) {
      assert d in ofIssuers + ofCerts <==> d in ofIssuers || d in ofCerts;
      PermissionMeans(t, d);
    }
  }

  lemma PermissionMeans(t: Tenant, d: DocPermission)
    requires Keyed(t)
    ensures d.on.IssuerRef? ==> (ExportsPermission(t, d) <==> (
      && d.on.name.low in Listed(t.issuers) && d.on.name == t.issuers[d.on.name.low].name
      && GrantKey(OfIssuer(t.issuers[d.on.name.low].id), d.subjectType, d.subject) in t.grants
      && t.grants[GrantKey(OfIssuer(t.issuers[d.on.name.low].id), d.subjectType, d.subject)] == d.value))
  {
    hide IdsUnique;
  }

  // -------------------------------------------------------------------- secrets

  ghost predicate SecretsOf(t: Tenant, keys: set<nat>, out: seq<DocSecret>) {
    && Distinct(out)
    && (forall d :: d in out <==> (
         && d.name.low in keys && d.name.low in t.secrets
         && d == DocSecret(t.secrets[d.name.low].name, t.secrets[d.name.low].kind, OpenSecret(t.secrets[d.name.low]))))
  }

  method ExportSecrets(t: Tenant) returns (out: Option<seq<DocSecret>>)
    requires Keyed(t)
    ensures out.None? <==> exists k :: k in t.secrets && OpenSecret(t.secrets[k]).None?
    ensures out.Some? ==> SecretsOf(t, t.secrets.Keys, out.value)
  {
    hide OpenSecret, IdsUnique;
    var done: set<nat> := {};
    var items: seq<DocSecret> := [];
    while t.secrets.Keys - done != {}
      invariant done <= t.secrets.Keys && SecretsOf(t, done, items)
      invariant forall k :: k in done ==> OpenSecret(t.secrets[k]).Some?
      decreases t.secrets.Keys - done
    {
      var k :| k in t.secrets.Keys - done;
      var row := t.secrets[k];
      var value := OpenSecret(row);
      if value.None? {
        return None;
      }
      items := items + [DocSecret(row.name, row.kind, value)];
      done := done + {k};
    }
    AllDone(t.secrets.Keys, done);
    out := Some(items);
  }

  // ----------------------------------------------------------------- the export

  /** Export: the document of the tenant, or nothing when credentials are asked for and
      something sealed does not open. */
  method Export(rules: Rules, t: Tenant, credentials: bool) returns (doc: Option<Document>)
    requires Keyed(t)
    ensures doc.Some? ==> IsExport(rules, t, credentials, doc.value)
    ensures doc.None? <==> credentials && ((exists k :: k in Listed(t.issuers) && OpenIssuer(t.issuers[k]).None?)
                                           || exists k :: k in t.secrets && OpenSecret(t.secrets[k]).None?)
  {
    hide Keyed, IssuersOf, NamesOf, ExportsCert, ExportsPermission, SecretsOf, Listed, OpenIssuer, OpenSecret, Distinct, IsExport;
    var issuers, names := ExportIssuers(rules, t, credentials);
    if issuers.None? {
      return None;
    }
    var certs := ExportCerts(t, names);
    var permissions := ExportPermissions(t);
    var secrets: seq<DocSecret> := [];
    if credentials {
      var found := ExportSecrets(t);
      if found.None? {
        return None;
      }
      secrets := found.value;
    }
    var built := Document(issuers.value, certs, permissions, secrets);
    Complete(rules, t, credentials, built);
    doc := Some(built);
  }

  lemma Complete(rules: Rules, t: Tenant, credentials: bool, doc: Document)
    requires Keyed(t) && IssuersOf(rules, t, credentials, Listed(t.issuers).Keys, doc.issuers)
    requires Distinct(doc.certs) && forall d :: d in doc.certs <==> ExportsCert(t, d)
    requires Distinct(doc.permissions) && forall d :: d in doc.permissions <==> ExportsPermission(t, d)
    requires if credentials then SecretsOf(t, t.secrets.Keys, doc.secrets) else doc.secrets == []
    requires credentials ==> forall k :: k in Listed(t.issuers) ==> OpenIssuer(t.issuers[k]).Some?
    requires credentials ==> forall k :: k in t.secrets ==> OpenSecret(t.secrets[k]).Some?
    ensures IsExport(rules, t, credentials, doc)
  {
    hide ExportsCert, ExportsPermission, ExportIssuer, OpenIssuer, OpenSecret, IdsUnique;
    forall d ensures d in doc.issuers <==> ExportsIssuer(rules, t, credentials, d) {
    }
    if credentials {
      forall d ensures d in doc.secrets <==> ExportsSecret(t, d) {
        if ExportsSecret(t, d) {
          var k :| k in t.secrets && d == DocSecret(t.secrets[k].name, t.secrets[k].kind, OpenSecret(t.secrets[k]));
        }
      }
    }
  }
}
