/** Importing a tenant's own export over itself changes nothing (internal/transfer/backup.go). */
module BackupAgain {
  import opened Common
  import opened Sealed
  import opened Backup
  import opened BackupLaws
  import opened BackupRoundTrip

  /** Every issuer is sealed and shows what is sealed, as the service leaves it. */
  ghost predicate WellSealed(rules: Rules, t: Tenant) {
    forall k :: k in t.issuers ==> t.issuers[k].blob.Blob? && Shown(rules, t.issuers[k])
  }

  // ------------------------------------------------------------------ issuers

  /** Overwriting an issuer by its own entry writes the row that is there. */
  lemma SameRowAgain(rules: Rules, row: IssuerRow)
    requires row.blob.Blob? && Shown(rules, row)
    ensures var d := ExportIssuer(rules, row, true);
      && d.settings + d.credentials == OpenIssuer(row).value && KeptCredentials(rules, row, d) == d.credentials
      && SealedRow(rules, row.(kind := d.kind, domain := d.domain, isDefault := d.isDefault), d.settings + d.credentials) == row
  {
    var clear := OpenIssuer(row).value;
    SplitJoin(clear, rules.secret);
    assert PublicPart(Redacted(clear, rules.secret), rules.secret) == PublicPart(clear, rules.secret);
  }

  lemma IssuerAgain(rules: Rules, t: Tenant, a: Issuing, k: nat, overwrite: bool)
    requires Exportable(rules, t) && WellSealed(rules, t) && a.t == t && k in t.issuers && k in a.known
    ensures IssuerStep(rules, a, ExportIssuer(rules, t.issuers[k], true), overwrite) ==
      Some(if overwrite then a.(created := a.created + 1) else a.(skipped := a.skipped + 1))
  {
    var row := t.issuers[k];
    var d := ExportIssuer(rules, row, true);
    assert row.name.low == k && rules.fits(d.settings + d.credentials);
    assert !DefaultClash(t.issuers, k, row.isDefault, row.domain);
    SameRowAgain(rules, row);
    SameFields(rules, row);
    hide Exportable, WellSealed, KeptCredentials, SealedRow, ExportIssuer, DefaultClash;
    assert t.issuers[k := row] == t.issuers;
  }

  lemma ImportIssuersNext(rules: Rules, a: Issuing, ds: seq<DocIssuer>, n: nat, overwrite: bool)
    requires 0 < n <= |ds| && ImportIssuers(rules, a, ds[..n - 1], overwrite).Some?
    ensures ImportIssuers(rules, a, ds[..n], overwrite) ==
      IssuerStep(rules, ImportIssuers(rules, a, ds[..n - 1], overwrite).value, ds[n - 1], overwrite)
  {
    hide IssuerStep;
    assert ds[..n][..n - 1] == ds[..n - 1];
  }

  lemma {:induction false} IssuersAgain(rules: Rules, t: Tenant, doc: Document, n: nat, overwrite: bool)
    requires Exportable(rules, t) && WellSealed(rules, t) && IsExport(rules, t, true, doc) && n <= |doc.issuers|
    ensures ImportIssuers(rules, Issuing(t, Listed(t.issuers), 0, 0), doc.issuers[..n], overwrite) ==
      Some(Issuing(t, Listed(t.issuers), if overwrite then n else 0, if overwrite then 0 else n))
  {
    assert |t.issuers| <= MAX_ISSUERS by { hide IdsUnique, OpenIssuer, OpenSecret, ExportIssuer; }
    hide Exportable, WellSealed, IsExport, IssuerStep, ExportIssuer, Listed;
    if n > 0 {
      IssuersAgain(rules, t, doc, n - 1, overwrite);
      ImportIssuersNext(rules, Issuing(t, Listed(t.issuers), 0, 0), doc.issuers, n, overwrite);
      hide ImportIssuers;
      ExportedClean(rules, t, doc, n - 1);
      var k := doc.issuers[n - 1].name.low;
      AllListed(t.issuers, k);
      IssuerAgain(rules, t, Issuing(t, Listed(t.issuers), if overwrite then n - 1 else 0, if overwrite then 0 else n - 1), k, overwrite);
    }
  }

  // ------------------------------------------------------------- certificates

  lemma CertStepSame(a: Certifying, issuers: map<nat, nat>, d: DocCert, now: int, overwrite: bool)
    requires d.issuer.low in issuers && d.serial in a.known && d.serial in a.t.certs
    requires a.t.certs[d.serial].status == d.status && a.t.certs[d.serial].chain == d.chain
    ensures CertStep(a, issuers, d, now, overwrite) == if overwrite then a.(created := a.created + 1) else a.(skipped := a.skipped + 1)
  {
    assert a.t.certs[d.serial := a.t.certs[d.serial]] == a.t.certs;
  }

  lemma CertAgain(rules: Rules, t: Tenant, doc: Document, a: Certifying, d: DocCert, now: int, overwrite: bool)
    requires Exportable(rules, t) && IsExport(rules, t, true, doc) && d in doc.certs && a.t == t && a.known == ListedCerts(t.certs)
    ensures CertStep(a, Listed(t.issuers), d, now, overwrite) ==
      if overwrite then a.(created := a.created + 1) else a.(skipped := a.skipped + 1)
  {
    assert |t.issuers| <= MAX_ISSUERS && |t.certs| <= MAX_CERTS;
    hide Exportable, IsExport, Listed, ListedCerts, CertStep;
    var k := CertOf(rules, t, doc, d);
    AllListed(t.issuers, k);
    AllCertsListed(t.certs, d.serial);
    CertStepSame(a, Listed(t.issuers), d, now, overwrite);
  }

  lemma {:induction false} CertsAgain(rules: Rules, t: Tenant, doc: Document, n: nat, now: int, overwrite: bool)
    requires Exportable(rules, t) && IsExport(rules, t, true, doc) && n <= |doc.certs|
    ensures ImportCerts(Certifying(t, ListedCerts(t.certs), 0, 0), Listed(t.issuers), doc.certs[..n], now, overwrite) ==
      Certifying(t, ListedCerts(t.certs), if overwrite then n else 0, if overwrite then 0 else n)
  {
    hide Exportable, IsExport, CertStep, Listed, ListedCerts;
    if n > 0 {
      CertsAgain(rules, t, doc, n - 1, now, overwrite);
      assert doc.certs[..n][..n - 1] == doc.certs[..n - 1];
      CertAgain(rules, t, doc, Certifying(t, ListedCerts(t.certs), if overwrite then n - 1 else 0, if overwrite then 0 else n - 1), doc.certs[n - 1], now, overwrite);
    }
  }

  // ------------------------------------------------------------------- grants

  lemma GrantAgain(rules: Rules, t: Tenant, doc: Document, d: DocPermission)
    requires Exportable(rules, t) && IsExport(rules, t, true, doc) && d in doc.permissions
    ensures var on := Resolve(d.on, Listed(t.issuers), ListedCerts(t.certs));
      on.Some? && GrantKey(on.value, d.subjectType, d.subject) in t.grants && t.grants[GrantKey(on.value, d.subjectType, d.subject)] == d.value
  {
    assert |t.issuers| <= MAX_ISSUERS && |t.certs| <= MAX_CERTS;
    SourcePermissions(rules, t, doc);
    assert Has(t, d);
    hide Exportable, IsExport, Listed, ListedCerts;
    match d.on
    case IssuerRef(name) => ListedId(t.issuers, name.low);
    case CertRef(serial) => ListedCertId(t.certs, serial);
  }

  lemma ListedId(issuers: map<nat, IssuerRow>, k: nat)
    requires |issuers| <= MAX_ISSUERS && k in issuers
    ensures k in Listed(issuers) && Listed(issuers)[k] == issuers[k].id
  {
    AllListed(issuers, k);
  }

  lemma ListedCertId(certs: map<string, CertRow>, k: string)
    requires |certs| <= MAX_CERTS && k in certs
    ensures k in ListedCerts(certs) && ListedCerts(certs)[k] == certs[k].id
  {
    AllCertsListed(certs, k);
  }

  lemma GrantStepSame(grants: map<GrantKey, GrantValue>, issuers: map<nat, nat>, certs: map<string, nat>, ds: seq<DocPermission>, d: DocPermission)
    requires ImportGrants(grants, issuers, certs, ds) == grants && GrantsWritten(issuers, certs, ds) == |ds|
    requires var on := Resolve(d.on, issuers, certs);
      on.Some? && GrantKey(on.value, d.subjectType, d.subject) in grants && grants[GrantKey(on.value, d.subjectType, d.subject)] == d.value
    ensures ImportGrants(grants, issuers, certs, ds + [d]) == grants && GrantsWritten(issuers, certs, ds + [d]) == |ds| + 1
  {
    var key := GrantKey(Resolve(d.on, issuers, certs).value, d.subjectType, d.subject);
    hide Resolve;
    assert (ds + [d])[..|ds|] == ds && (ds + [d])[|ds|] == d;
    assert grants[key := d.value] == grants;
  }

  lemma {:induction false} GrantsSame(rules: Rules, t: Tenant, doc: Document, n: nat)
    requires Exportable(rules, t) && IsExport(rules, t, true, doc) && n <= |doc.permissions|
    ensures ImportGrants(t.grants, Listed(t.issuers), ListedCerts(t.certs), doc.permissions[..n]) == t.grants
    ensures GrantsWritten(Listed(t.issuers), ListedCerts(t.certs), doc.permissions[..n]) == n
  {
    hide Exportable, IsExport, Listed, ListedCerts, Resolve;
    if n > 0 {
      hide ImportGrants, GrantsWritten;
      GrantsSame(rules, t, doc, n - 1);
      GrantAgain(rules, t, doc, doc.permissions[n - 1]);
      GrantStepSame(t.grants, Listed(t.issuers), ListedCerts(t.certs), doc.permissions[..n - 1], doc.permissions[n - 1]);
      assert doc.permissions[..n] == doc.permissions[..n - 1] + [doc.permissions[n - 1]];
    }
  }

  // ------------------------------------------------------------------ secrets

  lemma SecretAgain(rules: Rules, t: Tenant, a: Securing, k: nat, overwrite: bool)
    requires a.t == t && k in t.secrets && t.secrets[k].name.low == k && OpenSecret(t.secrets[k]).Some? && rules.fits(OpenSecret(t.secrets[k]).value)
    ensures SecretStep(rules, a, DocSecret(t.secrets[k].name, t.secrets[k].kind, OpenSecret(t.secrets[k])), overwrite) == Some(a)
  {
    assert t.secrets[k := t.secrets[k]] == t.secrets;
  }

  lemma {:induction false} SecretsAgain(rules: Rules, t: Tenant, doc: Document, n: nat, overwrite: bool)
    requires Exportable(rules, t) && IsExport(rules, t, true, doc) && n <= |doc.secrets|
    ensures ImportSecrets(rules, Securing(t, 0), doc.secrets[..n], overwrite) == Some(Securing(t, 0))
  {
    assert forall k :: k in t.secrets ==> t.secrets[k].name.low == k && OpenSecret(t.secrets[k]).Some? && rules.fits(OpenSecret(t.secrets[k]).value);
    hide Exportable, IsExport, SecretStep, OpenSecret;
    if n > 0 {
      SecretsAgain(rules, t, doc, n - 1, overwrite);
      assert doc.secrets[..n][..n - 1] == doc.secrets[..n - 1];
      var k := SecretOf(rules, t, doc, n - 1);
      SecretAgain(rules, t, Securing(t, 0), k, overwrite);
    }
  }

  /** A tenant's own export, imported over it in either mode, succeeds and leaves every row
      as it was; it reports every issuer, certificate and permission as written when it
      overwrites, and no issuer and certificate when it skips. */
  lemma OwnExport(rules: Rules, t: Tenant, doc: Document, now: int, overwrite: bool)
    requires Exportable(rules, t) && WellSealed(rules, t) && IsExport(rules, t, true, doc) && WithinLimits(doc)
    ensures var i, c := |doc.issuers|, |doc.certs|;
      Import(rules, t, doc, now, overwrite) ==
        (t, Some(if overwrite then Report(i, 0, c, 0, |doc.permissions|, 0) else Report(0, i, 0, c, |doc.permissions|, 0)))
  {
    hide Exportable, WellSealed, IsExport, ImportIssuers, ImportCerts, ImportGrants, ImportSecrets, GrantsWritten, Listed, ListedCerts;
    IssuersAgain(rules, t, doc, |doc.issuers|, overwrite);
    CertsAgain(rules, t, doc, |doc.certs|, now, overwrite);
    GrantsSame(rules, t, doc, |doc.permissions|);
    SecretsAgain(rules, t, doc, |doc.secrets|, overwrite);
    assert doc.issuers[..|doc.issuers|] == doc.issuers && doc.certs[..|doc.certs|] == doc.certs;
    assert doc.permissions[..|doc.permissions|] == doc.permissions && doc.secrets[..|doc.secrets|] == doc.secrets;
  }
}
