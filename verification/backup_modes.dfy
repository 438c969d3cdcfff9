/** What both import modes keep, what credentials do, and a skip import after an overwrite. */
module BackupModes {
  import opened Common
  import opened Sealed
  import opened Backup
  import opened BackupLaws

  // ------------------------------------------------------------ both modes

  /** Every row is still there under its key, with its id and its name. */
  ghost predicate IssuersKept(issuers: map<nat, IssuerRow>, issuers': map<nat, IssuerRow>) {
    forall k :: k in issuers ==> k in issuers' && issuers'[k].id == issuers[k].id && issuers'[k].name == issuers[k].name
  }

  /** And a certificate keeps its issuer and everything but status and chain. */
  ghost predicate CertsKept(certs: map<string, CertRow>, certs': map<string, CertRow>) {
    forall k :: k in certs ==> k in certs' && certs'[k].(status := certs[k].status, chain := certs[k].chain) == certs[k]
  }

  ghost predicate SecretsKept(secrets: map<nat, SecretRow>, secrets': map<nat, SecretRow>) {
    forall k :: k in secrets ==> k in secrets' && secrets'[k].id == secrets[k].id && secrets'[k].name == secrets[k].name
  }

  lemma IssuerStepKeeps(rules: Rules, a: Issuing, d: DocIssuer, overwrite: bool)
    requires KnownIssuers(a.known, a.t.issuers) && IssuerStep(rules, a, d, overwrite).Some?
    ensures var b := IssuerStep(rules, a, d, overwrite).value;
      && IssuersKept(a.t.issuers, b.t.issuers) && KnownIssuers(b.known, b.t.issuers)
      && b.t == a.t.(issuers := b.t.issuers, nextId := b.t.nextId)
      && (b.skipped == a.skipped ==> d.name.low in b.t.issuers) && b.skipped >= a.skipped
  {
    hide Redacted, Credentials, DefaultClash;
  }

  lemma {:induction false} IssuersKeep(rules: Rules, a: Issuing, ds: seq<DocIssuer>, overwrite: bool)
    requires KnownIssuers(a.known, a.t.issuers) && ImportIssuers(rules, a, ds, overwrite).Some?
    ensures var b := ImportIssuers(rules, a, ds, overwrite).value;
      && IssuersKept(a.t.issuers, b.t.issuers) && KnownIssuers(b.known, b.t.issuers)
      && b.t == a.t.(issuers := b.t.issuers, nextId := b.t.nextId)
      && b.skipped >= a.skipped
      && (b.skipped == a.skipped ==> forall i :: 0 <= i < |ds| ==> ds[i].name.low in b.t.issuers)
  {
    if ds != [] {
      var n := |ds| - 1;
      hide IssuerStep, KnownIssuers;
      IssuersKeep(rules, a, ds[..n], overwrite);
      var m := ImportIssuers(rules, a, ds[..n], overwrite).value;
      IssuerStepKeeps(rules, m, ds[n], overwrite);
      var b := IssuerStep(rules, m, ds[n], overwrite).value;
      assert forall i :: 0 <= i < n ==> ds[..n][i] == ds[i];
    }
  }

  lemma {:induction false} CertsKeep(a: Certifying, issuers: map<nat, nat>, ds: seq<DocCert>, now: int, overwrite: bool)
    requires KnownCerts(a.known, a.t.certs)
    ensures var b := ImportCerts(a, issuers, ds, now, overwrite);
      && CertsKept(a.t.certs, b.t.certs) && KnownCerts(b.known, b.t.certs)
      && b.t == a.t.(certs := b.t.certs, nextId := b.t.nextId)
  {
    if ds != [] {
      CertsKeep(a, issuers, ds[..|ds| - 1], now, overwrite);
    }
  }

  lemma {:induction false} SecretsKeep(rules: Rules, a: Securing, ds: seq<DocSecret>, overwrite: bool)
    requires ImportSecrets(rules, a, ds, overwrite).Some?
    ensures var b := ImportSecrets(rules, a, ds, overwrite).value;
      && SecretsKept(a.t.secrets, b.t.secrets) && b.t == a.t.(secrets := b.t.secrets, nextId := b.t.nextId)
  {
    if ds != [] {
      SecretsKeep(rules, a, ds[..|ds| - 1], overwrite);
    }
  }

  ghost predicate Exists(t: Tenant, on: Resource) {
    match on
    case OfIssuer(id) => exists k :: k in t.issuers && t.issuers[k].id == id
    case OfCertificate(id) => exists k :: k in t.certs && t.certs[k].id == id
  }

  /** Every grant is on a stored resource. */
  ghost predicate GrantsLive(t: Tenant) {
    forall key :: key in t.grants ==> Exists(t, key.on)
  }

  lemma {:induction false} GrantsStayLive(t: Tenant, grants: map<GrantKey, GrantValue>, issuers: map<nat, nat>, certs: map<string, nat>, ds: seq<DocPermission>)
    requires KnownIssuers(issuers, t.issuers) && KnownCerts(certs, t.certs)
    requires forall key :: key in grants ==> Exists(t, key.on)
    ensures forall key :: key in ImportGrants(grants, issuers, certs, ds) ==> Exists(t, key.on)
  {
    if ds != [] {
      GrantsStayLive(t, grants, issuers, certs, ds[..|ds| - 1]);
    }
  }

  /** An import in either mode removes no row and changes no id, no name and no
      certificate but for its status and chain; and it leaves no grant on a resource that
      is not stored. */
  lemma ImportKeeps(rules: Rules, t: Tenant, doc: Document, now: int, overwrite: bool)
    ensures var t' := Import(rules, t, doc, now, overwrite).0;
      && IssuersKept(t.issuers, t'.issuers) && CertsKept(t.certs, t'.certs) && SecretsKept(t.secrets, t'.secrets)
      && (GrantsLive(t) ==> GrantsLive(t'))
  {
    if Import(rules, t, doc, now, overwrite).1.Some? {
      hide Listed, ListedCerts, ImportIssuers, ImportCerts, ImportSecrets, ImportGrants;
      ListedKnown(t);
      IssuersKeep(rules, Issuing(t, Listed(t.issuers), 0, 0), doc.issuers, overwrite);
      var a := Issued(rules, t, doc, overwrite).value;
      ListedKnown(a.t);
      CertsKeep(Certifying(a.t, ListedCerts(a.t.certs), 0, 0), a.known, doc.certs, now, overwrite);
      var c := Certified(a, doc, now, overwrite);
      SecretsKeep(rules, Securing(Granted(a, c, doc), 0), doc.secrets, overwrite);
      var t' := Import(rules, t, doc, now, overwrite).0;
      if GrantsLive(t) {
        forall key | key in t.grants ensures Exists(c.t, key.on) {
          StillExists(t, c.t, key.on);
        }
        GrantsStayLive(c.t, t.grants, a.known, c.known, doc.permissions);
        forall key | key in t'.grants ensures Exists(t', key.on) {
          assert Exists(c.t, key.on);
          StillExists(c.t, t', key.on);
        }
      }
    }
  }

  lemma ListedKnown(t: Tenant)
    ensures KnownIssuers(Listed(t.issuers), t.issuers) && KnownCerts(ListedCerts(t.certs), t.certs)
  {
  }

  lemma StillExists(t: Tenant, t': Tenant, on: Resource)
    requires IssuersKept(t.issuers, t'.issuers) && CertsKept(t.certs, t'.certs) && Exists(t, on)
    ensures Exists(t', on)
  {
    match on
    case OfIssuer(id) =>
      var k :| k in t.issuers && t.issuers[k].id == id;
      assert k in t'.issuers && t'.issuers[k].id == id;
    case OfCertificate(id) =>
      var k :| k in t.certs && t.certs[k].id == id;
      assert k in t'.certs && t'.certs[k].id == id;
  }

  // ------------------------------------------------------------- credentials

  /** An export without credentials holds no credential field and no secret. */
  lemma NoCredentialExported(rules: Rules, t: Tenant, doc: Document)
    requires IsExport(rules, t, false, doc)
    ensures forall d :: d !in doc.secrets
    ensures forall d :: d in doc.issuers ==> d.credentials == map[] && forall f :: f in rules.secret ==> f !in d.settings
  {
    forall d | d in doc.issuers ensures d.credentials == map[] && forall f :: f in rules.secret ==> f !in d.settings {
      assert ExportsIssuer(rules, t, false, d);
    }
  }

  /** Overwriting an issuer from a document without its credentials keeps every stored
      credential, and keeps exactly those when the document's settings hold none. */
  lemma OverwriteKeepsCredentials(rules: Rules, a: Issuing, d: DocIssuer)
    requires d.credentials == map[] && OverwriteIssuer(rules, a, d).Some? && OpenIssuer(a.t.issuers[d.name.low]).Some?
    ensures var stored := Credentials(OpenIssuer(a.t.issuers[d.name.low]).value, rules.secret);
      var row := OverwriteIssuer(rules, a, d).value.t.issuers[d.name.low];
      && OpenIssuer(row).Some?
      && Extends(stored, Credentials(OpenIssuer(row).value, rules.secret))
      && ((forall f :: f in rules.secret ==> f !in d.settings) ==> Credentials(OpenIssuer(row).value, rules.secret) == stored)
  {
  }

  // -------------------------------------------------------------- overwriting

  /** The stored row holds what the document says, sealed under the row's own id. */
  ghost predicate Holds(rules: Rules, row: IssuerRow, d: DocIssuer) {
    && row.kind == d.kind && row.domain == d.domain && row.isDefault == d.isDefault
    && OpenIssuer(row).Some? && Extends(d.credentials, OpenIssuer(row).value)
    && (forall f :: f in d.settings && f !in d.credentials && f !in rules.secret ==>
          f in OpenIssuer(row).value && OpenIssuer(row).value[f] == d.settings[f])
    && row.public == Redacted(OpenIssuer(row).value, rules.secret)
  }

  lemma SealedHolds(rules: Rules, row: IssuerRow, d: DocIssuer, creds: Settings)
    requires row.kind == d.kind && row.domain == d.domain && row.isDefault == d.isDefault && Extends(d.credentials, creds)
    requires forall f :: f in creds ==> f in d.credentials || f in rules.secret
    ensures Holds(rules, SealedRow(rules, row, d.settings + creds), d)
  {
    hide Redacted;
  }

  lemma KeptIsCredentials(rules: Rules, row: IssuerRow, d: DocIssuer)
    ensures var creds := KeptCredentials(rules, row, d);
      Extends(d.credentials, creds) && forall f :: f in creds ==> f in d.credentials || f in rules.secret
  {
  }

  lemma StepHolds(rules: Rules, a: Issuing, d: DocIssuer)
    requires KnownIssuers(a.known, a.t.issuers) && IssuerStep(rules, a, d, true).Some?
    ensures var b := IssuerStep(rules, a, d, true).value;
      && (d.name.low in b.known ==> d.name.low in b.t.issuers && Holds(rules, b.t.issuers[d.name.low], d))
      && (forall k :: k != d.name.low ==> (k in b.known <==> k in a.known) && (k in a.t.issuers <==> k in b.t.issuers))
      && (forall k :: k != d.name.low && k in a.t.issuers ==> b.t.issuers[k] == a.t.issuers[k])
  {
    var low := d.name.low;
    if low in a.known {
      var row := a.t.issuers[low];
      KeptIsCredentials(rules, row, d);
      SealedHolds(rules, row.(kind := d.kind, domain := d.domain, isDefault := d.isDefault), d, KeptCredentials(rules, row, d));
    } else {
      SealedHolds(rules, IssuerRow(a.t.nextId, d.name, d.kind, d.domain, d.isDefault, Nothing, map[]), d, d.credentials);
    }
    hide Holds, SealedRow, KeptCredentials, DefaultClash;
  }

  ghost predicate AllHold(rules: Rules, a: Issuing, ds: seq<DocIssuer>) {
    && KnownIssuers(a.known, a.t.issuers)
    && forall i :: 0 <= i < |ds| && ds[i].name.low in a.known ==> ds[i].name.low in a.t.issuers && Holds(rules, a.t.issuers[ds[i].name.low], ds[i])
  }

  /** After an overwrite every entry that is not skipped is stored as the document says. */
  lemma {:induction false} OverwriteApplies(rules: Rules, a: Issuing, ds: seq<DocIssuer>)
    requires KnownIssuers(a.known, a.t.issuers) && ImportIssuers(rules, a, ds, true).Some?
    requires forall i, k :: 0 <= i < k < |ds| ==> ds[i].name.low != ds[k].name.low
    ensures AllHold(rules, ImportIssuers(rules, a, ds, true).value, ds)
  {
    if ds != [] {
      var n := |ds| - 1;
      OverwriteApplies(rules, a, ds[..n]);
      var m := ImportIssuers(rules, a, ds[..n], true).value;
      IssuerStepKeeps(rules, m, ds[n], true);
      StepHolds(rules, m, ds[n]);
      hide IssuerStep, Holds, KnownIssuers;
      assert forall i :: 0 <= i < n ==> ds[..n][i] == ds[i];
    }
  }

  /** And every certificate of a known issuer has the document's status and chain. */
  lemma {:induction false} OverwriteCerts(a: Certifying, issuers: map<nat, nat>, ds: seq<DocCert>, now: int)
    requires KnownCerts(a.known, a.t.certs)
    requires forall i, k :: 0 <= i < k < |ds| ==> ds[i].serial != ds[k].serial
    ensures var b := ImportCerts(a, issuers, ds, now, true);
      && KnownCerts(b.known, b.t.certs)
      && forall i :: 0 <= i < |ds| && ds[i].issuer.low in issuers && ds[i].serial in b.known ==>
           ds[i].serial in b.t.certs && b.t.certs[ds[i].serial].status == ds[i].status && b.t.certs[ds[i].serial].chain == ds[i].chain
  {
    if ds != [] {
      var n := |ds| - 1;
      OverwriteCerts(a, issuers, ds[..n], now);
      StepWrites(ImportCerts(a, issuers, ds[..n], now, true), issuers, ds[n], now);
      hide CertStep, KnownCerts;
      assert forall i :: 0 <= i < n ==> ds[..n][i] == ds[i];
    }
  }

  lemma StepWrites(a: Certifying, issuers: map<nat, nat>, d: DocCert, now: int)
    requires KnownCerts(a.known, a.t.certs)
    ensures var b := CertStep(a, issuers, d, now, true);
      && KnownCerts(b.known, b.t.certs) && (forall k :: k in b.known ==> k in b.t.certs)
      && (d.issuer.low in issuers && d.serial in b.known ==> b.t.certs[d.serial].status == d.status && b.t.certs[d.serial].chain == d.chain)
      && (forall k :: k != d.serial ==> (k in b.known <==> k in a.known) && (k in b.t.certs <==> k in a.t.certs))
      && (forall k :: k != d.serial && k in a.t.certs ==> b.t.certs[k] == a.t.certs[k])
  {
  }

  /** No later entry has the name of entry i. */
  ghost predicate LastNamed(ds: seq<DocSecret>, i: int) {
    0 <= i < |ds| && forall k :: i < k < |ds| ==> ds[k].name.low != ds[i].name.low
  }

  ghost predicate HoldsSecret(secrets: map<nat, SecretRow>, d: DocSecret) {
    d.name.low in secrets && OpenSecret(secrets[d.name.low]) == d.value && secrets[d.name.low].kind == d.kind
  }

  lemma SecretStepHolds(rules: Rules, a: Securing, d: DocSecret)
    requires SecretStep(rules, a, d, true).Some?
    ensures var b := SecretStep(rules, a, d, true).value;
      && HoldsSecret(b.t.secrets, d) && d.value.Some? && rules.fits(d.value.value)
      && (forall k :: k != d.name.low ==> (k in b.t.secrets <==> k in a.t.secrets) && (k in a.t.secrets ==> b.t.secrets[k] == a.t.secrets[k]))
      && b.created == a.created + (if d.name.low in a.t.secrets then 0 else 1)
  {
  }

  /** After an overwrite every secret the document names opens to the value of its last entry
      there and has its kind. */
  lemma {:induction false} OverwriteSecretStage(rules: Rules, a: Securing, ds: seq<DocSecret>)
    requires ImportSecrets(rules, a, ds, true).Some?
    ensures forall i :: LastNamed(ds, i) ==> HoldsSecret(ImportSecrets(rules, a, ds, true).value.t.secrets, ds[i])
  {
    if ds != [] {
      var n := |ds| - 1;
      var before := ImportSecrets(rules, a, ds[..n], true).value;
      OverwriteSecretStage(rules, a, ds[..n]);
      SecretStepHolds(rules, before, ds[n]);
      hide SecretStep;
      forall i | LastNamed(ds, i) ensures HoldsSecret(ImportSecrets(rules, a, ds, true).value.t.secrets, ds[i]) {
        if i < n {
          assert LastNamed(ds[..n], i) && ds[..n][i] == ds[i] && ds[i].name.low != ds[n].name.low;
        }
      }
    }
  }

  lemma OverwriteSecrets(rules: Rules, t: Tenant, doc: Document, now: int)
    requires Import(rules, t, doc, now, true).1.Some?
    ensures forall i :: LastNamed(doc.secrets, i) ==> HoldsSecret(Import(rules, t, doc, now, true).0.secrets, doc.secrets[i])
  {
    hide ImportSecrets, ImportCerts, ImportIssuers, ImportGrants, Listed, ListedCerts, HoldsSecret, GrantsWritten;
    var a := Issued(rules, t, doc, true).value;
    OverwriteSecretStage(rules, Securing(Granted(a, Certified(a, doc, now, true), doc), 0), doc.secrets);
  }

  // ----------------------------------------------------- overwrite, then skip

  ghost predicate AllSettled(issuers: map<nat, IssuerRow>, ds: seq<DocIssuer>) {
    forall i :: 0 <= i < |ds| ==> Settled(issuers, ds[i])
  }

  /** A skipping step creates nothing exactly when its issuer is settled; then nothing else
      changes either. */
  lemma SkipStepExact(rules: Rules, a: Issuing, d: DocIssuer)
    requires KnownIssuers(a.known, a.t.issuers) && IssuerStep(rules, a, d, false).Some?
    ensures var b := IssuerStep(rules, a, d, false).value;
      && b.created >= a.created
      && (b.created == a.created <==> Settled(a.t.issuers, d))
      && (b.created == a.created ==> b.t == a.t && b.known == a.known)
  {
    hide Redacted;
  }

  /** The issuer stage in skip mode creates nothing exactly when all issuers are settled. */
  lemma {:induction false} SkipStageExact(rules: Rules, a: Issuing, ds: seq<DocIssuer>)
    requires KnownIssuers(a.known, a.t.issuers) && ImportIssuers(rules, a, ds, false).Some?
    ensures var b := ImportIssuers(rules, a, ds, false).value;
      && b.created >= a.created
      && (b.created == a.created <==> AllSettled(a.t.issuers, ds))
      && (b.created == a.created ==> b.t == a.t && b.known == a.known)
  {
    if ds != [] {
      var n := |ds| - 1;
      SkipStageExact(rules, a, ds[..n]);
      IssuersKeep(rules, a, ds[..n], false);
      SkipStepExact(rules, ImportIssuers(rules, a, ds[..n], false).value, ds[n]);
      hide Settled, IssuerStep, KnownIssuers;
      assert forall i :: 0 <= i < n ==> ds[..n][i] == ds[i];
    }
  }

  /** A skip import that succeeds creates no issuer, if and only if the tenant has for every
      issuer of the document its name, or another default for its domain where it is one. */
  lemma SkipCreatesNone(rules: Rules, t: Tenant, doc: Document, now: int)
    requires Import(rules, t, doc, now, false).1.Some?
    ensures Import(rules, t, doc, now, false).1.value.issuersCreated == 0 <==> AllSettled(t.issuers, doc.issuers)
  {
    ListedKnown(t);
    hide Listed, ImportIssuers, ImportCerts, ImportSecrets, ImportGrants, AllSettled;
    SkipStageExact(rules, Issuing(t, Listed(t.issuers), 0, 0), doc.issuers);
  }

  /** After an import in either mode that skipped no issuer, a skip import of the same
      document creates none. */
  lemma SkipAfterComplete(rules: Rules, t: Tenant, doc: Document, now: int, later: int, overwrite: bool)
    requires Import(rules, t, doc, now, overwrite).1.Some? && Import(rules, t, doc, now, overwrite).1.value.issuersSkipped == 0
    ensures var t1 := Import(rules, t, doc, now, overwrite).0;
      var report := Import(rules, t1, doc, later, false).1;
      report.Some? ==> report.value.issuersCreated == 0
  {
    ListedKnown(t);
    IssuersKeep(rules, Issuing(t, Listed(t.issuers), 0, 0), doc.issuers, overwrite);
    var a := Issued(rules, t, doc, overwrite).value;
    ListedKnown(a.t);
    CertsKeep(Certifying(a.t, ListedCerts(a.t.certs), 0, 0), a.known, doc.certs, now, overwrite);
    SecretsKeep(rules, Securing(Granted(a, Certified(a, doc, now, overwrite), doc), 0), doc.secrets, overwrite);
    var t1 := Import(rules, t, doc, now, overwrite).0;
    assert t1.issuers == a.t.issuers;
    if Issued(rules, t1, doc, false).Some? {
      SkipIssuersAgain(rules, Issuing(t1, Listed(t1.issuers), 0, 0), doc.issuers);
    }
  }

  const ANY := Rules({}, (s: Settings) => true)
  const FIRST := DocIssuer(Name(1, "a"), "acme", "d", true, map[], map[])
  const SECOND := DocIssuer(Name(2, "b"), "acme", "d", false, map[], map[])
  const BOTH := Document([FIRST, SECOND], [], [], [])
  const OLD := IssuerRow(0, Name(2, "b"), "acme", "d", true, Nothing, map[])
  const HAS_DEFAULT := Tenant(map[2 := OLD], map[], map[], map[], 1)

  /** One skipped issuer is enough: an overwrite that skips a new default issuer and then
      takes the default away from the old one lets a skip import create it. */
  lemma SkipAfterOverwriteCreates()
    ensures var (t1, first) := Import(ANY, HAS_DEFAULT, BOTH, 0, true);
      && first.Some? && first.value.issuersSkipped == 1
      && var second := Import(ANY, t1, BOTH, 0, false).1;
        second.Some? && second.value.issuersCreated == 1
  {
    var t := HAS_DEFAULT;
    assert BOTH.issuers == [FIRST] + [SECOND] && [FIRST, SECOND][..1] == [FIRST] && [FIRST][..0] == [];
    ListedFew(t.issuers);
    var a0 := Issuing(t, Listed(t.issuers), 0, 0);
    assert t.issuers[2].isDefault;
    var a1 := a0.(skipped := 1);
    assert IssuerStep(ANY, a0, FIRST, true) == Some(a1);
    assert ImportIssuers(ANY, a0, [FIRST], true) == Some(a1);
    var a2 := OverwriteIssuer(ANY, a1, SECOND).value;
    assert ImportIssuers(ANY, a0, BOTH.issuers, true) == Some(a2);
    var t1 := a2.t;
    SkipSecond(t1);
  }

  lemma ListedFew(issuers: map<nat, IssuerRow>)
    requires issuers.Keys == {2}
    ensures Listed(issuers).Keys == {2}
  {
    assert Ahead(issuers, 2) == {};
  }

  lemma SkipSecond(t1: Tenant)
    requires t1.issuers.Keys == {2} && !t1.issuers[2].isDefault
    ensures var second := Import(ANY, t1, BOTH, 0, false).1;
      second.Some? && second.value.issuersCreated == 1
  {
    ListedFew(t1.issuers);
    var b0 := Issuing(t1, Listed(t1.issuers), 0, 0);
    assert !DefaultClash(t1.issuers, 1, true, "d");
    var b1 := IssuerStep(ANY, b0, FIRST, false).value;
    assert [FIRST, SECOND][..1] == [FIRST] && [FIRST][..0] == [];
    assert ImportIssuers(ANY, b0, [FIRST], false) == Some(b1);
    assert ImportIssuers(ANY, b0, BOTH.issuers, false) == IssuerStep(ANY, b1, SECOND, false);
  }
}
