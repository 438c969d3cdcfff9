/** A tenant restored from its own export exports the same document. */
module BackupRoundTrip {
  import opened Common
  import opened Sealed
  import opened Backup
  import opened BackupLaws

  const EMPTY := Tenant(map[], map[], map[], map[], 0)

  // ------------------------------------------------------------ the source

  /** What the store keeps of a tenant that one export holds completely: rows under their
      names, one default issuer per domain, certificates of stored issuers, everything
      sealed under its own id. */
  ghost predicate Exportable(rules: Rules, t: Tenant) {
    && IdsUnique(t) && |t.issuers| <= MAX_ISSUERS && |t.certs| <= MAX_CERTS
    && (forall k :: k in t.issuers ==> t.issuers[k].name.low == k && OpenIssuer(t.issuers[k]).Some?)
    && (forall k :: k in t.issuers ==> rules.fits(ExportIssuer(rules, t.issuers[k], true).settings + ExportIssuer(rules, t.issuers[k], true).credentials))
    && (forall j, k :: j in t.issuers && k in t.issuers && j != k && t.issuers[j].isDefault && t.issuers[k].isDefault ==> t.issuers[j].domain != t.issuers[k].domain)
    && (forall s :: s in t.certs ==> exists k :: k in t.issuers && t.issuers[k].id == t.certs[s].issuer)
    && (forall k :: k in t.secrets ==> t.secrets[k].name.low == k && OpenSecret(t.secrets[k]).Some? && rules.fits(OpenSecret(t.secrets[k]).value))
  }

  lemma AllListed(issuers: map<nat, IssuerRow>, k: nat)
    requires |issuers| <= MAX_ISSUERS && k in issuers
    ensures k in Listed(issuers)
  {
    assert Ahead(issuers, k) <= issuers.Keys - {k};
    SmallerSet(Ahead(issuers, k), issuers.Keys - {k});
  }

  lemma AllCertsListed(certs: map<string, CertRow>, k: string)
    requires |certs| <= MAX_CERTS && k in certs
    ensures k in ListedCerts(certs)
  {
    assert AheadCerts(certs, k) <= certs.Keys - {k};
    SmallerSet(AheadCerts(certs, k), certs.Keys - {k});
  }

  // ------------------------------------------------------------ issuers

  /** What the document's issuers have in common. */
  ghost predicate CleanIssuers(rules: Rules, ds: seq<DocIssuer>) {
    && (forall i, k :: 0 <= i < k < |ds| ==> ds[i].name.low != ds[k].name.low)
    && (forall i, k :: 0 <= i < k < |ds| && ds[i].isDefault && ds[k].isDefault ==> ds[i].domain != ds[k].domain)
    && (forall i :: 0 <= i < |ds| ==> CleanIssuer(rules, ds[i]))
  }

  ghost predicate CleanIssuer(rules: Rules, d: DocIssuer) {
    && rules.fits(d.settings + d.credentials)
    && (forall k :: k in d.settings ==> k !in rules.secret)
    && (forall k :: k in d.credentials ==> k in rules.secret && d.credentials[k] != Text(""))
  }

  lemma ExportedClean(rules: Rules, t: Tenant, doc: Document, i: nat)
    requires Exportable(rules, t) && IsExport(rules, t, true, doc) && i < |doc.issuers|
    ensures CleanIssuer(rules, doc.issuers[i])
    ensures doc.issuers[i].name.low in t.issuers && doc.issuers[i] == ExportIssuer(rules, t.issuers[doc.issuers[i].name.low], true)
  {
    var d := doc.issuers[i];
    assert ExportsIssuer(rules, t, true, d);
    var k :| k in Listed(t.issuers) && d == ExportIssuer(rules, t.issuers[k], true);
    assert d.name.low == k;
  }

  lemma ExportCleanIssuers(rules: Rules, t: Tenant, doc: Document)
    requires Exportable(rules, t) && IsExport(rules, t, true, doc)
    ensures CleanIssuers(rules, doc.issuers)
  {
    hide CleanIssuer, ExportIssuer, ExportsIssuer, ExportsCert, ExportsPermission, ExportsSecret, Listed, IdsUnique;
    forall i | 0 <= i < |doc.issuers| ensures CleanIssuer(rules, doc.issuers[i]) {
      ExportedClean(rules, t, doc, i);
    }
    forall i, k | 0 <= i < k < |doc.issuers| ensures doc.issuers[i].name.low != doc.issuers[k].name.low
    {
      ExportedClean(rules, t, doc, i);
      ExportedClean(rules, t, doc, k);
    }
    forall i, k | 0 <= i < k < |doc.issuers| && doc.issuers[i].isDefault && doc.issuers[k].isDefault ensures doc.issuers[i].domain != doc.issuers[k].domain
    {
      ExportedClean(rules, t, doc, i);
      ExportedClean(rules, t, doc, k);
      SameFields(rules, t.issuers[doc.issuers[i].name.low]);
      SameFields(rules, t.issuers[doc.issuers[k].name.low]);
    }
  }

  lemma SameFields(rules: Rules, row: IssuerRow)
    ensures var d := ExportIssuer(rules, row, true);
      d.name == row.name && d.domain == row.domain && d.isDefault == row.isDefault
  {
  }

  /** The row an import inserts for an issuer of the document. */
  function RestoredRow(rules: Rules, d: DocIssuer, id: nat): IssuerRow {
    SealedRow(rules, IssuerRow(id, d.name, d.kind, d.domain, d.isDefault, Nothing, map[]), d.settings + d.credentials)
  }

  /** A restored row exports as the entry it was restored from. */
  lemma RestoredExports(rules: Rules, d: DocIssuer, id: nat)
    requires CleanIssuer(rules, d)
    ensures ExportIssuer(rules, RestoredRow(rules, d, id), true) == d
  {
    JoinSplits(d.settings, d.credentials, rules.secret);
  }

  /** The keys are the names of the entries. */
  ghost predicate Names(ds: seq<DocIssuer>, keys: set<nat>) {
    && |keys| == |ds|
    && (forall k :: k in keys ==> exists i :: 0 <= i < |ds| && ds[i].name.low == k)
    && (forall i :: 0 <= i < |ds| ==> ds[i].name.low in keys)
  }

  /** Each entry has its row, under the id its name is known by. */
  ghost predicate Rows(rules: Rules, ds: seq<DocIssuer>, issuers: map<nat, IssuerRow>, known: map<nat, nat>) {
    forall i :: 0 <= i < |ds| ==> (
      && ds[i].name.low in issuers && ds[i].name.low in known
      && issuers[ds[i].name.low] == RestoredRow(rules, ds[i], known[ds[i].name.low]))
  }

  /** The issuers restored from a list of entries. */
  ghost predicate IssuersRestored(rules: Rules, ds: seq<DocIssuer>, issuers: map<nat, IssuerRow>, known: map<nat, nat>, nextId: nat) {
    && known.Keys == issuers.Keys && Names(ds, issuers.Keys) && Rows(rules, ds, issuers, known)
    && IssuerIds(issuers, nextId) && KnownIssuers(known, issuers)
  }

  lemma NoClash(rules: Rules, ds: seq<DocIssuer>, d: DocIssuer, issuers: map<nat, IssuerRow>, known: map<nat, nat>)
    requires Names(ds, issuers.Keys) && Rows(rules, ds, issuers, known) && CleanIssuers(rules, ds + [d])
    ensures d.name.low !in issuers && !DefaultClash(issuers, d.name.low, d.isDefault, d.domain)
  {
    hide CleanIssuer, RestoredRow;
    var all := ds + [d];
    forall k | k in issuers ensures k != d.name.low && (d.isDefault && issuers[k].isDefault ==> issuers[k].domain != d.domain) {
      var i :| 0 <= i < |ds| && ds[i].name.low == k;
      assert all[i] == ds[i] && all[|ds|] == d;
      RestoredFields(rules, ds[i], known[k]);
    }
  }

  lemma MoreNames(ds: seq<DocIssuer>, d: DocIssuer, keys: set<nat>)
    requires Names(ds, keys) && d.name.low !in keys
    ensures Names(ds + [d], keys + {d.name.low})
  {
    var all := ds + [d];
    forall k | k in keys + {d.name.low} ensures exists i :: 0 <= i < |all| && all[i].name.low == k {
      if k in keys {
        var i :| 0 <= i < |ds| && ds[i].name.low == k;
        assert all[i].name.low == k;
      } else {
        assert all[|ds|].name.low == k;
      }
    }
  }

  lemma MoreRows(rules: Rules, ds: seq<DocIssuer>, d: DocIssuer, issuers: map<nat, IssuerRow>, known: map<nat, nat>, id: nat)
    requires Rows(rules, ds, issuers, known) && Names(ds, issuers.Keys) && d.name.low !in issuers
    ensures Rows(rules, ds + [d], issuers[d.name.low := RestoredRow(rules, d, id)], known[d.name.low := id])
  {
    hide RestoredRow;
  }

  lemma RestoreOne(rules: Rules, ds: seq<DocIssuer>, d: DocIssuer, issuers: map<nat, IssuerRow>, known: map<nat, nat>, nextId: nat)
    requires IssuersRestored(rules, ds, issuers, known, nextId) && CleanIssuers(rules, ds + [d])
    ensures d.name.low !in issuers && d.name.low !in known && !DefaultClash(issuers, d.name.low, d.isDefault, d.domain)
    ensures IssuersRestored(rules, ds + [d], issuers[d.name.low := RestoredRow(rules, d, nextId)], known[d.name.low := nextId], nextId + 1)
  {
    var row := RestoredRow(rules, d, nextId);
    RestoredFields(rules, d, nextId);
    hide RestoredRow, Names, Rows, CleanIssuers, DefaultClash, IssuerIds, KnownIssuers;
    NoClash(rules, ds, d, issuers, known);
    MoreNames(ds, d, issuers.Keys);
    MoreRows(rules, ds, d, issuers, known, nextId);
    MoreKnown(issuers, known, nextId, d.name.low, row);
    assert issuers[d.name.low := row].Keys == issuers.Keys + {d.name.low};
  }

  lemma MoreKnown(issuers: map<nat, IssuerRow>, known: map<nat, nat>, nextId: nat, low: nat, row: IssuerRow)
    requires IssuerIds(issuers, nextId) && KnownIssuers(known, issuers) && low !in issuers && row.id == nextId
    ensures IssuerIds(issuers[low := row], nextId + 1) && KnownIssuers(known[low := nextId], issuers[low := row])
  {
  }

  lemma RestoredFields(rules: Rules, d: DocIssuer, id: nat)
    ensures var row := RestoredRow(rules, d, id);
      row.id == id && row.name == d.name && row.domain == d.domain && row.isDefault == d.isDefault
  {
  }

  /** The issuer stage after a list of entries, from an empty tenant. */
  ghost predicate IssuerStage(rules: Rules, ds: seq<DocIssuer>, a: Option<Issuing>) {
    && a.Some? && IssuersRestored(rules, ds, a.value.t.issuers, a.value.known, a.value.t.nextId)
    && a.value.t == EMPTY.(issuers := a.value.t.issuers, nextId := a.value.t.nextId)
    && a.value.created == |ds| && a.value.skipped == 0
  }

  lemma NothingRestored(rules: Rules)
    ensures IssuerStage(rules, [], Some(Issuing(EMPTY, map[], 0, 0)))
  {
  }

  lemma InsertClean(rules: Rules, a: Issuing, d: DocIssuer, overwrite: bool)
    requires d.name.low !in a.known && d.name.low !in a.t.issuers && !DefaultClash(a.t.issuers, d.name.low, d.isDefault, d.domain)
    requires rules.fits(d.settings + d.credentials)
    ensures IssuerStep(rules, a, d, overwrite)
      == Some(Issuing(a.t.(issuers := a.t.issuers[d.name.low := RestoredRow(rules, d, a.t.nextId)], nextId := a.t.nextId + 1),
                      a.known[d.name.low := a.t.nextId], a.created + 1, a.skipped))
  {
    hide DefaultClash, Redacted;
  }

  lemma LastFits(rules: Rules, ds: seq<DocIssuer>, d: DocIssuer)
    requires CleanIssuers(rules, ds + [d])
    ensures rules.fits(d.settings + d.credentials)
  {
    assert (ds + [d])[|ds|] == d;
    assert CleanIssuer(rules, d);
  }

  lemma IssuerStageStep(rules: Rules, ds: seq<DocIssuer>, a: Option<Issuing>, d: DocIssuer, overwrite: bool)
    requires IssuerStage(rules, ds, a) && CleanIssuers(rules, ds + [d])
    ensures a.Some? && IssuerStage(rules, ds + [d], IssuerStep(rules, a.value, d, overwrite))
  {
    hide IssuersRestored, CleanIssuers, DefaultClash, RestoredRow, IssuerStep;
    LastFits(rules, ds, d);
    RestoreOne(rules, ds, d, a.value.t.issuers, a.value.known, a.value.t.nextId);
    InsertClean(rules, a.value, d, overwrite);
  }

  lemma CleanIssuersPrefix(rules: Rules, ds: seq<DocIssuer>)
    requires CleanIssuers(rules, ds) && ds != []
    ensures CleanIssuers(rules, ds[..|ds| - 1])
  {
    hide CleanIssuer;
  }

  /** Restoring into an empty tenant inserts every issuer. */
  lemma {:induction false} RestoreIssuers(rules: Rules, ds: seq<DocIssuer>, overwrite: bool)
    requires CleanIssuers(rules, ds)
    ensures IssuerStage(rules, ds, ImportIssuers(rules, Issuing(EMPTY, map[], 0, 0), ds, overwrite))
  {
    hide IssuerStage, CleanIssuers, IssuerStep;
    if ds == [] {
      NothingRestored(rules);
    } else {
      var n := |ds| - 1;
      CleanIssuersPrefix(rules, ds);
      RestoreIssuers(rules, ds[..n], overwrite);
      assert ds == ds[..n] + [ds[n]];
      IssuerStageStep(rules, ds[..n], ImportIssuers(rules, Issuing(EMPTY, map[], 0, 0), ds[..n], overwrite), ds[n], overwrite);
    }
  }

  // ------------------------------------------------------------ certificates

  ghost predicate CleanCerts(ds: seq<DocCert>, issuers: map<nat, nat>) {
    && (forall i, k :: 0 <= i < k < |ds| ==> ds[i].serial != ds[k].serial)
    && (forall i :: 0 <= i < |ds| ==> ds[i].issuer.low in issuers)
  }

  ghost predicate Serials(ds: seq<DocCert>, keys: set<string>) {
    && |keys| == |ds|
    && (forall k :: k in keys ==> exists i :: 0 <= i < |ds| && ds[i].serial == k)
    && (forall i :: 0 <= i < |ds| ==> ds[i].serial in keys)
  }

  ghost predicate CertRows(ds: seq<DocCert>, issuers: map<nat, nat>, certs: map<string, CertRow>) {
    forall i :: 0 <= i < |ds| ==> (
      && ds[i].serial in certs && ds[i].issuer.low in issuers
      && certs[ds[i].serial].issuer == issuers[ds[i].issuer.low]
      && certs[ds[i].serial].info == ds[i].info && certs[ds[i].serial].status == ds[i].status && certs[ds[i].serial].chain == ds[i].chain)
  }

  ghost predicate CertsRestored(ds: seq<DocCert>, issuers: map<nat, nat>, certs: map<string, CertRow>, known: map<string, nat>, nextId: nat) {
    && known.Keys == certs.Keys && Serials(ds, certs.Keys) && CertRows(ds, issuers, certs)
    && CertIds(certs, nextId) && KnownCerts(known, certs)
  }

  lemma MoreSerials(ds: seq<DocCert>, d: DocCert, keys: set<string>)
    requires Serials(ds, keys) && d.serial !in keys
    ensures Serials(ds + [d], keys + {d.serial})
  {
    var all := ds + [d];
    forall k | k in keys + {d.serial} ensures exists i :: 0 <= i < |all| && all[i].serial == k {
      if k in keys {
        var i :| 0 <= i < |ds| && ds[i].serial == k;
        assert all[i].serial == k;
      } else {
        assert all[|ds|].serial == k;
      }
    }
  }

  lemma MoreKnownCerts(certs: map<string, CertRow>, known: map<string, nat>, nextId: nat, serial: string, row: CertRow)
    requires CertIds(certs, nextId) && KnownCerts(known, certs) && serial !in certs && row.id == nextId
    ensures CertIds(certs[serial := row], nextId + 1) && KnownCerts(known[serial := nextId], certs[serial := row])
  {
  }

  lemma SerialFresh(ds: seq<DocCert>, d: DocCert, issuers: map<nat, nat>, keys: set<string>)
    requires Serials(ds, keys) && CleanCerts(ds + [d], issuers)
    ensures d.serial !in keys && d.issuer.low in issuers && CleanCerts(ds, issuers)
  {
    var all := ds + [d];
    assert all[|ds|] == d && forall i :: 0 <= i < |ds| ==> all[i] == ds[i];
  }

  lemma MoreCertRows(ds: seq<DocCert>, d: DocCert, issuers: map<nat, nat>, certs: map<string, CertRow>, row: CertRow)
    requires CertRows(ds, issuers, certs) && Serials(ds, certs.Keys) && d.serial !in certs && d.issuer.low in issuers
    requires row.issuer == issuers[d.issuer.low] && row.info == d.info && row.status == d.status && row.chain == d.chain
    ensures CertRows(ds + [d], issuers, certs[d.serial := row])
  {
  }

  lemma RestoreCert(ds: seq<DocCert>, d: DocCert, issuers: map<nat, nat>, certs: map<string, CertRow>, known: map<string, nat>, nextId: nat, now: int)
    requires CertsRestored(ds, issuers, certs, known, nextId) && CleanCerts(ds + [d], issuers)
    ensures d.serial !in known && d.serial !in certs && d.issuer.low in issuers
    ensures CertsRestored(ds + [d], issuers, certs[d.serial := CertRow(nextId, issuers[d.issuer.low], now, d.info, d.status, d.chain)],
                          known[d.serial := nextId], nextId + 1)
  {
    hide Serials, CertRows, CleanCerts, CertIds, KnownCerts;
    SerialFresh(ds, d, issuers, certs.Keys);
    var row := CertRow(nextId, issuers[d.issuer.low], now, d.info, d.status, d.chain);
    MoreSerials(ds, d, certs.Keys);
    MoreCertRows(ds, d, issuers, certs, row);
    MoreKnownCerts(certs, known, nextId, d.serial, row);
    assert certs[d.serial := row].Keys == certs.Keys + {d.serial};
  }

  lemma CleanPrefix(ds: seq<DocCert>, issuers: map<nat, nat>)
    requires CleanCerts(ds, issuers) && ds != []
    ensures CleanCerts(ds[..|ds| - 1], issuers)
  {
  }

  /** The certificate stage after a list of entries, from tenant t. */
  ghost predicate CertStage(t: Tenant, issuers: map<nat, nat>, ds: seq<DocCert>, a: Certifying) {
    && CertsRestored(ds, issuers, a.t.certs, a.known, a.t.nextId)
    && a.t == t.(certs := a.t.certs, nextId := a.t.nextId)
    && a.created == |ds| && a.skipped == 0
  }

  lemma CertStageStep(t: Tenant, issuers: map<nat, nat>, ds: seq<DocCert>, a: Certifying, d: DocCert, now: int, overwrite: bool)
    requires CertStage(t, issuers, ds, a) && CleanCerts(ds + [d], issuers)
    ensures CertStage(t, issuers, ds + [d], CertStep(a, issuers, d, now, overwrite))
  {
    hide CertsRestored, CleanCerts;
    RestoreCert(ds, d, issuers, a.t.certs, a.known, a.t.nextId, now);
  }

  lemma NoCertsRestored(t: Tenant, issuers: map<nat, nat>)
    requires t.certs == map[]
    ensures CertStage(t, issuers, [], Certifying(t, map[], 0, 0))
  {
  }

  lemma {:induction false} RestoreCerts(t: Tenant, issuers: map<nat, nat>, ds: seq<DocCert>, now: int, overwrite: bool)
    requires t.certs == map[] && CleanCerts(ds, issuers)
    ensures CertStage(t, issuers, ds, ImportCerts(Certifying(t, map[], 0, 0), issuers, ds, now, overwrite))
  {
    hide CertStage, CleanCerts, CertStep;
    if ds == [] {
      NoCertsRestored(t, issuers);
    } else {
      var n := |ds| - 1;
      CleanPrefix(ds, issuers);
      RestoreCerts(t, issuers, ds[..n], now, overwrite);
      assert ds == ds[..n] + [ds[n]];
      CertStageStep(t, issuers, ds[..n], ImportCerts(Certifying(t, map[], 0, 0), issuers, ds[..n], now, overwrite), ds[n], now, overwrite);
    }
  }

  // ------------------------------------------------------------ secrets

  ghost predicate CleanSecrets(rules: Rules, ds: seq<DocSecret>) {
    && (forall i, k :: 0 <= i < k < |ds| ==> ds[i].name.low != ds[k].name.low)
    && (forall i :: 0 <= i < |ds| ==> ds[i].value.Some? && rules.fits(ds[i].value.value))
  }

  ghost predicate SecretsRestored(ds: seq<DocSecret>, secrets: map<nat, SecretRow>) {
    && (forall k :: k in secrets ==> exists i :: 0 <= i < |ds| && ds[i].name.low == k)
    && (forall i :: 0 <= i < |ds| ==> (
          && ds[i].name.low in secrets
          && ds[i] == DocSecret(secrets[ds[i].name.low].name, secrets[ds[i].name.low].kind, OpenSecret(secrets[ds[i].name.low]))))
  }

  lemma RestoreSecret(ds: seq<DocSecret>, d: DocSecret, secrets: map<nat, SecretRow>, id: nat)
    requires SecretsRestored(ds, secrets) && d.value.Some? && d.name.low !in secrets
    ensures SecretsRestored(ds + [d], secrets[d.name.low := SecretRow(id, d.name, d.kind, Blob(d.value.value, id))])
  {
    var all := ds + [d];
    var secrets' := secrets[d.name.low := SecretRow(id, d.name, d.kind, Blob(d.value.value, id))];
    forall k | k in secrets' ensures exists i :: 0 <= i < |all| && all[i].name.low == k {
      if k in secrets {
        var i :| 0 <= i < |ds| && ds[i].name.low == k;
        assert all[i].name.low == k;
      } else {
        assert all[|ds|].name.low == k;
      }
    }
  }

  /** The secret stage after a list of entries, from tenant t. */
  ghost predicate SecretStage(t: Tenant, ds: seq<DocSecret>, a: Option<Securing>) {
    && a.Some? && SecretsRestored(ds, a.value.t.secrets) && a.value.created == |ds|
    && a.value.t == t.(secrets := a.value.t.secrets, nextId := a.value.t.nextId)
  }

  lemma SecretStageStep(rules: Rules, t: Tenant, ds: seq<DocSecret>, a: Option<Securing>, d: DocSecret, overwrite: bool)
    requires SecretStage(t, ds, a) && CleanSecrets(rules, ds + [d])
    ensures a.Some? && SecretStage(t, ds + [d], SecretStep(rules, a.value, d, overwrite))
  {
    var all := ds + [d];
    assert all[|ds|] == d && forall i :: 0 <= i < |ds| ==> all[i] == ds[i];
    assert d.name.low !in a.value.t.secrets;
    hide SecretsRestored;
    RestoreSecret(ds, d, a.value.t.secrets, a.value.t.nextId);
  }

  lemma {:induction false} RestoreSecrets(rules: Rules, t: Tenant, ds: seq<DocSecret>, overwrite: bool)
    requires t.secrets == map[] && CleanSecrets(rules, ds)
    ensures SecretStage(t, ds, ImportSecrets(rules, Securing(t, 0), ds, overwrite))
  {
    if ds != [] {
      var n := |ds| - 1;
      assert ds == ds[..n] + [ds[n]];
      assert CleanSecrets(rules, ds[..n]);
      hide SecretStage, CleanSecrets, SecretStep;
      RestoreSecrets(rules, t, ds[..n], overwrite);
      SecretStageStep(rules, t, ds[..n], ImportSecrets(rules, Securing(t, 0), ds[..n], overwrite), ds[n], overwrite);
    }
  }

  // ------------------------------------------------- the restored tenant matches

  /** The restored tenant t' against its source t: the same issuer names and serials, the
      same fields, and each certificate under the issuer of the same name. */
  ghost predicate Mirrors(t: Tenant, t': Tenant) {
    && t'.issuers.Keys == t.issuers.Keys && t'.certs.Keys == t.certs.Keys
    && (forall k :: k in t.issuers ==> t'.issuers[k].name == t.issuers[k].name)
    && (forall s :: s in t.certs ==> t'.certs[s].info == t.certs[s].info && t'.certs[s].status == t.certs[s].status && t'.certs[s].chain == t.certs[s].chain)
    && (forall s, k :: s in t.certs && k in t.issuers && t.issuers[k].id == t.certs[s].issuer ==> t'.issuers[k].id == t'.certs[s].issuer)
  }

  /** Every issuer of the source has its entry. */
  lemma IssuerEntry(rules: Rules, t: Tenant, doc: Document, k: nat) returns (i: nat)
    requires Exportable(rules, t) && IsExport(rules, t, true, doc) && k in t.issuers
    ensures i < |doc.issuers| && doc.issuers[i] == ExportIssuer(rules, t.issuers[k], true) && doc.issuers[i].name == t.issuers[k].name
  {
    AllListed(t.issuers, k);
    var d := ExportIssuer(rules, t.issuers[k], true);
    assert ExportsIssuer(rules, t, true, d);
    i :| 0 <= i < |doc.issuers| && doc.issuers[i] == d;
  }

  /** The name a certificate's issuer is exported under. */
  lemma NameIs(t: Tenant, id: nat, name: Name, k: nat)
    requires IssuerIds(t.issuers, t.nextId) && |t.issuers| <= MAX_ISSUERS && k in t.issuers && t.issuers[k].id == id
    ensures NameOf(t, id, name) <==> name == t.issuers[k].name
  {
    AllListed(t.issuers, k);
  }

  lemma CertEntry(rules: Rules, t: Tenant, d: DocCert, k: nat)
    requires Exportable(rules, t) && d.serial in t.certs && k in t.issuers && t.issuers[k].id == t.certs[d.serial].issuer
    ensures ExportsCert(t, d) <==> d == DocCert(d.serial, t.issuers[k].name, t.certs[d.serial].info, t.certs[d.serial].status, t.certs[d.serial].chain)
  {
    AllCertsListed(t.certs, d.serial);
    NameIs(t, t.certs[d.serial].issuer, d.issuer, k);
  }

  /** Rows under their names, few enough to be listed completely, ids unique. */
  ghost predicate Keyed(t: Tenant) {
    && IdsUnique(t) && |t.issuers| <= MAX_ISSUERS && |t.certs| <= MAX_CERTS
    && forall k :: k in t.issuers ==> t.issuers[k].name.low == k
  }

  /** The key a permission's grant has in a tenant. */
  function KeyIn(t: Tenant, d: DocPermission): Option<GrantKey> {
    match d.on
    case IssuerRef(name) =>
      if name.low in t.issuers && t.issuers[name.low].name == name
      then Some(GrantKey(OfIssuer(t.issuers[name.low].id), d.subjectType, d.subject)) else None
    case CertRef(serial) =>
      if serial in t.certs then Some(GrantKey(OfCertificate(t.certs[serial].id), d.subjectType, d.subject)) else None
  }

  lemma PermissionEntry(t: Tenant, d: DocPermission)
    requires Keyed(t)
    ensures ExportsPermission(t, d) <==> KeyIn(t, d).Some? && KeyIn(t, d).value in t.grants && t.grants[KeyIn(t, d).value] == d.value
  {
    match d.on
    case IssuerRef(name) =>
      if name.low in t.issuers {
        AllListed(t.issuers, name.low);
      }
    case CertRef(serial) =>
      if serial in t.certs {
        AllCertsListed(t.certs, serial);
      }
  }

  /** Permissions of one key in a tenant are on one reference. */
  lemma OneReference(t: Tenant, d: DocPermission, e: DocPermission)
    requires Keyed(t) && KeyIn(t, d).Some? && KeyIn(t, d) == KeyIn(t, e)
    ensures d.on == e.on && d.subjectType == e.subjectType && d.subject == e.subject
  {
  }

  /** In the restored tenant a permission of the document resolves to its key. */
  lemma ResolvesToKey(t: Tenant, t': Tenant, issuers: map<nat, nat>, certs: map<string, nat>, d: DocPermission)
    requires Mirrors(t, t') && issuers.Keys == t'.issuers.Keys && certs.Keys == t'.certs.Keys
    requires KnownIssuers(issuers, t'.issuers) && KnownCerts(certs, t'.certs) && KeyIn(t, d).Some?
    ensures KeyIn(t', d).Some? && KeyOf(d, issuers, certs) == KeyIn(t', d)
  {
  }

  lemma {:induction false} LastForIn(key: GrantKey, issuers: map<nat, nat>, certs: map<string, nat>, ds: seq<DocPermission>) returns (i: nat)
    requires LastFor(key, issuers, certs, ds).Some?
    ensures i < |ds| && KeyOf(ds[i], issuers, certs) == Some(key) && LastFor(key, issuers, certs, ds) == Some(ds[i].value)
  {
    if KeyOf(ds[|ds| - 1], issuers, certs) == Some(key) {
      i := |ds| - 1;
    } else {
      i := LastForIn(key, issuers, certs, ds[..|ds| - 1]);
    }
  }

  lemma {:induction false} LastForSome(key: GrantKey, issuers: map<nat, nat>, certs: map<string, nat>, ds: seq<DocPermission>, i: nat)
    requires i < |ds| && KeyOf(ds[i], issuers, certs) == Some(key)
    ensures LastFor(key, issuers, certs, ds).Some?
  {
    if i < |ds| - 1 {
      LastForSome(key, issuers, certs, ds[..|ds| - 1], i);
    }
  }

  /** The permissions of the document as grants of the source. */
  ghost predicate OfSource(t: Tenant, ds: seq<DocPermission>) {
    forall d :: d in ds <==> KeyIn(t, d).Some? && KeyIn(t, d).value in t.grants && t.grants[KeyIn(t, d).value] == d.value
  }

  lemma PermissionsRestored(t: Tenant, t': Tenant, issuers: map<nat, nat>, certs: map<string, nat>, ds: seq<DocPermission>, d: DocPermission)
    requires Keyed(t) && Keyed(t') && Mirrors(t, t') && OfSource(t, ds)
    requires issuers.Keys == t'.issuers.Keys && certs.Keys == t'.certs.Keys
    requires KnownIssuers(issuers, t'.issuers) && KnownCerts(certs, t'.certs)
    requires t'.grants == ImportGrants(map[], issuers, certs, ds)
    ensures d in ds <==> KeyIn(t', d).Some? && KeyIn(t', d).value in t'.grants && t'.grants[KeyIn(t', d).value] == d.value
  {
    hide Keyed, Mirrors, ImportGrants, KeyOf, LastFor, KnownIssuers, KnownCerts;
    if d in ds {
      var i :| 0 <= i < |ds| && ds[i] == d;
      ResolvesToKey(t, t', issuers, certs, d);
      var key := KeyIn(t', d).value;
      LastForSome(key, issuers, certs, ds, i);
      var j := LastForIn(key, issuers, certs, ds);
      assert ds[j] in ds;
      ResolvesToKey(t, t', issuers, certs, ds[j]);
      OneReference(t', d, ds[j]);
      GrantsAre(map[], issuers, certs, ds, key);
    }
    if KeyIn(t', d).Some? && KeyIn(t', d).value in t'.grants && t'.grants[KeyIn(t', d).value] == d.value {
      var key := KeyIn(t', d).value;
      GrantsAre(map[], issuers, certs, ds, key);
      var j := LastForIn(key, issuers, certs, ds);
      assert ds[j] in ds;
      ResolvesToKey(t, t', issuers, certs, ds[j]);
      OneReference(t', d, ds[j]);
      assert ds[j] == d;
    }
  }

  // ------------------------------------------------------------- the round trip

  lemma SameNames(rules: Rules, t: Tenant, doc: Document, keys: set<nat>)
    requires Exportable(rules, t) && IsExport(rules, t, true, doc) && Names(doc.issuers, keys)
    ensures keys == t.issuers.Keys
  {
    assert forall k :: k in t.issuers ==> t.issuers[k].name.low == k;
    hide Exportable, IsExport, ExportIssuer;
    forall k | k in keys ensures k in t.issuers {
      var i :| 0 <= i < |doc.issuers| && doc.issuers[i].name.low == k;
      ExportedClean(rules, t, doc, i);
    }
    forall k | k in t.issuers ensures k in keys {
      var i := IssuerEntry(rules, t, doc, k);
    }
  }

  lemma SameName(rules: Rules, t: Tenant, doc: Document, issuers: map<nat, IssuerRow>, known: map<nat, nat>, k: nat)
    requires Exportable(rules, t) && IsExport(rules, t, true, doc) && Rows(rules, doc.issuers, issuers, known) && k in t.issuers
    ensures k in issuers && issuers[k].name == t.issuers[k].name
  {
    assert t.issuers[k].name.low == k;
    hide Exportable, IsExport, ExportIssuer, RestoredRow;
    var i := IssuerEntry(rules, t, doc, k);
    RestoredFields(rules, doc.issuers[i], known[doc.issuers[i].name.low]);
  }

  /** The restored issuers have the source's names. */
  lemma SameIssuers(rules: Rules, t: Tenant, doc: Document, issuers: map<nat, IssuerRow>, known: map<nat, nat>, nextId: nat)
    requires Exportable(rules, t) && IsExport(rules, t, true, doc) && IssuersRestored(rules, doc.issuers, issuers, known, nextId)
    ensures issuers.Keys == t.issuers.Keys && forall k :: k in t.issuers ==> issuers[k].name == t.issuers[k].name
  {
    hide Exportable, IsExport, Names, Rows, IssuerIds, KnownIssuers;
    SameNames(rules, t, doc, issuers.Keys);
    forall k | k in t.issuers ensures issuers[k].name == t.issuers[k].name {
      SameName(rules, t, doc, issuers, known, k);
    }
  }

  /** Each certificate entry names a stored issuer. */
  lemma CertOf(rules: Rules, t: Tenant, doc: Document, d: DocCert) returns (k: nat)
    requires Exportable(rules, t) && IsExport(rules, t, true, doc) && d in doc.certs
    ensures d.serial in t.certs && k in t.issuers && t.issuers[k].id == t.certs[d.serial].issuer && d.issuer.low == k
    ensures d == DocCert(d.serial, t.issuers[k].name, t.certs[d.serial].info, t.certs[d.serial].status, t.certs[d.serial].chain)
  {
    assert ExportsCert(t, d);
    k :| k in t.issuers && t.issuers[k].id == t.certs[d.serial].issuer;
    CertEntry(rules, t, d, k);
  }

  lemma ExportCleanCerts(rules: Rules, t: Tenant, doc: Document, known: map<nat, nat>)
    requires Exportable(rules, t) && IsExport(rules, t, true, doc) && known.Keys == t.issuers.Keys
    ensures CleanCerts(doc.certs, known)
  {
    hide Exportable;
    forall i | 0 <= i < |doc.certs| ensures doc.certs[i].issuer.low in known {
      var k := CertOf(rules, t, doc, doc.certs[i]);
    }
    forall i, j | 0 <= i < j < |doc.certs| ensures doc.certs[i].serial != doc.certs[j].serial {
      CertDetermined(rules, t, doc, i, j);
    }
  }

  lemma CertDetermined(rules: Rules, t: Tenant, doc: Document, i: nat, j: nat)
    requires Exportable(rules, t) && IsExport(rules, t, true, doc) && i < j < |doc.certs|
    ensures doc.certs[i].serial != doc.certs[j].serial
  {
    assert doc.certs[i] != doc.certs[j];
    assert IssuerIds(t.issuers, t.nextId);
    var k := CertOf(rules, t, doc, doc.certs[i]);
    var m := CertOf(rules, t, doc, doc.certs[j]);
  }

  lemma CertFor(rules: Rules, t: Tenant, doc: Document, s: string) returns (i: nat, k: nat)
    requires Exportable(rules, t) && IsExport(rules, t, true, doc) && s in t.certs
    ensures i < |doc.certs| && doc.certs[i].serial == s && k in t.issuers && t.issuers[k].id == t.certs[s].issuer
    ensures doc.certs[i] == DocCert(s, t.issuers[k].name, t.certs[s].info, t.certs[s].status, t.certs[s].chain)
  {
    k :| k in t.issuers && t.issuers[k].id == t.certs[s].issuer;
    var d := DocCert(s, t.issuers[k].name, t.certs[s].info, t.certs[s].status, t.certs[s].chain);
    CertEntry(rules, t, d, k);
    i :| 0 <= i < |doc.certs| && doc.certs[i] == d;
  }

  lemma SameSerials(rules: Rules, t: Tenant, doc: Document, keys: set<string>)
    requires Exportable(rules, t) && IsExport(rules, t, true, doc) && Serials(doc.certs, keys)
    ensures keys == t.certs.Keys
  {
    hide Exportable, IsExport;
    forall s | s in keys ensures s in t.certs {
      var i :| 0 <= i < |doc.certs| && doc.certs[i].serial == s;
      var k := CertOf(rules, t, doc, doc.certs[i]);
    }
    forall s | s in t.certs ensures s in keys {
      var i, k := CertFor(rules, t, doc, s);
    }
  }

  lemma SameCert(rules: Rules, t: Tenant, doc: Document, certs: map<string, CertRow>, issuers: map<nat, nat>, s: string, k: nat)
    requires Exportable(rules, t) && IsExport(rules, t, true, doc) && CertRows(doc.certs, issuers, certs)
    requires s in t.certs && k in t.issuers && t.issuers[k].id == t.certs[s].issuer
    ensures s in certs && certs[s].info == t.certs[s].info && certs[s].status == t.certs[s].status && certs[s].chain == t.certs[s].chain
    ensures k in issuers && certs[s].issuer == issuers[k]
  {
    assert IssuerIds(t.issuers, t.nextId) && t.issuers[k].name.low == k;
    hide Exportable, IsExport;
    var i, m := CertFor(rules, t, doc, s);
  }

  lemma SameCerts(rules: Rules, t: Tenant, doc: Document, t': Tenant, issuers: map<nat, nat>, known: map<string, nat>)
    requires Exportable(rules, t) && IsExport(rules, t, true, doc)
    requires t'.issuers.Keys == t.issuers.Keys && issuers.Keys == t.issuers.Keys && KnownIssuers(issuers, t'.issuers)
    requires forall k :: k in t.issuers ==> t'.issuers[k].name == t.issuers[k].name
    requires CertsRestored(doc.certs, issuers, t'.certs, known, t'.nextId)
    ensures Mirrors(t, t')
  {
    hide Exportable, IsExport, CertIds, KnownCerts, CertRows, Serials;
    SameSerials(rules, t, doc, t'.certs.Keys);
    forall s | s in t.certs
      ensures t'.certs[s].info == t.certs[s].info && t'.certs[s].status == t.certs[s].status && t'.certs[s].chain == t.certs[s].chain
    {
      var i, k := CertFor(rules, t, doc, s);
      SameCert(rules, t, doc, t'.certs, issuers, s, k);
    }
    forall s, k | s in t.certs && k in t.issuers && t.issuers[k].id == t.certs[s].issuer ensures t'.issuers[k].id == t'.certs[s].issuer {
      SameCert(rules, t, doc, t'.certs, issuers, s, k);
    }
  }

  lemma ExportCleanSecrets(rules: Rules, t: Tenant, doc: Document)
    requires Exportable(rules, t) && IsExport(rules, t, true, doc)
    ensures CleanSecrets(rules, doc.secrets)
  {
    forall i | 0 <= i < |doc.secrets| ensures doc.secrets[i].value.Some? && rules.fits(doc.secrets[i].value.value) {
      var k := SecretOf(rules, t, doc, i);
    }
    forall i, j | 0 <= i < j < |doc.secrets| ensures doc.secrets[i].name.low != doc.secrets[j].name.low {
      var k := SecretOf(rules, t, doc, i);
      var m := SecretOf(rules, t, doc, j);
      assert doc.secrets[i] != doc.secrets[j];
    }
  }

  lemma SecretOf(rules: Rules, t: Tenant, doc: Document, i: nat) returns (k: nat)
    requires Exportable(rules, t) && IsExport(rules, t, true, doc) && i < |doc.secrets|
    ensures k in t.secrets && doc.secrets[i] == DocSecret(t.secrets[k].name, t.secrets[k].kind, OpenSecret(t.secrets[k]))
    ensures doc.secrets[i].name.low == k && doc.secrets[i].value.Some? && rules.fits(doc.secrets[i].value.value)
  {
    assert ExportsSecret(t, doc.secrets[i]);
    k :| k in t.secrets && doc.secrets[i] == DocSecret(t.secrets[k].name, t.secrets[k].kind, OpenSecret(t.secrets[k]));
  }

  // Each part of the document is exported by the restored tenant.

  lemma IssuersExported(rules: Rules, ds: seq<DocIssuer>, t': Tenant, known: map<nat, nat>, d: DocIssuer)
    requires IssuersRestored(rules, ds, t'.issuers, known, t'.nextId) && CleanIssuers(rules, ds) && |ds| <= MAX_ISSUERS
    ensures d in ds <==> ExportsIssuer(rules, t', true, d)
  {
    hide CleanIssuer, RestoredRow, ExportIssuer, IssuerIds, KnownIssuers;
    if d in ds {
      var i :| 0 <= i < |ds| && ds[i] == d;
      AllListed(t'.issuers, d.name.low);
      RestoredExports(rules, d, known[d.name.low]);
    }
    if ExportsIssuer(rules, t', true, d) {
      var k :| k in Listed(t'.issuers) && d == ExportIssuer(rules, t'.issuers[k], true);
      var i :| 0 <= i < |ds| && ds[i].name.low == k;
      RestoredExports(rules, ds[i], known[k]);
    }
  }

  lemma CertsExported(rules: Rules, t: Tenant, t': Tenant, d: DocCert)
    requires Exportable(rules, t) && Keyed(t') && Mirrors(t, t')
    ensures ExportsCert(t, d) <==> ExportsCert(t', d)
  {
    if d.serial in t.certs {
      var k :| k in t.issuers && t.issuers[k].id == t.certs[d.serial].issuer;
      AllCertsListed(t.certs, d.serial);
      AllCertsListed(t'.certs, d.serial);
      NameIs(t, t.certs[d.serial].issuer, d.issuer, k);
      NameIs(t', t'.certs[d.serial].issuer, d.issuer, k);
    }
  }

  lemma SecretsExported(ds: seq<DocSecret>, t': Tenant, d: DocSecret)
    requires SecretsRestored(ds, t'.secrets)
    ensures d in ds <==> ExportsSecret(t', d)
  {
  }

  /** The restored tenant: what the stages leave. */
  ghost predicate RestoredFrom(rules: Rules, doc: Document, t': Tenant, issuers: map<nat, nat>, certs: map<string, nat>) {
    && IssuersRestored(rules, doc.issuers, t'.issuers, issuers, t'.nextId)
    && CertsRestored(doc.certs, issuers, t'.certs, certs, t'.nextId)
    && t'.grants == ImportGrants(map[], issuers, certs, doc.permissions)
    && SecretsRestored(doc.secrets, t'.secrets)
  }

  lemma MoreIdsRestored(rules: Rules, ds: seq<DocIssuer>, issuers: map<nat, IssuerRow>, known: map<nat, nat>, nextId: nat, more: nat)
    requires IssuersRestored(rules, ds, issuers, known, nextId) && nextId <= more
    ensures IssuersRestored(rules, ds, issuers, known, more)
  {
  }

  lemma MoreCertIdsRestored(ds: seq<DocCert>, issuers: map<nat, nat>, certs: map<string, CertRow>, known: map<string, nat>, nextId: nat, more: nat)
    requires CertsRestored(ds, issuers, certs, known, nextId) && nextId <= more
    ensures CertsRestored(ds, issuers, certs, known, more)
  {
  }

  lemma RestoredSizes(rules: Rules, doc: Document, t': Tenant, issuers: map<nat, nat>, certs: map<string, nat>)
    requires WithinLimits(doc) && RestoredFrom(rules, doc, t', issuers, certs)
    ensures |t'.issuers| <= MAX_ISSUERS && |t'.certs| <= MAX_CERTS && IdsUnique(t')
    ensures issuers.Keys == t'.issuers.Keys && certs.Keys == t'.certs.Keys
    ensures KnownIssuers(issuers, t'.issuers) && KnownCerts(certs, t'.certs)
  {
    hide Rows, CertRows, IssuerIds, CertIds, KnownIssuers, KnownCerts, SecretsRestored, ImportGrants;
    assert |t'.issuers| == |t'.issuers.Keys| && |t'.certs| == |t'.certs.Keys|;
  }

  lemma KeyedLike(t: Tenant, t': Tenant)
    requires Keyed(t) && IdsUnique(t') && |t'.issuers| <= MAX_ISSUERS && |t'.certs| <= MAX_CERTS
    requires t'.issuers.Keys == t.issuers.Keys && forall k :: k in t.issuers ==> t'.issuers[k].name == t.issuers[k].name
    ensures Keyed(t')
  {
    hide IdsUnique;
  }

  lemma RestoredMirrors(rules: Rules, t: Tenant, doc: Document, t': Tenant, issuers: map<nat, nat>, certs: map<string, nat>)
    requires Exportable(rules, t) && IsExport(rules, t, true, doc) && WithinLimits(doc) && RestoredFrom(rules, doc, t', issuers, certs)
    ensures Mirrors(t, t') && Keyed(t') && issuers.Keys == t'.issuers.Keys && certs.Keys == t'.certs.Keys
    ensures KnownIssuers(issuers, t'.issuers) && KnownCerts(certs, t'.certs)
  {
    assert Keyed(t);
    hide Exportable, IsExport, IssuersRestored, CertsRestored, SecretsRestored, ImportGrants, IdsUnique, KnownIssuers, KnownCerts, Mirrors, Keyed;
    RestoredSizes(rules, doc, t', issuers, certs);
    SameIssuers(rules, t, doc, t'.issuers, issuers, t'.nextId);
    KeyedLike(t, t');
    SameCerts(rules, t, doc, t', issuers, certs);
  }

  lemma SourcePermissions(rules: Rules, t: Tenant, doc: Document)
    requires Exportable(rules, t) && IsExport(rules, t, true, doc)
    ensures Keyed(t) && OfSource(t, doc.permissions)
  {
    forall d ensures d in doc.permissions <==> KeyIn(t, d).Some? && KeyIn(t, d).value in t.grants && t.grants[KeyIn(t, d).value] == d.value {
      PermissionEntry(t, d);
    }
  }

  lemma CertPartExported(rules: Rules, t: Tenant, doc: Document, t': Tenant)
    requires Exportable(rules, t) && IsExport(rules, t, true, doc) && Keyed(t') && Mirrors(t, t')
    ensures forall d :: d in doc.certs <==> ExportsCert(t', d)
  {
    hide Exportable, Keyed, Mirrors, ExportsCert;
    forall d ensures d in doc.certs <==> ExportsCert(t', d) {
      CertsExported(rules, t, t', d);
    }
  }

  lemma PermissionPartExported(rules: Rules, t: Tenant, doc: Document, t': Tenant, issuers: map<nat, nat>, certs: map<string, nat>)
    requires Exportable(rules, t) && IsExport(rules, t, true, doc) && Keyed(t') && Mirrors(t, t')
    requires issuers.Keys == t'.issuers.Keys && certs.Keys == t'.certs.Keys
    requires KnownIssuers(issuers, t'.issuers) && KnownCerts(certs, t'.certs)
    requires t'.grants == ImportGrants(map[], issuers, certs, doc.permissions)
    ensures forall d :: d in doc.permissions <==> ExportsPermission(t', d)
  {
    hide Exportable, IsExport, Keyed, Mirrors, ExportsPermission, OfSource, ImportGrants, KnownIssuers, KnownCerts;
    SourcePermissions(rules, t, doc);
    forall d ensures d in doc.permissions <==> ExportsPermission(t', d) {
      PermissionEntry(t', d);
      PermissionsRestored(t, t', issuers, certs, doc.permissions, d);
    }
  }

  lemma DocumentDistinct(rules: Rules, t: Tenant, doc: Document)
    requires IsExport(rules, t, true, doc)
    ensures Distinct(doc.issuers) && Distinct(doc.certs) && Distinct(doc.permissions) && Distinct(doc.secrets)
  {
  }

  lemma RestoredIsExported(rules: Rules, t: Tenant, doc: Document, t': Tenant, issuers: map<nat, nat>, certs: map<string, nat>)
    requires Exportable(rules, t) && IsExport(rules, t, true, doc) && WithinLimits(doc) && RestoredFrom(rules, doc, t', issuers, certs)
    ensures IsExport(rules, t', true, doc)
  {
    ExportCleanSecrets(rules, t, doc);
    assert forall i :: 0 <= i < |doc.secrets| ==> doc.secrets[i].value.Some?;
    hide Exportable, IsExport, IssuersRestored, CertsRestored, SecretsRestored, Mirrors, Keyed, CleanIssuers, CleanSecrets, ExportsCert, ExportsIssuer,
      ExportsPermission, ExportsSecret, OpenIssuer, OpenSecret, Listed, ImportGrants, KnownIssuers, KnownCerts, Distinct;
    RestoredMirrors(rules, t, doc, t', issuers, certs);
    ExportCleanIssuers(rules, t, doc);
    RestoredOpens(rules, doc, t', issuers);
    DocumentDistinct(rules, t, doc);
    CertPartExported(rules, t, doc, t');
    PermissionPartExported(rules, t, doc, t', issuers, certs);
    forall d ensures d in doc.issuers <==> ExportsIssuer(rules, t', true, d) {
      IssuersExported(rules, doc.issuers, t', issuers, d);
    }
    forall d ensures d in doc.secrets <==> ExportsSecret(t', d) {
      SecretsExported(doc.secrets, t', d);
    }
    Assembled(rules, t', doc);
  }

  lemma Assembled(rules: Rules, t: Tenant, doc: Document)
    requires forall k :: k in Listed(t.issuers) ==> OpenIssuer(t.issuers[k]).Some?
    requires forall k :: k in t.secrets ==> OpenSecret(t.secrets[k]).Some?
    requires Distinct(doc.issuers) && Distinct(doc.certs) && Distinct(doc.permissions) && Distinct(doc.secrets)
    requires forall d :: d in doc.issuers <==> ExportsIssuer(rules, t, true, d)
    requires forall d :: d in doc.certs <==> ExportsCert(t, d)
    requires forall d :: d in doc.permissions <==> ExportsPermission(t, d)
    requires forall d :: d in doc.secrets <==> ExportsSecret(t, d)
    ensures IsExport(rules, t, true, doc)
  {
    hide ExportsCert, ExportsIssuer, ExportsPermission, ExportsSecret, OpenIssuer, OpenSecret, Distinct;
  }

  lemma RestoredOpens(rules: Rules, doc: Document, t': Tenant, issuers: map<nat, nat>)
    requires IssuersRestored(rules, doc.issuers, t'.issuers, issuers, t'.nextId) && SecretsRestored(doc.secrets, t'.secrets)
    requires forall i :: 0 <= i < |doc.secrets| ==> doc.secrets[i].value.Some?
    ensures forall k :: k in Listed(t'.issuers) ==> OpenIssuer(t'.issuers[k]).Some?
    ensures forall k :: k in t'.secrets ==> OpenSecret(t'.secrets[k]).Some?
  {
    hide IssuerIds, KnownIssuers;
    forall k | k in t'.issuers ensures OpenIssuer(t'.issuers[k]).Some? {
      var i :| 0 <= i < |doc.issuers| && doc.issuers[i].name.low == k;
    }
    forall k | k in t'.secrets ensures OpenSecret(t'.secrets[k]).Some? {
      var i :| 0 <= i < |doc.secrets| && doc.secrets[i].name.low == k;
    }
  }

  // ------------------------------------------------------- what is restored

  /** The public settings shown are those of what is sealed, and no credential is an empty text. */
  ghost predicate Shown(rules: Rules, row: IssuerRow) {
    && OpenIssuer(row).Some? && row.public == Redacted(OpenIssuer(row).value, rules.secret)
    && forall k :: k in OpenIssuer(row).value && k in rules.secret ==> OpenIssuer(row).value[k] != Text("")
  }

  /** Two rows of an issuer hold the same but for their ids. */
  ghost predicate SameIssuer(rules: Rules, row: IssuerRow, row': IssuerRow) {
    && row'.name == row.name && row'.kind == row.kind && row'.domain == row.domain && row'.isDefault == row.isDefault
    && PublicPart(row'.public, rules.secret) == PublicPart(row.public, rules.secret)
    && OpenIssuer(row).Some? && OpenIssuer(row').Some?
    && Credentials(OpenIssuer(row').value, rules.secret) == Credentials(OpenIssuer(row).value, rules.secret)
    && (Shown(rules, row) ==> OpenIssuer(row') == OpenIssuer(row))
  }

  /** The tenant has the grant that the permission describes. */
  ghost predicate Has(t: Tenant, d: DocPermission) {
    KeyIn(t, d).Some? && KeyIn(t, d).value in t.grants && t.grants[KeyIn(t, d).value] == d.value
  }

  /** Two tenants hold the same but for their ids: issuers with their settings and
      credentials, certificates under the issuer of the same name, secrets with their
      values, and grants on the same issuers and certificates. */
  ghost predicate SameContents(rules: Rules, t: Tenant, t': Tenant) {
    && Mirrors(t, t')
    && (forall k :: k in t.issuers ==> SameIssuer(rules, t.issuers[k], t'.issuers[k]))
    && t'.secrets.Keys == t.secrets.Keys
    && (forall k :: k in t.secrets ==> (
          && t'.secrets[k].name == t.secrets[k].name && t'.secrets[k].kind == t.secrets[k].kind
          && OpenSecret(t'.secrets[k]) == OpenSecret(t.secrets[k])))
    && (forall d :: Has(t, d) <==> Has(t', d))
  }

  lemma RestoredRowSame(rules: Rules, row: IssuerRow, id: nat)
    requires OpenIssuer(row).Some?
    ensures SameIssuer(rules, row, RestoredRow(rules, ExportIssuer(rules, row, true), id))
  {
    var d, clear := ExportIssuer(rules, row, true), OpenIssuer(row).value;
    JoinSplits(d.settings, d.credentials, rules.secret);
    if Shown(rules, row) {
      SplitJoin(clear, rules.secret);
      assert PublicPart(Redacted(clear, rules.secret), rules.secret) == PublicPart(clear, rules.secret);
    }
  }

  lemma IssuerRestoredSame(rules: Rules, t: Tenant, doc: Document, t': Tenant, issuers: map<nat, nat>, k: nat)
    requires Exportable(rules, t) && IsExport(rules, t, true, doc) && Rows(rules, doc.issuers, t'.issuers, issuers) && k in t.issuers
    ensures k in t'.issuers && SameIssuer(rules, t.issuers[k], t'.issuers[k])
  {
    assert t.issuers[k].name.low == k && OpenIssuer(t.issuers[k]).Some?;
    hide Exportable, IsExport, ExportIssuer, RestoredRow, SameIssuer;
    var i := IssuerEntry(rules, t, doc, k);
    RestoredRowSame(rules, t.issuers[k], issuers[k]);
  }

  lemma SecretRestoredSame(rules: Rules, t: Tenant, doc: Document, secrets: map<nat, SecretRow>)
    requires Exportable(rules, t) && IsExport(rules, t, true, doc) && SecretsRestored(doc.secrets, secrets)
    ensures secrets.Keys == t.secrets.Keys
    ensures forall k :: k in t.secrets ==> (
      && secrets[k].name == t.secrets[k].name && secrets[k].kind == t.secrets[k].kind && OpenSecret(secrets[k]) == OpenSecret(t.secrets[k]))
  {
    hide Exportable, IsExport, OpenSecret;
    forall k | k in secrets ensures k in t.secrets {
      var i :| 0 <= i < |doc.secrets| && doc.secrets[i].name.low == k;
      var m := SecretOf(rules, t, doc, i);
    }
    forall k | k in t.secrets
      ensures k in secrets && secrets[k].name == t.secrets[k].name && secrets[k].kind == t.secrets[k].kind && OpenSecret(secrets[k]) == OpenSecret(t.secrets[k])
    {
      var i := SecretEntry(rules, t, doc, k);
    }
  }

  /** Every secret of the source has its entry. */
  lemma SecretEntry(rules: Rules, t: Tenant, doc: Document, k: nat) returns (i: nat)
    requires Exportable(rules, t) && IsExport(rules, t, true, doc) && k in t.secrets
    ensures i < |doc.secrets| && doc.secrets[i] == DocSecret(t.secrets[k].name, t.secrets[k].kind, OpenSecret(t.secrets[k]))
    ensures doc.secrets[i].name.low == k
  {
    var d := DocSecret(t.secrets[k].name, t.secrets[k].kind, OpenSecret(t.secrets[k]));
    assert t.secrets[k].name.low == k;
    assert ExportsSecret(t, d);
    hide Exportable, ExportsIssuer, ExportsCert, ExportsPermission, Listed, OpenSecret;
    i :| 0 <= i < |doc.secrets| && doc.secrets[i] == d;
  }

  lemma RestoredSame(rules: Rules, t: Tenant, doc: Document, t': Tenant, issuers: map<nat, nat>, certs: map<string, nat>)
    requires Exportable(rules, t) && IsExport(rules, t, true, doc) && WithinLimits(doc) && RestoredFrom(rules, doc, t', issuers, certs)
    ensures SameContents(rules, t, t')
  {
    assert Rows(rules, doc.issuers, t'.issuers, issuers);
    hide Exportable, IsExport, IssuersRestored, CertsRestored, SecretsRestored, Rows, ImportGrants, Keyed, SameIssuer, KeyIn, KnownIssuers, KnownCerts, WithinLimits, OfSource, OpenSecret;
    RestoredMirrors(rules, t, doc, t', issuers, certs);
    SecretRestoredSame(rules, t, doc, t'.secrets);
    forall k | k in t.issuers ensures SameIssuer(rules, t.issuers[k], t'.issuers[k]) {
      IssuerRestoredSame(rules, t, doc, t', issuers, k);
    }
    SourcePermissions(rules, t, doc);
    hide Mirrors;
    forall d ensures Has(t, d) <==> Has(t', d) {
      PermissionsRestored(t, t', issuers, certs, doc.permissions, d);
      SourceHas(t, doc.permissions, d);
    }
  }

  lemma SourceHas(t: Tenant, ds: seq<DocPermission>, d: DocPermission)
    requires OfSource(t, ds)
    ensures d in ds <==> Has(t, d)
  {
  }

  /** An export with credentials, restored into an empty tenant in either mode, creates
      every entry and skips none; the restored tenant holds what the source holds, but for
      the ids, and exports that very document. */
  lemma RoundTrip(rules: Rules, t: Tenant, doc: Document, now: int, overwrite: bool)
    requires Exportable(rules, t) && IsExport(rules, t, true, doc) && WithinLimits(doc)
    ensures var (t', report) := Import(rules, EMPTY, doc, now, overwrite);
      && report == Some(Report(|doc.issuers|, 0, |doc.certs|, 0, |doc.permissions|, |doc.secrets|))
      && SameContents(rules, t, t') && IsExport(rules, t', true, doc)
  {
    assert Listed(EMPTY.issuers) == map[];
    hide Exportable, IsExport, CleanIssuers, CleanSecrets, CleanCerts, ImportIssuers, Import, IssuersRestored, SameContents;
    ExportCleanIssuers(rules, t, doc);
    ExportCleanSecrets(rules, t, doc);
    RestoreIssuers(rules, doc.issuers, overwrite);
    var a := Issued(rules, EMPTY, doc, overwrite).value;
    SameIssuers(rules, t, doc, a.t.issuers, a.known, a.t.nextId);
    SameKeys(rules, doc.issuers, a.t.issuers, a.known, a.t.nextId);
    ExportCleanCerts(rules, t, doc, a.known);
    RestoreTail(rules, t, doc, a, now, overwrite);
  }

  lemma SameKeys(rules: Rules, ds: seq<DocIssuer>, issuers: map<nat, IssuerRow>, known: map<nat, nat>, nextId: nat)
    requires IssuersRestored(rules, ds, issuers, known, nextId)
    ensures known.Keys == issuers.Keys
  {
  }

  lemma RestoreTail(rules: Rules, t: Tenant, doc: Document, a: Issuing, now: int, overwrite: bool)
    requires Exportable(rules, t) && IsExport(rules, t, true, doc) && WithinLimits(doc)
    requires Issued(rules, EMPTY, doc, overwrite) == Some(a)
    requires IssuersRestored(rules, doc.issuers, a.t.issuers, a.known, a.t.nextId)
    requires a.t == EMPTY.(issuers := a.t.issuers, nextId := a.t.nextId) && a.created == |doc.issuers| && a.skipped == 0
    requires CleanCerts(doc.certs, a.known) && CleanSecrets(rules, doc.secrets)
    ensures var (t', report) := Import(rules, EMPTY, doc, now, overwrite);
      && report == Some(Report(|doc.issuers|, 0, |doc.certs|, 0, |doc.permissions|, |doc.secrets|))
      && SameContents(rules, t, t') && IsExport(rules, t', true, doc)
  {
    hide Exportable, IsExport, IssuersRestored, CertsRestored, SecretsRestored, CleanCerts, CleanSecrets, Issued, ImportCerts, ImportSecrets, ImportGrants, SameContents;
    assert ListedCerts(a.t.certs) == map[];
    RestoreCerts(a.t, a.known, doc.certs, now, overwrite);
    var c := Certified(a, doc, now, overwrite);
    var g := Granted(a, c, doc);
    RestoreSecrets(rules, g, doc.secrets, overwrite);
    var t' := ImportSecrets(rules, Securing(g, 0), doc.secrets, overwrite).value.t;
    IdsGrow(rules, a, doc, now, overwrite, t');
    MoreIdsRestored(rules, doc.issuers, t'.issuers, a.known, a.t.nextId, t'.nextId);
    MoreCertIdsRestored(doc.certs, a.known, t'.certs, c.known, c.t.nextId, t'.nextId);
    RestoredIsExported(rules, t, doc, t', a.known, c.known);
    AllWritten(rules, t, doc, t', a.known, c.known);
    RestoredSame(rules, t, doc, t', a.known, c.known);
  }

  /** Every permission of the document resolves in the restored tenant. */
  lemma AllWritten(rules: Rules, t: Tenant, doc: Document, t': Tenant, issuers: map<nat, nat>, certs: map<string, nat>)
    requires Exportable(rules, t) && IsExport(rules, t, true, doc) && WithinLimits(doc) && RestoredFrom(rules, doc, t', issuers, certs)
    requires IsExport(rules, t', true, doc)
    ensures GrantsWritten(issuers, certs, doc.permissions) == |doc.permissions|
  {
    assert forall i :: 0 <= i < |doc.permissions| ==> ExportsPermission(t', doc.permissions[i]) by {
      hide ExportsPermission, ExportsIssuer, ExportsCert, ExportsSecret, Exportable, RestoredFrom, Listed, Distinct, OpenIssuer, OpenSecret;
    }
    hide Exportable, IsExport, RestoredFrom, Mirrors, Keyed, ExportsPermission, KnownIssuers, KnownCerts, WithinLimits;
    RestoredMirrors(rules, t, doc, t', issuers, certs);
    forall i | 0 <= i < |doc.permissions| ensures Resolve(doc.permissions[i].on, issuers, certs).Some? {
      ExportedResolves(t', issuers, certs, doc.permissions[i]);
    }
    AllResolve(issuers, certs, doc.permissions);
  }

  lemma ExportedResolves(t': Tenant, issuers: map<nat, nat>, certs: map<string, nat>, d: DocPermission)
    requires Keyed(t') && issuers.Keys == t'.issuers.Keys && certs.Keys == t'.certs.Keys && ExportsPermission(t', d)
    ensures Resolve(d.on, issuers, certs).Some?
  {
    hide IdsUnique, Ahead, AheadCerts;
    if d.on.IssuerRef? {
      var k :| k in Listed(t'.issuers) && t'.issuers[k].name == d.on.name;
      assert k in issuers.Keys;
    } else {
      assert d.on.serial in certs.Keys;
    }
  }

  lemma {:induction false} AllResolve(issuers: map<nat, nat>, certs: map<string, nat>, ds: seq<DocPermission>)
    requires forall i :: 0 <= i < |ds| ==> Resolve(ds[i].on, issuers, certs).Some?
    ensures GrantsWritten(issuers, certs, ds) == |ds|
  {
    if ds != [] {
      AllResolve(issuers, certs, ds[..|ds| - 1]);
    }
  }

  lemma {:induction false} CertIdsGrow(b: Certifying, issuers: map<nat, nat>, ds: seq<DocCert>, now: int, overwrite: bool)
    ensures b.t.nextId <= ImportCerts(b, issuers, ds, now, overwrite).t.nextId
  {
    if ds != [] {
      CertIdsGrow(b, issuers, ds[..|ds| - 1], now, overwrite);
    }
  }

  lemma {:induction false} SecretIdsGrow(rules: Rules, b: Securing, ds: seq<DocSecret>, overwrite: bool)
    requires ImportSecrets(rules, b, ds, overwrite).Some?
    ensures b.t.nextId <= ImportSecrets(rules, b, ds, overwrite).value.t.nextId
  {
    if ds != [] {
      SecretIdsGrow(rules, b, ds[..|ds| - 1], overwrite);
    }
  }

  lemma IdsGrow(rules: Rules, a: Issuing, doc: Document, now: int, overwrite: bool, t': Tenant)
    requires var s := ImportSecrets(rules, Securing(Granted(a, Certified(a, doc, now, overwrite), doc), 0), doc.secrets, overwrite);
      s.Some? && s.value.t == t'
    ensures a.t.nextId <= Certified(a, doc, now, overwrite).t.nextId <= t'.nextId
  {
    CertIdsGrow(Certifying(a.t, ListedCerts(a.t.certs), 0, 0), a.known, doc.certs, now, overwrite);
    SecretIdsGrow(rules, Securing(Granted(a, Certified(a, doc, now, overwrite), doc), 0), doc.secrets, overwrite);
  }
}
