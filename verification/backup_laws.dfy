/** What an import adds up to, leaves alone, and does the second time. */
module BackupLaws {
  import opened Common
  import opened Sealed
  import opened Backup

  ghost predicate Extends<K(!new), V(!new)>(m: map<K, V>, m': map<K, V>) {
    forall k :: k in m ==> k in m' && m'[k] == m[k]
  }

  // --------------------------------------------------------------- accounting

  lemma {:induction false} IssuersCounted(rules: Rules, a: Issuing, ds: seq<DocIssuer>, overwrite: bool)
    requires ImportIssuers(rules, a, ds, overwrite).Some?
    ensures var b := ImportIssuers(rules, a, ds, overwrite).value;
      b.created + b.skipped == a.created + a.skipped + |ds|
  {
    if ds != [] {
      IssuersCounted(rules, a, ds[..|ds| - 1], overwrite);
    }
  }

  lemma {:induction false} CertsCounted(a: Certifying, issuers: map<nat, nat>, ds: seq<DocCert>, now: int, overwrite: bool)
    ensures var b := ImportCerts(a, issuers, ds, now, overwrite);
      b.created + b.skipped == a.created + a.skipped + |ds|
  {
    if ds != [] {
      CertsCounted(a, issuers, ds[..|ds| - 1], now, overwrite);
    }
  }

  /** The permissions whose reference resolves. */
  function Resolving(issuers: map<nat, nat>, certs: map<string, nat>, ds: seq<DocPermission>): set<nat> {
    set i: nat | i < |ds| && Resolve(ds[i].on, issuers, certs).Some?
  }

  lemma {:induction false} GrantsCounted(issuers: map<nat, nat>, certs: map<string, nat>, ds: seq<DocPermission>)
    ensures GrantsWritten(issuers, certs, ds) == |Resolving(issuers, certs, ds)|
  {
    if ds != [] {
      var n := |ds| - 1;
      GrantsCounted(issuers, certs, ds[..n]);
      var before, after := Resolving(issuers, certs, ds[..n]), Resolving(issuers, certs, ds);
      assert after == before + if Resolve(ds[n].on, issuers, certs).Some? then {n} else {};
    } else {
      assert Resolving(issuers, certs, ds) == {};
    }
  }

  /** Every issuer and certificate of the document is reported, written or skipped, once,
      and every permission that resolves to an issuer or certificate known after those
      stages is reported once; an import that fails changes nothing. */
  lemma ImportCounted(rules: Rules, t: Tenant, doc: Document, now: int, overwrite: bool)
    ensures var (t', report) := Import(rules, t, doc, now, overwrite);
      if report.None? then t' == t
      else
        && report.value.issuersCreated + report.value.issuersSkipped == |doc.issuers|
        && report.value.certsCreated + report.value.certsSkipped == |doc.certs|
        && Issued(rules, t, doc, overwrite).Some?
        && var a := Issued(rules, t, doc, overwrite).value;
          report.value.grantsCreated == |Resolving(a.known, Certified(a, doc, now, overwrite).known, doc.permissions)|
  {
    var (t', report) := Import(rules, t, doc, now, overwrite);
    if report.Some? {
      IssuersCounted(rules, Issuing(t, Listed(t.issuers), 0, 0), doc.issuers, overwrite);
      var a := Issued(rules, t, doc, overwrite).value;
      CertsCounted(Certifying(a.t, ListedCerts(a.t.certs), 0, 0), a.known, doc.certs, now, overwrite);
      GrantsCounted(a.known, Certified(a, doc, now, overwrite).known, doc.permissions);
    }
  }

  /** A document with more than 1000 issuers or secrets, or more than 100000 certificates or
      permissions, is refused as a whole. */
  lemma TooLarge(rules: Rules, t: Tenant, doc: Document, now: int, overwrite: bool)
    ensures !WithinLimits(doc) <==> |doc.issuers| > 1000 || |doc.certs| > 100000 || |doc.secrets| > 1000 || |doc.permissions| > 100000
    ensures !WithinLimits(doc) ==> Import(rules, t, doc, now, overwrite) == (t, None)
  {
  }

  // ------------------------------------------------------ the stages, skipping

  /** Names with their ids, all of stored issuers. */
  ghost predicate KnownIssuers(known: map<nat, nat>, issuers: map<nat, IssuerRow>) {
    forall k :: k in known ==> k in issuers && known[k] == issuers[k].id
  }

  ghost predicate IssuerIds(issuers: map<nat, IssuerRow>, nextId: nat) {
    && (forall k :: k in issuers ==> issuers[k].id < nextId)
    && (forall j, k :: j in issuers && k in issuers && issuers[j].id == issuers[k].id ==> j == k)
  }

  ghost predicate CertIds(certs: map<string, CertRow>, nextId: nat) {
    && (forall k :: k in certs ==> certs[k].id < nextId)
    && (forall j, k :: j in certs && k in certs && certs[j].id == certs[k].id ==> j == k)
  }

  /** Ids are given out once. */
  ghost predicate IdsUnique(t: Tenant) {
    IssuerIds(t.issuers, t.nextId) && CertIds(t.certs, t.nextId)
  }

  /** The issuer stage in skip mode, from tenant t. */
  ghost predicate IssuersAdded(t: Tenant, a: Issuing) {
    && Extends(t.issuers, a.t.issuers) && KnownIssuers(a.known, a.t.issuers) && IdsUnique(a.t)
    && Extends(Listed(t.issuers), a.known)
    && (forall k :: k in a.t.issuers ==> k in t.issuers || k in a.known)
    && a.t.certs == t.certs && a.t.grants == t.grants && a.t.secrets == t.secrets
  }

  /** An issuer of the document that a skip import no longer inserts. */
  ghost predicate Settled(issuers: map<nat, IssuerRow>, d: DocIssuer) {
    d.name.low in issuers || DefaultClash(issuers, d.name.low, d.isDefault, d.domain)
  }

  lemma SettledStays(issuers: map<nat, IssuerRow>, issuers': map<nat, IssuerRow>, d: DocIssuer)
    requires Extends(issuers, issuers') && Settled(issuers, d)
    ensures Settled(issuers', d)
  {
  }

  lemma IssuerAdded(first: map<nat, IssuerRow>, listed: map<nat, nat>, issuers: map<nat, IssuerRow>, known: map<nat, nat>, nextId: nat, low: nat, row: IssuerRow)
    requires Extends(first, issuers) && KnownIssuers(known, issuers) && IssuerIds(issuers, nextId) && Extends(listed, known)
    requires forall k :: k in issuers ==> k in first || k in known
    requires low !in issuers && low !in known && row.id == nextId
    ensures var issuers', known' := issuers[low := row], known[low := nextId];
      && Extends(first, issuers') && KnownIssuers(known', issuers') && IssuerIds(issuers', nextId + 1) && Extends(listed, known')
      && (forall k :: k in issuers' ==> k in first || k in known') && Extends(issuers, issuers')
  {
  }

  lemma InsertAdds(rules: Rules, t: Tenant, a: Issuing, d: DocIssuer)
    requires IssuersAdded(t, a) && d.name.low !in a.known && InsertIssuer(rules, a, d).Some?
    ensures var b := InsertIssuer(rules, a, d).value;
      IssuersAdded(t, b) && Extends(a.t.issuers, b.t.issuers) && Settled(b.t.issuers, d)
  {
    hide Listed, ListedCerts, DefaultClash, KnownIssuers, IssuerIds, Extends, Redacted;
    var b := InsertIssuer(rules, a, d).value;
    var low := d.name.low;
    if b.t == a.t {
      SelfExtends(a.t.issuers);
    } else {
      IssuerAdded(t.issuers, Listed(t.issuers), a.t.issuers, a.known, a.t.nextId, low, b.t.issuers[low]);
      MoreIds(a.t.certs, a.t.nextId);
    }
  }

  lemma SelfExtends<K(!new), V(!new)>(m: map<K, V>)
    ensures Extends(m, m)
  {
  }

  lemma MoreIds(certs: map<string, CertRow>, nextId: nat)
    requires CertIds(certs, nextId)
    ensures CertIds(certs, nextId + 1)
  {
  }

  lemma MoreIssuerIds(issuers: map<nat, IssuerRow>, nextId: nat)
    requires IssuerIds(issuers, nextId)
    ensures IssuerIds(issuers, nextId + 1)
  {
  }

  lemma StartAdded(t: Tenant)
    requires IdsUnique(t)
    ensures IssuersAdded(t, Issuing(t, Listed(t.issuers), 0, 0))
  {
  }

  lemma KnownSettled(known: map<nat, nat>, issuers: map<nat, IssuerRow>, d: DocIssuer)
    requires KnownIssuers(known, issuers) && d.name.low in known
    ensures Settled(issuers, d)
  {
  }

  lemma {:induction false} SkipIssuers(rules: Rules, t: Tenant, ds: seq<DocIssuer>)
    requires IdsUnique(t) && ImportIssuers(rules, Issuing(t, Listed(t.issuers), 0, 0), ds, false).Some?
    ensures var a := ImportIssuers(rules, Issuing(t, Listed(t.issuers), 0, 0), ds, false).value;
      IssuersAdded(t, a) && forall i :: 0 <= i < |ds| ==> Settled(a.t.issuers, ds[i])
  {
    hide Listed, ListedCerts, InsertIssuer, OverwriteIssuer, Settled, KnownIssuers, IssuerIds, CertIds;
    if ds == [] {
      StartAdded(t);
    } else {
      var n := |ds| - 1;
      SkipIssuers(rules, t, ds[..n]);
      var a := ImportIssuers(rules, Issuing(t, Listed(t.issuers), 0, 0), ds[..n], false).value;
      var b := IssuerStep(rules, a, ds[n], false).value;
      if ds[n].name.low !in a.known {
        InsertAdds(rules, t, a, ds[n]);
      } else {
        KnownSettled(a.known, a.t.issuers, ds[n]);
      }
      forall i | 0 <= i < n ensures Settled(b.t.issuers, ds[i]) {
        assert ds[..n][i] == ds[i];
        SettledStays(a.t.issuers, b.t.issuers, ds[i]);
      }
    }
  }

  /** With every issuer settled, skipping again inserts none. */
  lemma {:induction false} SkipIssuersAgain(rules: Rules, a: Issuing, ds: seq<DocIssuer>)
    requires forall i :: 0 <= i < |ds| ==> Settled(a.t.issuers, ds[i])
    requires ImportIssuers(rules, a, ds, false).Some?
    ensures var b := ImportIssuers(rules, a, ds, false).value;
      b.t == a.t && b.known == a.known && b.created == a.created
  {
    if ds != [] {
      SkipIssuersAgain(rules, a, ds[..|ds| - 1]);
    }
  }

  /** The settings of a document's issuer are within the size limit. */
  predicate Fits(rules: Rules, d: DocIssuer) {
    rules.fits(d.settings + d.credentials)
  }

  /** With every issuer settled, skipping again succeeds exactly when each one is known or
      its settings fit. */
  lemma {:induction false} SkipAgainExact(rules: Rules, a: Issuing, ds: seq<DocIssuer>)
    requires forall i :: 0 <= i < |ds| ==> Settled(a.t.issuers, ds[i])
    ensures ImportIssuers(rules, a, ds, false).Some? <==> forall i :: 0 <= i < |ds| ==> ds[i].name.low in a.known || Fits(rules, ds[i])
  {
    if ds != [] {
      var n := |ds| - 1;
      SkipAgainExact(rules, a, ds[..n]);
      assert forall i :: 0 <= i < n ==> ds[..n][i] == ds[i];
      hide Settled;
      if ImportIssuers(rules, a, ds[..n], false).Some? {
        SkipIssuersAgain(rules, a, ds[..n]);
      }
    }
  }

  /** After a skip stage every issuer of the document is stored by name, or fits. */
  lemma {:induction false} StoredOrFits(rules: Rules, a: Issuing, ds: seq<DocIssuer>)
    requires KnownIssuers(a.known, a.t.issuers) && ImportIssuers(rules, a, ds, false).Some?
    ensures var b := ImportIssuers(rules, a, ds, false).value;
      && KnownIssuers(b.known, b.t.issuers) && a.t.issuers.Keys <= b.t.issuers.Keys
      && forall i :: 0 <= i < |ds| ==> ds[i].name.low in b.t.issuers || Fits(rules, ds[i])
  {
    if ds != [] {
      var n := |ds| - 1;
      StoredOrFits(rules, a, ds[..n]);
      assert forall i :: 0 <= i < n ==> ds[..n][i] == ds[i];
    }
  }

  lemma ListedAll(issuers: map<nat, IssuerRow>)
    requires |issuers| <= MAX_ISSUERS
    ensures Listed(issuers).Keys == issuers.Keys
  {
    forall k | k in issuers ensures |Ahead(issuers, k)| < MAX_ISSUERS {
      SmallerSet(Ahead(issuers, k), issuers.Keys - {k});
      assert |issuers.Keys| == |issuers|;
    }
  }

  ghost predicate KnownCerts(known: map<string, nat>, certs: map<string, CertRow>) {
    forall k :: k in known ==> k in certs && known[k] == certs[k].id
  }

  ghost predicate CertsAdded(t: Tenant, a: Certifying) {
    && Extends(t.certs, a.t.certs) && KnownCerts(a.known, a.t.certs) && IdsUnique(a.t)
    && Extends(ListedCerts(t.certs), a.known)
    && (forall k :: k in a.t.certs ==> k in t.certs || k in a.known)
    && a.t.issuers == t.issuers && a.t.grants == t.grants && a.t.secrets == t.secrets
  }

  lemma CertAdded(first: map<string, CertRow>, listed: map<string, nat>, certs: map<string, CertRow>, known: map<string, nat>, nextId: nat, serial: string, row: CertRow)
    requires Extends(first, certs) && KnownCerts(known, certs) && CertIds(certs, nextId) && Extends(listed, known)
    requires forall k :: k in certs ==> k in first || k in known
    requires serial !in certs && serial !in known && row.id == nextId
    ensures var certs', known' := certs[serial := row], known[serial := nextId];
      && Extends(first, certs') && KnownCerts(known', certs') && CertIds(certs', nextId + 1) && Extends(listed, known')
      && (forall k :: k in certs' ==> k in first || k in known') && Extends(certs, certs')
  {
  }

  lemma CertStepAdds(t: Tenant, a: Certifying, issuers: map<nat, nat>, d: DocCert, now: int)
    requires CertsAdded(t, a)
    ensures var b := CertStep(a, issuers, d, now, false);
      CertsAdded(t, b) && Extends(a.t.certs, b.t.certs) && (d.issuer.low in issuers ==> d.serial in b.t.certs)
  {
    assert forall k :: k in a.known ==> k in a.t.certs;
    hide Listed, ListedCerts, KnownCerts, IssuerIds, CertIds, Extends;
    var b := CertStep(a, issuers, d, now, false);
    SelfExtends(a.t.certs);
    if b.t != a.t {
      CertAdded(t.certs, ListedCerts(t.certs), a.t.certs, a.known, a.t.nextId, d.serial, b.t.certs[d.serial]);
      MoreIssuerIds(a.t.issuers, a.t.nextId);
    }
  }

  lemma {:induction false} SkipCerts(t: Tenant, issuers: map<nat, nat>, ds: seq<DocCert>, now: int)
    requires IdsUnique(t)
    ensures var a := ImportCerts(Certifying(t, ListedCerts(t.certs), 0, 0), issuers, ds, now, false);
      CertsAdded(t, a) && forall i :: 0 <= i < |ds| && ds[i].issuer.low in issuers ==> ds[i].serial in a.t.certs
  {
    if ds != [] {
      var n := |ds| - 1;
      SkipCerts(t, issuers, ds[..n], now);
      var a := ImportCerts(Certifying(t, ListedCerts(t.certs), 0, 0), issuers, ds[..n], now, false);
      CertStepAdds(t, a, issuers, ds[n], now);
      var b := CertStep(a, issuers, ds[n], now, false);
      forall i | 0 <= i < n && ds[i].issuer.low in issuers ensures ds[i].serial in b.t.certs {
        assert ds[..n][i] == ds[i];
      }
    }
  }

  lemma {:induction false} SkipCertsAgain(a: Certifying, issuers: map<nat, nat>, ds: seq<DocCert>, now: int)
    requires forall i :: 0 <= i < |ds| && ds[i].issuer.low in issuers ==> ds[i].serial in a.t.certs
    ensures var b := ImportCerts(a, issuers, ds, now, false);
      b.t == a.t && b.known == a.known && b.created == a.created
  {
    if ds != [] {
      SkipCertsAgain(a, issuers, ds[..|ds| - 1], now);
    }
  }

  lemma {:induction false} SkipSecrets(rules: Rules, a: Securing, ds: seq<DocSecret>)
    requires ImportSecrets(rules, a, ds, false).Some?
    ensures var b := ImportSecrets(rules, a, ds, false).value;
      && Extends(a.t.secrets, b.t.secrets) && (forall i :: 0 <= i < |ds| ==> ds[i].name.low in b.t.secrets)
      && b.t == a.t.(secrets := b.t.secrets, nextId := b.t.nextId)
  {
    if ds != [] {
      var n := |ds| - 1;
      SkipSecrets(rules, a, ds[..n]);
      var b := ImportSecrets(rules, a, ds, false).value;
      forall i | 0 <= i < n ensures ds[i].name.low in b.t.secrets {
        assert ds[..n][i] == ds[i];
      }
    }
  }

  lemma {:induction false} SkipSecretsAgain(rules: Rules, a: Securing, ds: seq<DocSecret>)
    requires forall i :: 0 <= i < |ds| ==> ds[i].name.low in a.t.secrets
    ensures ImportSecrets(rules, a, ds, false) == Some(a)
  {
    if ds != [] {
      SkipSecretsAgain(rules, a, ds[..|ds| - 1]);
    }
  }

  // ------------------------------------------------------- listings that shrink

  lemma SmallerSet<T>(a: set<T>, b: set<T>)
    requires a <= b
    ensures |a| <= |b|
  {
    assert b == a + (b - a);
  }

  /** Issuers added never bring an older one back into a listing. */
  lemma ListedShrinks(m: map<nat, IssuerRow>, m': map<nat, IssuerRow>, k: nat)
    requires Extends(m, m') && k in m && k in Listed(m')
    ensures k in Listed(m)
  {
    SmallerSet(Ahead(m, k), Ahead(m', k));
  }

  lemma ListedCertsShrinks(m: map<string, CertRow>, m': map<string, CertRow>, k: string)
    requires Extends(m, m') && k in m && k in ListedCerts(m')
    ensures k in ListedCerts(m)
  {
    SmallerSet(AheadCerts(m, k), AheadCerts(m', k));
  }

  lemma LastOf(keys: set<nat>) returns (m: nat)
    requires keys != {}
    ensures m in keys && forall k :: k in keys ==> k <= m
    decreases keys
  {
    var a :| a in keys;
    m := a;
    if keys - {a} != {} {
      var n := LastOf(keys - {a});
      m := if n > a then n else a;
      assert forall k :: k in keys ==> k == a || k in keys - {a};
    } else {
      assert keys == {a};
    }
  }

  /** A listing returns at most a thousand issuers, and no unlisted one comes before them. */
  lemma ListedBound(issuers: map<nat, IssuerRow>)
    ensures |Listed(issuers).Keys| <= 1000
    ensures forall j, k :: j in issuers && k in Listed(issuers) && j < k ==> j in Listed(issuers)
  {
    var keys := Listed(issuers).Keys;
    if keys != {} {
      var m := LastOf(keys);
      SmallerSet(keys, Ahead(issuers, m) + {m});
    }
    forall j, k | j in issuers && k in Listed(issuers) && j < k ensures j in Listed(issuers) {
      SmallerSet(Ahead(issuers, j), Ahead(issuers, k));
    }
  }

  lemma OldestOf(certs: map<string, CertRow>, keys: set<string>) returns (m: string)
    requires keys != {} && keys <= certs.Keys
    requires forall j, k :: j in certs && k in certs && certs[j].id == certs[k].id ==> j == k
    ensures m in keys && forall k :: k in keys && k != m ==> Newer(certs[k], certs[m])
    decreases keys
  {
    m :| m in keys;
    if keys - {m} != {} {
      var n := OldestOf(certs, keys - {m});
      if Newer(certs[m], certs[n]) {
        m := n;
      }
    }
  }

  /** The walk returns at most a hundred thousand certificates, and no older one before a
      newer one. */
  lemma ListedCertsBound(certs: map<string, CertRow>)
    requires forall j, k :: j in certs && k in certs && certs[j].id == certs[k].id ==> j == k
    ensures |ListedCerts(certs).Keys| <= 100000
    ensures forall j, k :: j in certs && k in ListedCerts(certs) && certs[j].created > certs[k].created ==> j in ListedCerts(certs)
  {
    var keys := ListedCerts(certs).Keys;
    if keys != {} {
      var m := OldestOf(certs, keys);
      SmallerSet(keys, AheadCerts(certs, m) + {m});
    }
    forall j, k | j in certs && k in ListedCerts(certs) && certs[j].created > certs[k].created ensures j in ListedCerts(certs) {
      SmallerSet(AheadCerts(certs, j), AheadCerts(certs, k));
    }
  }

  lemma IssuersStillKnown(t: Tenant, a: Issuing)
    requires IssuersAdded(t, a)
    ensures Extends(Listed(a.t.issuers), a.known)
  {
    forall k | k in Listed(a.t.issuers) ensures k in a.known && a.known[k] == Listed(a.t.issuers)[k] {
      if k in t.issuers {
        ListedShrinks(t.issuers, a.t.issuers, k);
      }
    }
  }

  lemma CertsStillKnown(t: Tenant, a: Certifying)
    requires CertsAdded(t, a)
    ensures Extends(ListedCerts(a.t.certs), a.known)
  {
    forall k | k in ListedCerts(a.t.certs) ensures k in a.known && a.known[k] == ListedCerts(a.t.certs)[k] {
      if k in t.certs {
        ListedCertsShrinks(t.certs, a.t.certs, k);
      }
    }
  }

  // --------------------------------------------------------------------- grants

  function KeyOf(d: DocPermission, issuers: map<nat, nat>, certs: map<string, nat>): Option<GrantKey> {
    var on := Resolve(d.on, issuers, certs);
    if on.None? then None else Some(GrantKey(on.value, d.subjectType, d.subject))
  }

  /** The last permission of the document that resolves to a key. */
  function LastFor(key: GrantKey, issuers: map<nat, nat>, certs: map<string, nat>, ds: seq<DocPermission>): Option<GrantValue> {
    if ds == [] then None
    else if KeyOf(ds[|ds| - 1], issuers, certs) == Some(key) then Some(ds[|ds| - 1].value)
    else LastFor(key, issuers, certs, ds[..|ds| - 1])
  }

  lemma {:induction false} GrantsAre(grants: map<GrantKey, GrantValue>, issuers: map<nat, nat>, certs: map<string, nat>, ds: seq<DocPermission>, key: GrantKey)
    ensures var last := LastFor(key, issuers, certs, ds);
      var after := ImportGrants(grants, issuers, certs, ds);
      if last.Some? then key in after && after[key] == last.value
      else (key in after <==> key in grants) && (key in after ==> after[key] == grants[key])
  {
    if ds != [] {
      GrantsAre(grants, issuers, certs, ds[..|ds| - 1], key);
    }
  }

  ghost predicate Injective<K(!new)>(m: map<K, nat>) {
    forall j, k :: j in m && k in m && m[j] == m[k] ==> j == k
  }

  lemma {:induction false} LastForFewer(key: GrantKey, issuers: map<nat, nat>, certs: map<string, nat>, issuers': map<nat, nat>, certs': map<string, nat>, ds: seq<DocPermission>)
    requires Extends(issuers', issuers) && Extends(certs', certs) && Injective(issuers) && Injective(certs)
    ensures LastFor(key, issuers', certs', ds).Some? ==> LastFor(key, issuers, certs, ds) == LastFor(key, issuers', certs', ds)
    ensures LastFor(key, issuers', certs', ds).Some? ==>
      match key.on
      case OfIssuer(id) => exists k :: k in issuers' && issuers'[k] == id
      case OfCertificate(id) => exists k :: k in certs' && certs'[k] == id
  {
    if ds != [] {
      LastForFewer(key, issuers, certs, issuers', certs', ds[..|ds| - 1]);
    }
  }

  /** Importing the same permissions again over fewer known names changes nothing. */
  lemma GrantsAgain(grants: map<GrantKey, GrantValue>, issuers: map<nat, nat>, certs: map<string, nat>, issuers': map<nat, nat>, certs': map<string, nat>, ds: seq<DocPermission>)
    requires Extends(issuers', issuers) && Extends(certs', certs) && Injective(issuers) && Injective(certs)
    ensures var once := ImportGrants(grants, issuers, certs, ds);
      ImportGrants(once, issuers', certs', ds) == once
  {
    var once := ImportGrants(grants, issuers, certs, ds);
    var twice := ImportGrants(once, issuers', certs', ds);
    forall key ensures (key in twice <==> key in once) && (key in once ==> twice[key] == once[key]) {
      GrantsAre(grants, issuers, certs, ds, key);
      GrantsAre(once, issuers', certs', ds, key);
      LastForFewer(key, issuers, certs, issuers', certs', ds);
    }
  }

  // ------------------------------------------------------------------- theorems

  /** A skip import leaves every stored issuer, certificate and secret as it was. */
  lemma SkipLeavesRows(rules: Rules, t: Tenant, doc: Document, now: int)
    requires IdsUnique(t)
    ensures var t' := Import(rules, t, doc, now, false).0;
      Extends(t.issuers, t'.issuers) && Extends(t.certs, t'.certs) && Extends(t.secrets, t'.secrets)
  {
    if Import(rules, t, doc, now, false).1.Some? {
      SkipIssuers(rules, t, doc.issuers);
      var a := Issued(rules, t, doc, false).value;
      SkipCerts(a.t, a.known, doc.certs, now);
      SkipSecrets(rules, Securing(Granted(a, Certified(a, doc, now, false), doc), 0), doc.secrets);
    }
  }

  /** Importing the same document twice in skip mode: the second import changes nothing at
      all; it reports, and reports nothing created, exactly when every issuer of the
      document is listed or within the size limit, which is so whenever the tenant has no
      more issuers than a listing returns. */
  lemma SkipTwice(rules: Rules, t: Tenant, doc: Document, now: int, later: int)
    requires IdsUnique(t) && Import(rules, t, doc, now, false).1.Some?
    ensures var t1 := Import(rules, t, doc, now, false).0;
      var (t2, report) := Import(rules, t1, doc, later, false);
      && t2 == t1
      && (report.Some? ==> report.value.issuersCreated == 0 && report.value.certsCreated == 0 && report.value.secretsCreated == 0)
      && (report.Some? <==> forall i :: 0 <= i < |doc.issuers| ==> doc.issuers[i].name.low in Listed(t1.issuers) || Fits(rules, doc.issuers[i]))
      && (|t1.issuers| <= MAX_ISSUERS ==> report.Some?)
  {
    var t1 := Import(rules, t, doc, now, false).0;
    SkipIssuers(rules, t, doc.issuers);
    var a := Issued(rules, t, doc, false).value;
    IssuersStillKnown(t, a);
    SkipCerts(a.t, a.known, doc.certs, now);
    var c := Certified(a, doc, now, false);
    CertsStillKnown(a.t, c);
    SkipSecrets(rules, Securing(Granted(a, c, doc), 0), doc.secrets);
    assert t1.issuers == a.t.issuers && t1.certs == c.t.certs && t1.grants == Granted(a, c, doc).grants;
    SecondReports(rules, t, a, t1, doc);
    if Issued(rules, t1, doc, false).Some? {
      SecondImport(rules, t1, a, c, doc, later);
    }
  }

  /** When the issuer stage of the second import succeeds. */
  lemma SecondReports(rules: Rules, t: Tenant, a: Issuing, t1: Tenant, doc: Document)
    requires Issued(rules, t, doc, false) == Some(a) && t1.issuers == a.t.issuers
    requires forall i :: 0 <= i < |doc.issuers| ==> Settled(a.t.issuers, doc.issuers[i])
    ensures Issued(rules, t1, doc, false).Some? <==>
      forall i :: 0 <= i < |doc.issuers| ==> doc.issuers[i].name.low in Listed(t1.issuers) || Fits(rules, doc.issuers[i])
    ensures |t1.issuers| <= MAX_ISSUERS ==> Issued(rules, t1, doc, false).Some?
  {
    assert KnownIssuers(Listed(t.issuers), t.issuers);
    hide Listed, ImportIssuers, Settled, Fits, KnownIssuers;
    StoredOrFits(rules, Issuing(t, Listed(t.issuers), 0, 0), doc.issuers);
    SkipAgainExact(rules, Issuing(t1, Listed(t1.issuers), 0, 0), doc.issuers);
    if |t1.issuers| <= MAX_ISSUERS {
      ListedAll(t1.issuers);
    }
  }

  lemma SecondImport(rules: Rules, t1: Tenant, a: Issuing, c: Certifying, doc: Document, later: int)
    requires Issued(rules, t1, doc, false).Some?
    requires t1.issuers == a.t.issuers && t1.certs == c.t.certs
    requires t1.grants == ImportGrants(c.t.grants, a.known, c.known, doc.permissions)
    requires Extends(Listed(a.t.issuers), a.known) && KnownIssuers(a.known, a.t.issuers) && IdsUnique(a.t)
    requires Extends(ListedCerts(c.t.certs), c.known) && KnownCerts(c.known, c.t.certs) && IdsUnique(c.t)
    requires forall i :: 0 <= i < |doc.issuers| ==> Settled(a.t.issuers, doc.issuers[i])
    requires forall i :: 0 <= i < |doc.certs| && doc.certs[i].issuer.low in a.known ==> doc.certs[i].serial in c.t.certs
    requires forall i :: 0 <= i < |doc.secrets| ==> doc.secrets[i].name.low in t1.secrets
    ensures var (t2, report) := Import(rules, t1, doc, later, false);
      && t2 == t1 && report.Some? == WithinLimits(doc)
      && (report.Some? ==> report.value.issuersCreated == 0 && report.value.certsCreated == 0 && report.value.secretsCreated == 0)
  {
    var a2 := Issuing(t1, Listed(t1.issuers), 0, 0);
    SkipIssuersAgain(rules, a2, doc.issuers);
    var c2 := Certifying(t1, ListedCerts(t1.certs), 0, 0);
    SkipCertsAgain(c2, Listed(t1.issuers), doc.certs, later);
    GrantsAgain(c.t.grants, a.known, c.known, Listed(t1.issuers), ListedCerts(t1.certs), doc.permissions);
    SkipSecretsAgain(rules, Securing(t1, 0), doc.secrets);
    assert t1.(grants := t1.grants) == t1;
  }
}
