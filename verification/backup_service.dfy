/** The import as it runs: loops that write the tenant's rows inside one transaction. */
module BackupService {
  import opened Common
  import opened Sealed
  import opened Backup
  import BackupModes

  class Service {
    var t: Tenant
    const rules: Rules

    constructor (rules: Rules, t: Tenant)
      ensures this.rules == rules && this.t == t
    {
      this.rules, this.t := rules, t;
    }

    /** Import: a failure restores what the transaction began with. */
    method Import(doc: Document, now: int, overwrite: bool) returns (report: Option<Report>)
      modifies this
      ensures (t, report) == Backup.Import(rules, old(t), doc, now, overwrite)
      ensures report.Some? && overwrite ==>
        forall i :: BackupModes.LastNamed(doc.secrets, i) ==> BackupModes.HoldsSecret(t.secrets, doc.secrets[i])
    {
      if Backup.Import(rules, t, doc, now, overwrite).1.Some? && overwrite {
        BackupModes.OverwriteSecrets(rules, t, doc, now);
      }
      if |doc.issuers| > MAX_ISSUERS || |doc.certs| > MAX_CERTS || |doc.secrets| > MAX_SECRETS || |doc.permissions| > MAX_GRANTS {
        return None;
      }
      var before := t;
      var issued := ImportIssuers(doc.issuers, overwrite);
      if issued.None? {
        t := before;
        return None;
      }
      var a := issued.value;
      var c := ImportCertificates(doc.certs, a.known, now, overwrite);
      var granted := ImportGrants(doc.permissions, a.known, c.known);
      var secured := ImportSecrets(doc.secrets, overwrite);
      if secured.None? {
        t := before;
        return None;
      }
      return Some(Report(a.created, a.skipped, c.created, c.skipped, granted, secured.value));
    }

    method ImportIssuers(ds: seq<DocIssuer>, overwrite: bool) returns (out: Option<Issuing>)
      modifies this
      ensures out == Backup.ImportIssuers(rules, Issuing(old(t), Listed(old(t).issuers), 0, 0), ds, overwrite)
      ensures out.Some? ==> t == out.value.t
    {
      var known: map<nat, nat> := Listed(t.issuers);
      var created: nat, skipped: nat := 0, 0;
      ghost var start := Issuing(t, known, 0, 0);
      for n := 0 to |ds|
        invariant Backup.ImportIssuers(rules, start, ds[..n], overwrite) == Some(Issuing(t, known, created, skipped))
      {
        var d := ds[n];
        ghost var a := Issuing(t, known, created, skipped);
        assert ds[..n + 1][..n] == ds[..n];
        assert Backup.ImportIssuers(rules, start, ds[..n + 1], overwrite) == IssuerStep(rules, a, d, overwrite);
        if d.name.low in known {
          if !overwrite {
            skipped := skipped + 1;
            continue;
          }
          var ok := Overwrite(d);
          if !ok {
            PrefixFails(rules, start, ds, n + 1, overwrite);
            return None;
          }
          created := created + 1;
          continue;
        }
        var full := d.settings + d.credentials;
        if !rules.fits(full) {
          PrefixFails(rules, start, ds, n + 1, overwrite);
          return None;
        }
        if d.name.low in t.issuers || DefaultClash(t.issuers, d.name.low, d.isDefault, d.domain) {
          skipped := skipped + 1;
          continue;
        }
        var id := t.nextId;
        var row := IssuerRow(id, d.name, d.kind, d.domain, d.isDefault, Blob(full, id), Redacted(full, rules.secret));
        t := t.(issuers := t.issuers[d.name.low := row], nextId := id + 1);
        known := known[d.name.low := id];
        created := created + 1;
      }
      assert ds[..|ds|] == ds;
      out := Some(Issuing(t, known, created, skipped));
    }

    /** A duplicate in overwrite mode; a document without credentials keeps the stored ones. */
    method Overwrite(d: DocIssuer) returns (ok: bool)
      modifies this
      ensures forall known, created: nat, skipped: nat :: var b := OverwriteIssuer(rules, Issuing(old(t), known, created, skipped), d);
        ok == b.Some? && (ok ==> b.value == Issuing(t, known, created + 1, skipped))
    {
      if d.name.low !in t.issuers {
        return false;
      }
      var row := t.issuers[d.name.low];
      var creds := d.credentials;
      if creds == map[] {
        var clear := OpenIssuer(row);
        if clear.Some? {
          creds := Credentials(clear.value, rules.secret);
        }
      }
      var full := d.settings + creds;
      if !rules.fits(full) || DefaultClash(t.issuers, d.name.low, d.isDefault, d.domain) {
        return false;
      }
      row := row.(kind := d.kind, domain := d.domain, isDefault := d.isDefault, blob := Blob(full, row.id), public := Redacted(full, rules.secret));
      t := t.(issuers := t.issuers[d.name.low := row]);
      return true;
    }

    method ImportCertificates(ds: seq<DocCert>, issuers: map<nat, nat>, now: int, overwrite: bool) returns (out: Certifying)
      modifies this
      ensures out == ImportCerts(Certifying(old(t), ListedCerts(old(t).certs), 0, 0), issuers, ds, now, overwrite) && t == out.t
    {
      var known: map<string, nat> := ListedCerts(t.certs);
      var created: nat, skipped: nat := 0, 0;
      ghost var start := Certifying(t, known, 0, 0);
      for n := 0 to |ds|
        invariant ImportCerts(start, issuers, ds[..n], now, overwrite) == Certifying(t, known, created, skipped)
      {
        var d := ds[n];
        assert ds[..n + 1][..n] == ds[..n];
        if d.issuer.low !in issuers {
          skipped := skipped + 1;
          continue;
        }
        if d.serial in known {
          if !overwrite || d.serial !in t.certs {
            skipped := skipped + 1;
            continue;
          }
          t := t.(certs := t.certs[d.serial := t.certs[d.serial].(status := d.status, chain := d.chain)]);
          created := created + 1;
          continue;
        }
        if d.serial in t.certs {
          skipped := skipped + 1;
          continue;
        }
        var id := t.nextId;
        t := t.(certs := t.certs[d.serial := CertRow(id, issuers[d.issuer.low], now, d.info, d.status, d.chain)], nextId := id + 1);
        known := known[d.serial := id];
        created := created + 1;
      }
      assert ds[..|ds|] == ds;
      out := Certifying(t, known, created, skipped);
    }

    method ImportGrants(ds: seq<DocPermission>, issuers: map<nat, nat>, certs: map<string, nat>) returns (created: nat)
      modifies this
      ensures t == old(t).(grants := Backup.ImportGrants(old(t).grants, issuers, certs, ds))
      ensures created == GrantsWritten(issuers, certs, ds)
    {
      created := 0;
      for n := 0 to |ds|
        invariant t == old(t).(grants := Backup.ImportGrants(old(t).grants, issuers, certs, ds[..n]))
        invariant created == GrantsWritten(issuers, certs, ds[..n])
      {
        assert ds[..n + 1][..n] == ds[..n];
        var on := Resolve(ds[n].on, issuers, certs);
        if on.None? {
          continue;
        }
        t := t.(grants := t.grants[GrantKey(on.value, ds[n].subjectType, ds[n].subject) := ds[n].value]);
        created := created + 1;
      }
      assert ds[..|ds|] == ds;
    }

    method ImportSecrets(ds: seq<DocSecret>, overwrite: bool) returns (created: Option<nat>)
      modifies this
      ensures var s := Backup.ImportSecrets(rules, Securing(old(t), 0), ds, overwrite);
        created.Some? == s.Some? && (s.Some? ==> t == s.value.t && created.value == s.value.created)
    {
      var count := 0;
      ghost var start := Securing(t, 0);
      for n := 0 to |ds|
        invariant Backup.ImportSecrets(rules, start, ds[..n], overwrite) == Some(Securing(t, count))
      {
        var d := ds[n];
        assert ds[..n + 1][..n] == ds[..n];
        if d.name.low in t.secrets && !overwrite {
          continue;
        }
        if d.value.None? || !rules.fits(d.value.value) {
          SecretPrefixFails(rules, start, ds, n + 1, overwrite);
          return None;
        }
        if d.name.low in t.secrets {
          var row := t.secrets[d.name.low];
          t := t.(secrets := t.secrets[d.name.low := row.(kind := d.kind, blob := Blob(d.value.value, row.id))]);
          continue;
        }
        var id := t.nextId;
        t := t.(secrets := t.secrets[d.name.low := SecretRow(id, d.name, d.kind, Blob(d.value.value, id))], nextId := id + 1);
        count := count + 1;
      }
      assert ds[..|ds|] == ds;
      created := Some(count);
    }
  }

  lemma {:induction false} PrefixFails(rules: Rules, a: Issuing, ds: seq<DocIssuer>, n: nat, overwrite: bool)
    requires n <= |ds| && ImportIssuers(rules, a, ds[..n], overwrite).None?
    ensures ImportIssuers(rules, a, ds, overwrite).None?
  {
    if n == |ds| {
      assert ds[..n] == ds;
    } else {
      assert ds[..|ds| - 1][..n] == ds[..n];
      PrefixFails(rules, a, ds[..|ds| - 1], n, overwrite);
    }
  }

  lemma {:induction false} SecretPrefixFails(rules: Rules, a: Securing, ds: seq<DocSecret>, n: nat, overwrite: bool)
    requires n <= |ds| && ImportSecrets(rules, a, ds[..n], overwrite).None?
    ensures ImportSecrets(rules, a, ds, overwrite).None?
  {
    if n == |ds| {
      assert ds[..n] == ds;
    } else {
      assert ds[..|ds| - 1][..n] == ds[..n];
      SecretPrefixFails(rules, a, ds[..|ds| - 1], n, overwrite);
    }
  }
}
