/** Tenant backups: the export document, and its import in skip or overwrite mode
    (internal/transfer/backup.go, internal/memstore/memstore.go). */
module Backup {
  import opened Common
  import opened Sealed

  /** low is the rank of the lower-cased name among all names; the empty name ranks 0. */
  datatype Name = Name(low: nat, text: string)

  const NO_NAME := Name(0, "")

  /** Settings sealed under the associated data of an id. */
  datatype Blob = Nothing | Blob(clear: Settings, ad: nat)

  datatype IssuerRow = IssuerRow(id: nat, name: Name, kind: string, domain: string, isDefault: bool, blob: Blob, public: Settings)

  /** info stands for the exported fields that no import changes. */
  datatype CertRow = CertRow(id: nat, issuer: nat, created: int, info: string, status: string, chain: string)

  datatype Resource = OfIssuer(id: nat) | OfCertificate(id: nat)

  datatype GrantKey = GrantKey(on: Resource, subjectType: string, subject: string)
  datatype GrantValue = GrantValue(relation: string, expires: Option<int>)

  datatype SecretRow = SecretRow(id: nat, name: Name, kind: string, blob: Blob)

  /** A tenant's rows, by the keys that are unique: issuers and secrets by lower-cased
      name, certificates by serial, grants by resource and subject. */
  datatype Tenant = Tenant(issuers: map<nat, IssuerRow>, certs: map<string, CertRow>, grants: map<GrantKey, GrantValue>,
                           secrets: map<nat, SecretRow>, nextId: nat)

  // ------------------------------------------------------------- the document

  datatype DocIssuer = DocIssuer(name: Name, kind: string, domain: string, isDefault: bool, settings: Settings, credentials: Settings)
  datatype DocCert = DocCert(serial: string, issuer: Name, info: string, status: string, chain: string)
  datatype Ref = IssuerRef(name: Name) | CertRef(serial: string)
  datatype DocPermission = DocPermission(on: Ref, subjectType: string, subject: string, value: GrantValue)

  /** value is None when the text is no settings object within the size limit. */
  datatype DocSecret = DocSecret(name: Name, kind: string, value: Option<Settings>)

  datatype Document = Document(issuers: seq<DocIssuer>, certs: seq<DocCert>, permissions: seq<DocPermission>, secrets: seq<DocSecret>)

  const MAX_ISSUERS := 1000
  const MAX_CERTS := 100000
  const MAX_SECRETS := 1000
  const MAX_GRANTS := 100000

  /** What is fixed for a run of the service: the credential fields, and which settings
      fit the size limit when encoded. */
  datatype Rules = Rules(secret: set<string>, fits: Settings -> bool)

  // ------------------------------------------------------------------ listings

  /** The issuers before k by name. */
  function Ahead(issuers: map<nat, IssuerRow>, k: nat): set<nat> {
    set j | j in issuers && j < k
  }

  /** The issuers a listing by name returns within its limit. */
  function Listed(issuers: map<nat, IssuerRow>): map<nat, nat> {
    map k | k in issuers && |Ahead(issuers, k)| < MAX_ISSUERS :: issuers[k].id
  }

  predicate Newer(a: CertRow, b: CertRow) {
    a.created > b.created || (a.created == b.created && a.id > b.id)
  }

  function AheadCerts(certs: map<string, CertRow>, k: string): set<string> {
    set j | j in certs && k in certs && Newer(certs[j], certs[k])
  }

  /** The certificates the newest-first walk returns within its bound. */
  function ListedCerts(certs: map<string, CertRow>): map<string, nat> {
    map k | k in certs && |AheadCerts(certs, k)| < MAX_CERTS :: certs[k].id
  }

  // -------------------------------------------------------------------- export

  /** openIssuer: an unsealed issuer opens to nothing, and a blob only under its own id. */
  function OpenIssuer(row: IssuerRow): Option<Settings> {
    if row.blob.Nothing? then Some(map[])
    else if row.blob.ad == row.id then Some(row.blob.clear)
    else None
  }

  function OpenSecret(row: SecretRow): Option<Settings> {
    if row.blob.Blob? && row.blob.ad == row.id then Some(row.blob.clear) else None
  }

  function ExportIssuer(rules: Rules, row: IssuerRow, credentials: bool): DocIssuer {
    DocIssuer(row.name, row.kind, row.domain, row.isDefault, PublicPart(row.public, rules.secret),
              if credentials && OpenIssuer(row).Some? then Credentials(OpenIssuer(row).value, rules.secret) else map[])
  }

  /** The name of a listed issuer by its id. */
  ghost predicate NameOf(t: Tenant, id: nat, name: Name) {
    if exists k :: k in Listed(t.issuers) && t.issuers[k].id == id
    then exists k :: k in Listed(t.issuers) && t.issuers[k].id == id && t.issuers[k].name == name
    else name == NO_NAME
  }

  ghost predicate ExportsIssuer(rules: Rules, t: Tenant, credentials: bool, d: DocIssuer) {
    exists k :: k in Listed(t.issuers) && d == ExportIssuer(rules, t.issuers[k], credentials)
  }

  ghost predicate ExportsCert(t: Tenant, d: DocCert) {
    && d.serial in ListedCerts(t.certs)
    && var row := t.certs[d.serial];
      NameOf(t, row.issuer, d.issuer) && d.info == row.info && d.status == row.status && d.chain == row.chain
  }

  ghost predicate ExportsPermission(t: Tenant, d: DocPermission) {
    match d.on
    case IssuerRef(name) => exists k :: (
      && k in Listed(t.issuers) && t.issuers[k].name == name
      && GrantKey(OfIssuer(t.issuers[k].id), d.subjectType, d.subject) in t.grants
      && t.grants[GrantKey(OfIssuer(t.issuers[k].id), d.subjectType, d.subject)] == d.value)
    case CertRef(serial) =>
      && serial in ListedCerts(t.certs)
      && GrantKey(OfCertificate(t.certs[serial].id), d.subjectType, d.subject) in t.grants
      && t.grants[GrantKey(OfCertificate(t.certs[serial].id), d.subjectType, d.subject)] == d.value
  }

  ghost predicate ExportsSecret(t: Tenant, d: DocSecret) {
    exists k :: k in t.secrets && d == DocSecret(t.secrets[k].name, t.secrets[k].kind, OpenSecret(t.secrets[k]))
  }

  /** The document Export builds, its entries in any order. With credentials there is
      none unless everything sealed opens. */
  ghost predicate IsExport(rules: Rules, t: Tenant, credentials: bool, doc: Document) {
    && (credentials ==> (forall k :: k in Listed(t.issuers) ==> OpenIssuer(t.issuers[k]).Some?))
    && (credentials ==> (forall k :: k in t.secrets ==> OpenSecret(t.secrets[k]).Some?))
    && Distinct(doc.issuers) && Distinct(doc.certs) && Distinct(doc.permissions) && Distinct(doc.secrets)
    && (forall d :: d in doc.issuers <==> ExportsIssuer(rules, t, credentials, d))
    && (forall d :: d in doc.certs <==> ExportsCert(t, d))
    && (forall d :: d in doc.permissions <==> ExportsPermission(t, d))
    && (forall d :: d in doc.secrets <==> credentials && ExportsSecret(t, d))
  }

  // -------------------------------------------------------------------- import

  /** The tenant being written, the ids by name, and the counts so far. */
  datatype Issuing = Issuing(t: Tenant, known: map<nat, nat>, created: nat, skipped: nat)

  /** Another issuer is already the default of the domain. */
  predicate DefaultClash(issuers: map<nat, IssuerRow>, low: nat, isDefault: bool, domain: string) {
    isDefault && exists k :: k in issuers && k != low && issuers[k].isDefault && issuers[k].domain == domain
  }

  function SealedRow(rules: Rules, row: IssuerRow, full: Settings): IssuerRow {
    row.(blob := Blob(full, row.id), public := Redacted(full, rules.secret))
  }

  /** The credentials an overwrite seals: the document's, or the stored ones when it has none. */
  function KeptCredentials(rules: Rules, row: IssuerRow, d: DocIssuer): Settings {
    if d.credentials != map[] then d.credentials
    else if OpenIssuer(row).Some? then Credentials(OpenIssuer(row).value, rules.secret)
    else map[]
  }

  function OverwriteIssuer(rules: Rules, a: Issuing, d: DocIssuer): Option<Issuing> {
    var low := d.name.low;
    if low !in a.t.issuers then None
    else
      var row := a.t.issuers[low];
      var full := d.settings + KeptCredentials(rules, row, d);
      if !rules.fits(full) || DefaultClash(a.t.issuers, low, d.isDefault, d.domain) then None
      else
        var row' := SealedRow(rules, row.(kind := d.kind, domain := d.domain, isDefault := d.isDefault), full);
        Some(a.(t := a.t.(issuers := a.t.issuers[low := row']), created := a.created + 1))
  }

  function InsertIssuer(rules: Rules, a: Issuing, d: DocIssuer): Option<Issuing> {
    var low := d.name.low;
    var full := d.settings + d.credentials;
    if !rules.fits(full) then None
    else if low in a.t.issuers || DefaultClash(a.t.issuers, low, d.isDefault, d.domain) then Some(a.(skipped := a.skipped + 1))
    else
      var id := a.t.nextId;
      var row := SealedRow(rules, IssuerRow(id, d.name, d.kind, d.domain, d.isDefault, Nothing, map[]), full);
      Some(Issuing(a.t.(issuers := a.t.issuers[low := row], nextId := id + 1), a.known[low := id], a.created + 1, a.skipped))
  }

  /** One issuer of the document; None fails the whole import. */
  function IssuerStep(rules: Rules, a: Issuing, d: DocIssuer, overwrite: bool): Option<Issuing> {
    if d.name.low !in a.known then InsertIssuer(rules, a, d)
    else if overwrite then OverwriteIssuer(rules, a, d)
    else Some(a.(skipped := a.skipped + 1))
  }

  function ImportIssuers(rules: Rules, a: Issuing, ds: seq<DocIssuer>, overwrite: bool): Option<Issuing> {
    if ds == [] then Some(a)
    else
      var before := ImportIssuers(rules, a, ds[..|ds| - 1], overwrite);
      if before.None? then None else IssuerStep(rules, before.value, ds[|ds| - 1], overwrite)
  }

  datatype Certifying = Certifying(t: Tenant, known: map<string, nat>, created: nat, skipped: nat)

  function CertStep(a: Certifying, issuers: map<nat, nat>, d: DocCert, now: int, overwrite: bool): Certifying {
    if d.issuer.low !in issuers then a.(skipped := a.skipped + 1)
    else if d.serial in a.known then
      if overwrite && d.serial in a.t.certs then
        var row := a.t.certs[d.serial].(status := d.status, chain := d.chain);
        a.(t := a.t.(certs := a.t.certs[d.serial := row]), created := a.created + 1)
      else a.(skipped := a.skipped + 1)
    else if d.serial in a.t.certs then a.(skipped := a.skipped + 1)
    else
      var id := a.t.nextId;
      var row := CertRow(id, issuers[d.issuer.low], now, d.info, d.status, d.chain);
      Certifying(a.t.(certs := a.t.certs[d.serial := row], nextId := id + 1), a.known[d.serial := id], a.created + 1, a.skipped)
  }

  function ImportCerts(a: Certifying, issuers: map<nat, nat>, ds: seq<DocCert>, now: int, overwrite: bool): Certifying {
    if ds == [] then a
    else CertStep(ImportCerts(a, issuers, ds[..|ds| - 1], now, overwrite), issuers, ds[|ds| - 1], now, overwrite)
  }

  /** The resource a reference stands for among the imported and existing ones. */
  function Resolve(on: Ref, issuers: map<nat, nat>, certs: map<string, nat>): Option<Resource> {
    match on
    case IssuerRef(name) => if name.low in issuers then Some(OfIssuer(issuers[name.low])) else None
    case CertRef(serial) => if serial in certs then Some(OfCertificate(certs[serial])) else None
  }

  function ImportGrants(grants: map<GrantKey, GrantValue>, issuers: map<nat, nat>, certs: map<string, nat>, ds: seq<DocPermission>): map<GrantKey, GrantValue> {
    if ds == [] then grants
    else
      var before := ImportGrants(grants, issuers, certs, ds[..|ds| - 1]);
      var d := ds[|ds| - 1];
      var on := Resolve(d.on, issuers, certs);
      if on.None? then before else before[GrantKey(on.value, d.subjectType, d.subject) := d.value]
  }

  /** How many permissions are written: those whose reference resolves. */
  function GrantsWritten(issuers: map<nat, nat>, certs: map<string, nat>, ds: seq<DocPermission>): nat {
    if ds == [] then 0
    else
      GrantsWritten(issuers, certs, ds[..|ds| - 1]) + if Resolve(ds[|ds| - 1].on, issuers, certs).None? then 0 else 1
  }

  datatype Securing = Securing(t: Tenant, created: nat)

  function SecretStep(rules: Rules, a: Securing, d: DocSecret, overwrite: bool): Option<Securing> {
    var low := d.name.low;
    if low in a.t.secrets && !overwrite then Some(a)
    else if d.value.None? || !rules.fits(d.value.value) then None
    else if low in a.t.secrets then
      var row := a.t.secrets[low];
      Some(a.(t := a.t.(secrets := a.t.secrets[low := row.(kind := d.kind, blob := Blob(d.value.value, row.id))])))
    else
      var id := a.t.nextId;
      var row := SecretRow(id, d.name, d.kind, Blob(d.value.value, id));
      Some(Securing(a.t.(secrets := a.t.secrets[low := row], nextId := id + 1), a.created + 1))
  }

  function ImportSecrets(rules: Rules, a: Securing, ds: seq<DocSecret>, overwrite: bool): Option<Securing> {
    if ds == [] then Some(a)
    else
      var before := ImportSecrets(rules, a, ds[..|ds| - 1], overwrite);
      if before.None? then None else SecretStep(rules, before.value, ds[|ds| - 1], overwrite)
  }

  datatype Report = Report(issuersCreated: nat, issuersSkipped: nat, certsCreated: nat, certsSkipped: nat,
                           grantsCreated: nat, secretsCreated: nat)

  predicate WithinLimits(doc: Document) {
    |doc.issuers| <= MAX_ISSUERS && |doc.certs| <= MAX_CERTS && |doc.secrets| <= MAX_SECRETS && |doc.permissions| <= MAX_GRANTS
  }

  /** The stages of an import, in the order they run. */
  function Issued(rules: Rules, t: Tenant, doc: Document, overwrite: bool): Option<Issuing> {
    ImportIssuers(rules, Issuing(t, Listed(t.issuers), 0, 0), doc.issuers, overwrite)
  }

  function Certified(a: Issuing, doc: Document, now: int, overwrite: bool): Certifying {
    ImportCerts(Certifying(a.t, ListedCerts(a.t.certs), 0, 0), a.known, doc.certs, now, overwrite)
  }

  function Granted(a: Issuing, c: Certifying, doc: Document): Tenant {
    c.t.(grants := ImportGrants(c.t.grants, a.known, c.known, doc.permissions))
  }

  /** Import: one transaction, so a failure changes nothing. */
  function Import(rules: Rules, t: Tenant, doc: Document, now: int, overwrite: bool): (Tenant, Option<Report>) {
    if !WithinLimits(doc) then (t, None)
    else
      var issued := Issued(rules, t, doc, overwrite);
      if issued.None? then (t, None)
      else
        var a := issued.value;
        var c := Certified(a, doc, now, overwrite);
        var s := ImportSecrets(rules, Securing(Granted(a, c, doc), 0), doc.secrets, overwrite);
        if s.None? then (t, None)
        else
          var g := GrantsWritten(a.known, c.known, doc.permissions);
          (s.value.t, Some(Report(a.created, a.skipped, c.created, c.skipped, g, s.value.created)))
  }
}
