/** Relations, grants and what they permit (internal/authz/authz.go,
    internal/authz/grants.go). */
module Authz {
  import opened Common

  datatype Permission = Read | Write | Delete | Share | Use

  /** Unknown stands for every text that is no relation, the empty one included. */
  datatype Relation = Unknown | Viewer | Sharer | Editor | Owner

  datatype ResourceType = Certificate | Issuer | OtherType
  datatype SubjectType = User | Role | Tenant | OtherSubject

  datatype Resource = Resource(tenant: string, kind: ResourceType, id: string)

  datatype Grant = Grant(on: Resource, subjectType: SubjectType, subject: string, relation: Relation, expires: Option<int>)

  /** The caller; a service has its own id, no user id and no roles. */
  datatype Subjects = Subjects(tenant: string, user: string, roles: seq<string>, service: string)

  function ActorId(s: Subjects): string {
    if s.service != "" then s.service else s.user
  }

  datatype Error = Forbidden | NotFound | Input | AboveGranter

  function Of(relation: Relation): set<Permission> {
    match relation
    case Owner => {Read, Write, Delete, Share, Use}
    case Editor => {Read, Write, Use}
    case Viewer => {Read}
    case Sharer => {Read, Share, Use}
    case Unknown => {}
  }

  function Rank(relation: Relation): nat {
    match relation
    case Owner => 4
    case Editor => 3
    case Sharer => 2
    case Viewer => 1
    case Unknown => 0
  }

  const ADMIN_ROLES := ["owner", "admin"]

  predicate IsAdmin(s: Subjects) {
    exists r :: r in s.roles && r in ADMIN_ROLES
  }

  predicate Expired(g: Grant, now: int) {
    g.expires.Some? && g.expires.value <= now
  }

  predicate ForSubject(g: Grant, s: Subjects) {
    match g.subjectType
    case User => s.user != "" && g.subject == s.user
    case Role => g.subject in s.roles
    case Tenant => true
    case OtherSubject => false
  }

  predicate Matches(g: Grant, s: Subjects, now: int) {
    !Expired(g, now) && ForSubject(g, s)
  }

  // --------------------------------------------------------------- meaning

  datatype State = State(resources: set<Resource>, grants: map<nat, Grant>)

  /** Grant id applies to the subjects on the resource. */
  predicate Applies(grants: map<nat, Grant>, id: nat, s: Subjects, r: Resource, now: int) {
    id in grants && grants[id].on == r && Matches(grants[id], s, now)
  }

  /** The subjects hold permission p on the resource. */
  predicate Holds(grants: map<nat, Grant>, s: Subjects, r: Resource, p: Permission, now: int) {
    IsAdmin(s) || exists id :: id in grants && Applies(grants, id, s, r, now) && p in Of(grants[id].relation)
  }

  /** They hold a relation of at least rank n there. */
  predicate HoldsRank(grants: map<nat, Grant>, s: Subjects, r: Resource, n: nat, now: int) {
    IsAdmin(s) || n == 0 || exists id :: id in grants && Applies(grants, id, s, r, now) && Rank(grants[id].relation) >= n
  }

  predicate Allowed(st: State, s: Subjects, r: Resource, p: Permission, now: int) {
    r.tenant == s.tenant && r in st.resources && Holds(st.grants, s, r, p, now)
  }

  // -------------------------------------------------------------- requests

  datatype GrantInput = GrantInput(kind: ResourceType, id: string, subjectType: SubjectType, subject: string,
                                   relation: Relation, expires: Option<int>)

  predicate ValidInput(input: GrantInput, now: int) {
    && input.kind != OtherType && input.subjectType != OtherSubject && input.relation != Unknown && input.id != ""
    && (if input.subjectType == Tenant then input.subject == "" else 0 < |input.subject| <= 128)
    && (input.expires.Some? ==> input.expires.value > now)
  }

  function GrantOf(s: Subjects, input: GrantInput): Grant {
    Grant(Resource(s.tenant, input.kind, input.id), input.subjectType, input.subject, input.relation, input.expires)
  }

  /** A request is refused as invalid exactly for an unknown type, subject type or relation,
      an empty id, a tenant subject that is named, a user or role that is not or is longer
      than 128, or an end that has passed. */
  lemma InvalidInput(input: GrantInput, now: int)
    ensures !ValidInput(input, now) <==>
      || input.kind == OtherType || input.subjectType == OtherSubject || input.relation == Unknown || input.id == ""
      || (input.subjectType == Tenant && input.subject != "")
      || (input.subjectType != Tenant && (input.subject == "" || |input.subject| > 128))
      || (input.expires.Some? && input.expires.value <= now)
  {
  }

  /** When Grant succeeds. */
  predicate MayGrant(st: State, s: Subjects, input: GrantInput, now: int) {
    var r := Resource(s.tenant, input.kind, input.id);
    && ValidInput(input, now)
    && Allowed(st, s, r, Share, now)
    && HoldsRank(st.grants, s, r, Rank(input.relation), now)
  }

  predicate MayRevoke(st: State, s: Subjects, id: nat, now: int) {
    && id in st.grants && st.grants[id].on.tenant == s.tenant
    && Allowed(st, s, st.grants[id].on, Share, now)
  }

  predicate SameKey(a: Grant, b: Grant) {
    a.on == b.on && a.subjectType == b.subjectType && a.subject == b.subject
  }

  /** At most one grant per resource and subject. */
  ghost predicate UniqueKeys(grants: map<nat, Grant>) {
    forall a, b :: a in grants && b in grants && SameKey(grants[a], grants[b]) ==> a == b
  }

  /** grants' is grants with g in place of the grant of its key, or under the new id. */
  ghost predicate Upserted(grants: map<nat, Grant>, g: Grant, id: nat, grants': map<nat, Grant>) {
    exists at :: Replaces(grants, g, id, at) && grants' == grants[at := g]
  }

  ghost predicate Replaces(grants: map<nat, Grant>, g: Grant, id: nat, at: nat) {
    if at in grants then SameKey(grants[at], g)
    else at == id && forall k :: k in grants ==> !SameKey(grants[k], g)
  }

  /** The resource's grants removed. */
  function Dropped(grants: map<nat, Grant>, r: Resource): map<nat, Grant> {
    map id | id in grants && grants[id].on != r :: grants[id]
  }

  // ----------------------------------------------------- who may do what, when

  /** Which relations carry a permission. */
  lemma PermissionsOf(relation: Relation)
    ensures Read in Of(relation) <==> relation in {Viewer, Sharer, Editor, Owner}
    ensures Write in Of(relation) <==> relation in {Editor, Owner}
    ensures Delete in Of(relation) <==> relation == Owner
    ensures Share in Of(relation) <==> relation in {Sharer, Owner}
    ensures Use in Of(relation) <==> relation in {Sharer, Editor, Owner}
  {
  }

  /** The grant names the caller: their own user id, which is not empty, one of their
      roles, or the whole tenant. */
  predicate Names(g: Grant, s: Subjects) {
    || (g.subjectType == User && g.subject == s.user && s.user != "")
    || (g.subjectType == Role && g.subject in s.roles)
    || g.subjectType == Tenant
  }

  /** The grant has not ended: it never does, or later than now. */
  predicate Runs(g: Grant, now: int) {
    g.expires.None? || now < g.expires.value
  }

  lemma AdminIs(s: Subjects)
    ensures IsAdmin(s) <==> "owner" in s.roles || "admin" in s.roles
  {
    if "owner" in s.roles {
      assert "owner" in ADMIN_ROLES;
    }
    if "admin" in s.roles {
      assert "admin" in ADMIN_ROLES;
    }
  }

  /** A caller holds a permission exactly as an owner or admin of the tenant, or by a grant
      on the resource that carries it, names the caller and has not ended. */
  lemma HoldsMeans(grants: map<nat, Grant>, s: Subjects, r: Resource, p: Permission, now: int)
    ensures Holds(grants, s, r, p, now) <==>
      || "owner" in s.roles || "admin" in s.roles
      || exists id :: id in grants && grants[id].on == r && p in Of(grants[id].relation) && Names(grants[id], s) && Runs(grants[id], now)
  {
    AdminIs(s);
    if id :| id in grants && Applies(grants, id, s, r, now) && p in Of(grants[id].relation) {
      assert Names(grants[id], s);
    }
    if id :| id in grants && grants[id].on == r && p in Of(grants[id].relation) && Names(grants[id], s) && Runs(grants[id], now) {
      assert Applies(grants, id, s, r, now);
    }
  }

  /** An id is listed exactly by a grant of the tenant on it that carries read, names the
      caller and has not ended. */
  lemma AccessibleMeans(grants: map<nat, Grant>, s: Subjects, kind: ResourceType, x: string, now: int)
    ensures x in AccessibleIds(grants, s, kind, now) <==>
      exists id :: id in grants && grants[id].on == Resource(s.tenant, kind, x) && Read in Of(grants[id].relation) && Names(grants[id], s) && Runs(grants[id], now)
  {
    if x in AccessibleIds(grants, s, kind, now) {
      var id :| id in grants && Listed(grants, id, s, now) && grants[id].on.kind == kind && Read in Of(grants[id].relation) && grants[id].on.id == x;
      assert grants[id].on == Resource(s.tenant, kind, x) && Names(grants[id], s);
    }
    if id :| id in grants && grants[id].on == Resource(s.tenant, kind, x) && Read in Of(grants[id].relation) && Names(grants[id], s) && Runs(grants[id], now) {
      assert Listed(grants, id, s, now);
    }
  }

  /** The caller acts under its service id when it has one, else under its user id. */
  lemma ActorIs(s: Subjects)
    ensures s.service != "" ==> ActorId(s) == s.service
    ensures s.service == "" ==> ActorId(s) == s.user
  {
  }

  /** Nothing in another tenant is ever allowed or listed, whatever grants and roles say. */
  lemma OtherTenants(st: State, s: Subjects, r: Resource, p: Permission, now: int)
    requires r.tenant != s.tenant
    ensures !Allowed(st, s, r, p, now)
    ensures forall id :: id in st.grants && st.grants[id].on == r ==> !MayRevoke(st, s, id, now)
    ensures r.id in AccessibleIds(st.grants, s, r.kind, now) ==>
      exists id :: id in st.grants && st.grants[id].on == Resource(s.tenant, r.kind, r.id)
  {
    AccessibleMeans(st.grants, s, r.kind, r.id, now);
  }

  /** A permission that rests on grants ends with the last of them: without a new write
      nothing is held later that is not held now. */
  lemma AccessEnds(grants: map<nat, Grant>, s: Subjects, r: Resource, p: Permission, now: int, later: int)
    requires now <= later && Holds(grants, s, r, p, later)
    ensures Holds(grants, s, r, p, now)
  {
    HoldsMeans(grants, s, r, p, later);
    HoldsMeans(grants, s, r, p, now);
  }

  // --------------------------------------------------------- confinement

  /** A relation within a held rank, with share, adds nothing to what is held. */
  lemma RankCovers(held: Relation, given: Relation)
    requires Rank(given) <= Rank(held)
    ensures Of(given) <= Of(held) + {Share}
  {
  }

  /** Whoever may grant a relation holds every permission it carries. */
  lemma GranterHolds(st: State, s: Subjects, input: GrantInput, now: int, p: Permission)
    requires MayGrant(st, s, input, now) && p in Of(input.relation)
    ensures Holds(st.grants, s, Resource(s.tenant, input.kind, input.id), p, now)
  {
    var r := Resource(s.tenant, input.kind, input.id);
    if !IsAdmin(s) {
      var id :| id in st.grants && Applies(st.grants, id, s, r, now) && Rank(st.grants[id].relation) >= Rank(input.relation);
      RankCovers(st.grants[id].relation, input.relation);
    }
  }

  /** Granting gives nobody a permission that neither they nor the granter had there,
      and changes nothing on any other resource. */
  lemma GrantConfined(st: State, s: Subjects, input: GrantInput, now: int, id: nat, grants': map<nat, Grant>,
                      u: Subjects, r: Resource, p: Permission, later: int)
    requires MayGrant(st, s, input, now) && Upserted(st.grants, GrantOf(s, input), id, grants') && now <= later
    requires Holds(grants', u, r, p, later)
    ensures Holds(st.grants, u, r, p, later)
      || (r == GrantOf(s, input).on && p in Of(input.relation) && Holds(st.grants, s, r, p, now))
  {
    var g := GrantOf(s, input);
    var at :| Replaces(st.grants, g, id, at) && grants' == st.grants[at := g];
    if !IsAdmin(u) {
      var k :| k in grants' && Applies(grants', k, u, r, later) && p in Of(grants'[k].relation);
      if k == at {
        GranterHolds(st, s, input, now, p);
      } else {
        assert Applies(st.grants, k, u, r, later);
      }
    }
  }

  lemma UpsertKeepsUnique(grants: map<nat, Grant>, g: Grant, id: nat, grants': map<nat, Grant>)
    requires UniqueKeys(grants) && Upserted(grants, g, id, grants')
    ensures UniqueKeys(grants')
  {
    var at :| Replaces(grants, g, id, at) && grants' == grants[at := g];
  }

  predicate ForKey(g: Grant, on: Resource, subjectType: SubjectType, subject: string) {
    g.on == on && g.subjectType == subjectType && g.subject == subject
  }

  /** An upsert leaves one grant for its resource and subject, with its own relation and
      end, and every grant of another resource or subject as it was. */
  lemma UpsertMeans(grants: map<nat, Grant>, g: Grant, id: nat, grants': map<nat, Grant>)
    requires UniqueKeys(grants) && Upserted(grants, g, id, grants')
    ensures exists at :: at in grants' && grants'[at] == g
    ensures forall k :: k in grants' && ForKey(grants'[k], g.on, g.subjectType, g.subject) ==> grants'[k].relation == g.relation && grants'[k].expires == g.expires
    ensures forall k :: k in grants && !ForKey(grants[k], g.on, g.subjectType, g.subject) ==> k in grants' && grants'[k] == grants[k]
    ensures forall k :: k in grants' && !ForKey(grants'[k], g.on, g.subjectType, g.subject) ==> k in grants && grants'[k] == grants[k]
  {
    var at :| Replaces(grants, g, id, at) && grants' == grants[at := g];
    assert grants'[at] == g;
  }

  /** What a successful Grant leaves its subject with: the relation asked for, on the
      resource asked for in the caller's tenant, until the end asked for. */
  lemma GivenMeans(grants: map<nat, Grant>, s: Subjects, input: GrantInput, id: nat, grants': map<nat, Grant>, u: Subjects, p: Permission, now: int)
    requires UniqueKeys(grants) && Upserted(grants, GrantOf(s, input), id, grants')
    requires match input.subjectType
      case User => u.user == input.subject && u.user != ""
      case Role => input.subject in u.roles
      case Tenant => true
      case OtherSubject => false
    ensures p in Of(input.relation) && (input.expires.None? || now < input.expires.value) ==>
      Holds(grants', u, Resource(s.tenant, input.kind, input.id), p, now)
    ensures var given := Grant(Resource(s.tenant, input.kind, input.id), input.subjectType, input.subject, input.relation, input.expires);
      exists at :: at in grants' && grants'[at] == given
  {
    var g := GrantOf(s, input);
    UpsertMeans(grants, g, id, grants');
    var at :| at in grants' && grants'[at] == g;
    HoldsMeans(grants', u, g.on, p, now);
    assert Names(grants'[at], u);
  }

  // ------------------------------------------------------ reading and lists

  /** The grants GrantsForSubjects returns: the tenant's that match. */
  predicate Listed(grants: map<nat, Grant>, id: nat, s: Subjects, now: int) {
    id in grants && grants[id].on.tenant == s.tenant && Matches(grants[id], s, now)
  }

  function AccessibleIds(grants: map<nat, Grant>, s: Subjects, kind: ResourceType, now: int): set<string> {
    set id | id in grants && Listed(grants, id, s, now) && grants[id].on.kind == kind && Read in Of(grants[id].relation)
           :: grants[id].on.id
  }

  /** A grant the subjects could read by, on a resource that is gone. */
  ghost predicate Stray(st: State, id: nat, s: Subjects, kind: ResourceType, now: int) {
    && id in st.grants && Listed(st.grants, id, s, now) && st.grants[id].on.kind == kind
    && Read in Of(st.grants[id].relation) && st.grants[id].on !in st.resources
  }

  ghost predicate NoDangling(st: State) {
    forall id :: id in st.grants ==> st.grants[id].on in st.resources
  }

  /** What Check allows is always listed. */
  lemma ReadableListed(st: State, s: Subjects, kind: ResourceType, id: string, now: int)
    requires !IsAdmin(s) && Allowed(st, s, Resource(s.tenant, kind, id), Read, now)
    ensures id in AccessibleIds(st.grants, s, kind, now)
  {
    var r := Resource(s.tenant, kind, id);
    var k :| k in st.grants && Applies(st.grants, k, s, r, now) && Read in Of(st.grants[k].relation);
    assert Listed(st.grants, k, s, now);
  }

  /** The listing filter is exactly what Check allows, unless a grant readable by the
      subjects is left on a resource that is gone. */
  lemma ListExact(st: State, s: Subjects, kind: ResourceType, now: int)
    requires !IsAdmin(s)
    ensures (forall id: string :: id in AccessibleIds(st.grants, s, kind, now) <==> Allowed(st, s, Resource(s.tenant, kind, id), Read, now))
      <==> !exists k :: Stray(st, k, s, kind, now)
  {
    forall k | Stray(st, k, s, kind, now)
      ensures exists id: string :: id in AccessibleIds(st.grants, s, kind, now) && !Allowed(st, s, Resource(s.tenant, kind, id), Read, now)
    {
      var id := st.grants[k].on.id;
      assert st.grants[k].on == Resource(s.tenant, kind, id);
      assert id in AccessibleIds(st.grants, s, kind, now);
    }
    forall id: string | Allowed(st, s, Resource(s.tenant, kind, id), Read, now) ensures id in AccessibleIds(st.grants, s, kind, now) {
      ReadableListed(st, s, kind, id, now);
    }
    if !exists k :: Stray(st, k, s, kind, now) {
      forall id: string | id in AccessibleIds(st.grants, s, kind, now) ensures Allowed(st, s, Resource(s.tenant, kind, id), Read, now) {
        var k :| k in st.grants && Listed(st.grants, k, s, now) && st.grants[k].on.kind == kind && Read in Of(st.grants[k].relation) && st.grants[k].on.id == id;
        assert st.grants[k].on == Resource(s.tenant, kind, id);
        assert !Stray(st, k, s, kind, now);
        assert Applies(st.grants, k, s, Resource(s.tenant, kind, id), now);
      }
    }
  }
}
