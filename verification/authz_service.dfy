/** The authorizer over its grant table, as it runs (internal/authz/authz.go,
    internal/authz/grants.go, internal/memstore/memstore.go). */
module AuthzService {
  import opened Common
  import opened Authz
  import AuthzRuns

  /** The strongest relation among the matching grants; Owner for an administrator. */
  ghost predicate Strongest(s: Subjects, grants: seq<Grant>, now: int, relation: Relation) {
    && (IsAdmin(s) ==> relation == Owner)
    && (forall g :: g in grants && Matches(g, s, now) ==> Rank(g.relation) <= Rank(relation))
    && (relation == Unknown || IsAdmin(s) || exists g :: g in grants && Matches(g, s, now) && g.relation == relation)
  }

  ghost predicate Union(s: Subjects, grants: seq<Grant>, now: int, perms: set<Permission>) {
    forall p :: p in perms <==> IsAdmin(s) || exists g :: g in grants && Matches(g, s, now) && p in Of(g.relation)
  }

  function Sources(s: Subjects, grants: seq<Grant>, now: int): seq<Grant> {
    if grants == [] then [] else
      var rest := Sources(s, grants[..|grants| - 1], now);
      if Matches(grants[|grants| - 1], s, now) then rest + [grants[|grants| - 1]] else rest
  }

  lemma OwnerHasAll()
    ensures forall p: Permission :: p in Of(Owner)
  {
    forall p: Permission ensures p in Of(Owner) {
      assert p == Read || p == Write || p == Delete || p == Share || p == Use;
    }
  }

  /** The effective permissions, the strongest relation and the contributing grants. */
  method Decide(s: Subjects, grants: seq<Grant>, now: int) returns (perms: set<Permission>, relation: Relation, sources: seq<Grant>)
    ensures Union(s, grants, now, perms)
    ensures Strongest(s, grants, now, relation)
    ensures sources == Sources(s, grants, now)
    ensures forall p :: p in perms <==> "owner" in s.roles || "admin" in s.roles || exists g :: g in grants && Names(g, s) && Runs(g, now) && p in Of(g.relation)
    ensures forall g :: g in sources <==> g in grants && Names(g, s) && Runs(g, now)
  {
    perms, relation, sources := {}, Unknown, [];
    if IsAdmin(s) {
      perms, relation := Of(Owner), Owner;
    }
    OwnerHasAll();
    for n := 0 to |grants|
      invariant Union(s, grants[..n], now, perms)
      invariant Strongest(s, grants[..n], now, relation)
      invariant sources == Sources(s, grants[..n], now)
    {
      var g := grants[n];
      assert grants[..n + 1] == grants[..n] + [g];
      assert grants[..n + 1][..n] == grants[..n];
      if !Matches(g, s, now) {
        continue;
      }
      perms := perms + Of(g.relation);
      if Rank(g.relation) > Rank(relation) {
        relation := g.relation;
      }
      sources := sources + [g];
    }
    assert grants[..|grants|] == grants;
    DecisionMeans(s, grants, now, perms);
    forall g ensures g in sources <==> g in grants && Names(g, s) && Runs(g, now) {
      SourcesAre(s, grants, now, g);
    }
  }

  lemma {:induction false} SourcesAre(s: Subjects, grants: seq<Grant>, now: int, g: Grant)
    ensures g in Sources(s, grants, now) <==> g in grants && Names(g, s) && Runs(g, now)
  {
    if grants != [] {
      SourcesAre(s, grants[..|grants| - 1], now, g);
    }
  }

  lemma DecisionMeans(s: Subjects, grants: seq<Grant>, now: int, perms: set<Permission>)
    requires Union(s, grants, now, perms)
    ensures forall p :: p in perms <==> "owner" in s.roles || "admin" in s.roles || exists g :: g in grants && Names(g, s) && Runs(g, now) && p in Of(g.relation)
  {
    AdminIs(s);
    assert forall g :: Matches(g, s, now) <==> Names(g, s) && Runs(g, now);
    hide IsAdmin, Matches, Names, Runs;
  }

  class Authorizer {
    var resources: set<Resource>
    var grants: map<nat, Grant>

    constructor ()
      ensures resources == {} && grants == map[]
    {
      resources, grants := {}, map[];
    }

    ghost function Value(): State
      reads this
    {
      State(resources, grants)
    }

    /** In some order; only the explanation of a decision shows it. */
    method GrantsOnResource(r: Resource) returns (found: seq<Grant>)
      ensures forall g :: g in found <==> exists id :: id in grants && grants[id] == g && g.on == r
    {
      found := [];
      var left := grants.Keys;
      while left != {}
        invariant left <= grants.Keys
        invariant forall g :: g in found <==> exists id :: id in grants && id !in left && grants[id] == g && g.on == r
        decreases |left|
      {
        var id :| id in left;
        ghost var before, was := left, found;
        left := left - {id};
        if grants[id].on == r {
          found := found + [grants[id]];
        }
        forall g ensures g in found <==> exists k :: k in grants && k !in left && grants[k] == g && g.on == r {
          if g in was {
            var k :| k in grants && k !in before && grants[k] == g && g.on == r;
            assert k !in left;
          }
        }
      }
    }

    /** Locate, then decide; a resource outside the tenant is not found. */
    method Resolve(s: Subjects, r: Resource, now: int) returns (error: Option<Error>, perms: set<Permission>, held: Relation)
      requires r.tenant == s.tenant
      ensures error == if r in resources then None else Some(NotFound)
      ensures r in resources ==> forall p :: p in perms <==> Holds(grants, s, r, p, now)
      ensures r in resources ==> forall n: nat :: n <= 4 ==> (n <= Rank(held) <==> HoldsRank(grants, s, r, n, now))
    {
      perms, held := {}, Unknown;
      if r !in resources {
        return Some(NotFound), perms, held;
      }
      var found := GrantsOnResource(r);
      var sources;
      perms, held, sources := Decide(s, found, now);
      forall p ensures p in perms <==> Holds(grants, s, r, p, now) {
        UnionIsHolds(grants, found, s, r, p, now);
      }
      forall n: nat | n <= 4 ensures n <= Rank(held) <==> HoldsRank(grants, s, r, n, now) {
        StrongestIsRank(grants, found, s, r, n, now, held);
      }
      error := None;
    }

    /** None stands for an action that is no permission. */
    method Check(s: Subjects, kind: ResourceType, id: string, action: Option<Permission>, now: int) returns (error: Option<Error>)
      ensures var r := Resource(s.tenant, kind, id);
        error == if kind == OtherType || action.None? then Some(Input)
                 else if r !in resources then Some(NotFound)
                 else if !Holds(grants, s, r, action.value, now) then Some(Forbidden)
                 else None
      ensures error.None? && "owner" !in s.roles && "admin" !in s.roles ==> exists g ::
        g in grants && grants[g].on == Resource(s.tenant, kind, id) && action.value in Of(grants[g].relation) && Names(grants[g], s) && Runs(grants[g], now)
    {
      if action.Some? {
        HoldsMeans(grants, s, Resource(s.tenant, kind, id), action.value, now);
      }
      if kind == OtherType || action.None? {
        return Some(Input);
      }
      var perms, held;
      error, perms, held := Resolve(s, Resource(s.tenant, kind, id), now);
      if error.Some? {
        return error;
      }
      if action.value !in perms {
        return Some(Forbidden);
      }
      return None;
    }

    /** The ids of a kind the subjects may read, or all of them for an administrator. */
    method ListAccessibleIDs(s: Subjects, kind: ResourceType, now: int) returns (ids: set<string>, all: bool, error: Option<Error>)
      ensures error == if kind == OtherType then Some(Input) else None
      ensures error.None? ==> all == IsAdmin(s)
      ensures error.None? && !all ==> ids == AccessibleIds(grants, s, kind, now)
    {
      ids, all, error := {}, false, None;
      if kind == OtherType {
        return ids, all, Some(Input);
      }
      if IsAdmin(s) {
        return ids, true, None;
      }
      var left := grants.Keys;
      while left != {}
        invariant left <= grants.Keys
        invariant forall id :: id in grants && id !in left && Readable(grants[id], s, kind, now) ==> grants[id].on.id in ids
        invariant forall x :: x in ids ==> exists id :: id in grants && id !in left && Readable(grants[id], s, kind, now) && grants[id].on.id == x
        decreases |left|
      {
        var id :| id in left;
        ghost var before, was := left, ids;
        left := left - {id};
        if Readable(grants[id], s, kind, now) {
          ids := ids + {grants[id].on.id};
        }
        forall x | x in ids ensures exists k :: k in grants && k !in left && Readable(grants[k], s, kind, now) && grants[k].on.id == x {
          if x in was {
            var k :| k in grants && k !in before && Readable(grants[k], s, kind, now) && grants[k].on.id == x;
            assert k !in left;
          }
        }
      }
      forall x ensures x in ids <==> x in AccessibleIds(grants, s, kind, now) {
        if x in ids {
          var id :| id in grants && Readable(grants[id], s, kind, now) && grants[id].on.id == x;
          assert Listed(grants, id, s, now);
        }
      }
    }

    /** The loop ends at the first grant of the same key. */
    method UpsertGrant(g: Grant, id: nat)
      requires id !in grants
      modifies this`grants
      ensures Upserted(old(grants), g, id, grants)
    {
      var left := grants.Keys;
      while left != {}
        invariant left <= grants.Keys
        invariant grants == old(grants)
        invariant forall k :: k in grants && k !in left ==> !SameKey(grants[k], g)
        decreases |left|
      {
        var at :| at in left;
        left := left - {at};
        if SameKey(grants[at], g) {
          assert Replaces(grants, g, id, at);
          grants := grants[at := grants[at].(relation := g.relation, expires := g.expires)];
          return;
        }
      }
      assert Replaces(grants, g, id, id);
      grants := grants[id := g];
    }

    method Give(s: Subjects, input: GrantInput, id: nat, now: int) returns (error: Option<Error>)
      requires id !in grants
      modifies this`grants
      ensures error.None? <==> old(MayGrant(Value(), s, input, now))
      ensures error.None? ==> AuthzRuns.Step(old(Value()), AuthzRuns.Give(now, s, input, id), Value())
      ensures error.Some? ==> grants == old(grants)
      ensures var r := Resource(s.tenant, input.kind, input.id);
        && (error == Some(Input) <==> !ValidInput(input, now))
        && (error == Some(NotFound) <==> ValidInput(input, now) && r !in resources)
        && (error == Some(Forbidden) <==> ValidInput(input, now) && r in resources && !old(Holds(grants, s, r, Share, now)))
        && (error == Some(AboveGranter) <==> ValidInput(input, now) && r in resources && old(Holds(grants, s, r, Share, now))
                                             && !old(HoldsRank(grants, s, r, Rank(input.relation), now)))
    {
      if !ValidInput(input, now) {
        return Some(Input);
      }
      var perms, held;
      var r := Resource(s.tenant, input.kind, input.id);
      error, perms, held := Resolve(s, r, now);
      if error.Some? {
        return error;
      }
      if Share !in perms {
        return Some(Forbidden);
      }
      if Rank(input.relation) > Rank(held) {
        return Some(AboveGranter);
      }
      UpsertGrant(GrantOf(s, input), id);
    }

    method Revoke(s: Subjects, id: nat, now: int) returns (error: Option<Error>)
      modifies this`grants
      ensures error.None? <==> old(MayRevoke(Value(), s, id, now))
      ensures error.None? ==> AuthzRuns.Step(old(Value()), AuthzRuns.Revoke(now, s, id), Value())
      ensures error.Some? ==> grants == old(grants)
      ensures error == Some(NotFound) <==>
        old(id !in grants || grants[id].on.tenant != s.tenant || grants[id].on !in resources)
      ensures error == Some(Forbidden) <==>
        old(id in grants && grants[id].on.tenant == s.tenant && grants[id].on in resources && !Holds(grants, s, grants[id].on, Share, now))
    {
      if id !in grants || grants[id].on.tenant != s.tenant {
        return Some(NotFound);
      }
      var perms, held;
      error, perms, held := Resolve(s, grants[id].on, now);
      if error.Some? {
        return error;
      }
      if Share !in perms {
        return Some(Forbidden);
      }
      grants := grants - {id};
    }

    method GrantOwner(r: Resource, user: string, id: nat)
      requires id !in grants
      modifies this`grants
      ensures AuthzRuns.OwnerRecorded(old(grants), r, user, id, grants)
      ensures forall now: int :: AuthzRuns.Step(old(Value()), AuthzRuns.HandOver(now, r, user, id), Value())
    {
      if user == "" {
        return;
      }
      UpsertGrant(AuthzRuns.OwnerGrant(r, user), id);
    }

    method DropResource(r: Resource)
      modifies this`grants
      ensures grants == Dropped(old(grants), r)
      ensures forall id :: id in grants <==> id in old(grants) && old(grants)[id].on != r
      ensures forall id :: id in grants ==> grants[id] == old(grants)[id]
    {
      var left := grants.Keys;
      while left != {}
        invariant left <= grants.Keys
        invariant forall id :: id in grants ==> id in old(grants) && grants[id] == old(grants)[id]
        invariant forall id :: id in old(grants) && id !in grants ==> old(grants)[id].on == r
        invariant forall id :: id in grants && id !in left ==> grants[id].on != r
        decreases |left|
      {
        var id :| id in left;
        left := left - {id};
        if grants[id].on == r {
          grants := grants - {id};
        }
      }
    }
  }

  predicate Readable(g: Grant, s: Subjects, kind: ResourceType, now: int) {
    g.on.tenant == s.tenant && Matches(g, s, now) && g.on.kind == kind && Read in Of(g.relation)
  }

  ghost predicate FoundOn(grants: map<nat, Grant>, found: seq<Grant>, r: Resource) {
    forall g :: g in found <==> exists id :: id in grants && grants[id] == g && g.on == r
  }

  lemma UnionIsHolds(grants: map<nat, Grant>, found: seq<Grant>, s: Subjects, r: Resource, p: Permission, now: int)
    requires FoundOn(grants, found, r)
    ensures (IsAdmin(s) || exists g :: g in found && Matches(g, s, now) && p in Of(g.relation)) <==> Holds(grants, s, r, p, now)
  {
    if !IsAdmin(s) && Holds(grants, s, r, p, now) {
      var id :| id in grants && Applies(grants, id, s, r, now) && p in Of(grants[id].relation);
      assert grants[id] in found;
    }
    if g :| g in found && Matches(g, s, now) && p in Of(g.relation) {
      var id :| id in grants && grants[id] == g && g.on == r;
      assert Applies(grants, id, s, r, now);
    }
  }

  lemma StrongestIsRank(grants: map<nat, Grant>, found: seq<Grant>, s: Subjects, r: Resource, n: nat, now: int, held: Relation)
    requires FoundOn(grants, found, r) && Strongest(s, found, now, held)
    ensures n <= Rank(held) ==> HoldsRank(grants, s, r, n, now)
    ensures HoldsRank(grants, s, r, n, now) && n <= 4 ==> n <= Rank(held)
  {
    if !IsAdmin(s) && n > 0 {
      if HoldsRank(grants, s, r, n, now) {
        var id :| id in grants && Applies(grants, id, s, r, now) && Rank(grants[id].relation) >= n;
        assert grants[id] in found;
      }
      if n <= Rank(held) {
        var g :| g in found && Matches(g, s, now) && g.relation == held;
        var id :| id in grants && grants[id] == g && g.on == r;
        assert Applies(grants, id, s, r, now);
      }
    }
  }
}
