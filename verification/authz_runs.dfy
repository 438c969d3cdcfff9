/** Runs of the operations that change grants and resources (internal/authz/grants.go, the
    transactions of internal/issue and internal/enroll that call it, and the import of
    internal/transfer/backup.go). */
module AuthzRuns {
  import opened Common
  import opened Authz

  /** Every action is one transaction at time now. Create and HandOver record a
      creator-owner; a service creator, with an empty user id, leaves no grant. HandOver is
      the owner grant of a finished job, written after the transaction that created the
      certificate, and no step looks whether it is still there. Give and Revoke are the
      write of an operation that was checked before. Restore is a backup import: resources
      it creates, then the document's grants in turn. */
  datatype Action =
    | Create(now: int, r: Resource, user: string, id: nat)
    | HandOver(now: int, r: Resource, user: string, id: nat)
    | Remove(now: int, r: Resource)
    | Give(now: int, s: Subjects, input: GrantInput, id: nat)
    | Revoke(now: int, s: Subjects, id: nat)
    | Restore(now: int, created: set<Resource>, given: seq<Grant>, ids: seq<nat>)

  /** The state of the run, and the time, at which an operation was checked; for a
      hand-over, at which its resource was known to exist. */
  datatype Check = Check(seen: nat, at: int)

  function OwnerGrant(r: Resource, user: string): Grant {
    Grant(r, User, user, Owner, None)
  }

  ghost predicate OwnerRecorded(grants: map<nat, Grant>, r: Resource, user: string, id: nat, grants': map<nat, Grant>) {
    if user == "" then grants' == grants else Upserted(grants, OwnerGrant(r, user), id, grants')
  }

  /** Grants upserted one after the other. */
  ghost predicate Restored(grants: map<nat, Grant>, given: seq<Grant>, ids: seq<nat>, grants': map<nat, Grant>)
    requires |given| == |ids|
  {
    if given == [] then grants' == grants
    else
      var n := |given| - 1;
      exists mid :: Restored(grants, given[..n], ids[..n], mid) && Upserted(mid, given[n], ids[n], grants')
  }

  ghost predicate Step(st: State, a: Action, st': State) {
    match a
    case Create(_, r, user, id) =>
      r !in st.resources && st'.resources == st.resources + {r} && OwnerRecorded(st.grants, r, user, id, st'.grants)
    case HandOver(_, r, user, id) =>
      st'.resources == st.resources && OwnerRecorded(st.grants, r, user, id, st'.grants)
    case Remove(_, r) => st' == State(st.resources - {r}, Dropped(st.grants, r))
    case Give(_, s, input, id) =>
      st'.resources == st.resources && Upserted(st.grants, GrantOf(s, input), id, st'.grants)
    case Revoke(_, s, id) => st' == st.(grants := st.grants - {id})
    case Restore(_, created, given, ids) =>
      && |given| == |ids| && st'.resources == st.resources + created
      && (forall g :: g in given ==> g.on in st'.resources)
      && Restored(st.grants, given, ids, st'.grants)
  }

  /** The check of action i succeeded, in a state no later than its write. */
  ghost predicate WasChecked(run: seq<State>, acts: seq<Action>, i: nat, c: Check)
    requires i < |acts| < |run|
  {
    && c.seen <= i && c.at <= acts[c.seen].now
    && match acts[i]
       case Give(_, s, input, _) => MayGrant(run[c.seen], s, input, c.at)
       case Revoke(_, s, id) => MayRevoke(run[c.seen], s, id, c.at)
       case HandOver(_, r, _, _) => r in run[c.seen].resources
       case _ => true
  }

  ghost predicate IsRun(run: seq<State>, acts: seq<Action>, checks: seq<Check>) {
    && |run| == |acts| + 1 && |checks| == |acts| && run[0] == State({}, map[])
    && (forall i :: 0 <= i < |acts| ==> Step(run[i], acts[i], run[i + 1]))
    && (forall i :: 0 <= i < |acts| ==> WasChecked(run, acts, i, checks[i]))
    && (forall i, k :: 0 <= i < k < |acts| ==> acts[i].now <= acts[k].now)
  }

  /** Checked at the write itself. */
  predicate AtOnce(a: Action, i: nat, c: Check) {
    c == Check(i, a.now)
  }

  // ------------------------------------------------------- no stray grants

  /** The resource that a late write puts a grant on. */
  function WritesOn(a: Action): Option<Resource> {
    match a
    case Give(_, s, input, _) => Some(GrantOf(s, input).on)
    case HandOver(_, r, user, _) => if user == "" then None else Some(r)
    case _ => None
  }

  /** A grant or a hand-over finds its resource still there when it is written. */
  ghost predicate Lands(st: State, a: Action) {
    WritesOn(a).Some? ==> WritesOn(a).value in st.resources
  }

  lemma UpsertOnLive(resources: set<Resource>, grants: map<nat, Grant>, g: Grant, id: nat, grants': map<nat, Grant>)
    requires NoDangling(State(resources, grants)) && Upserted(grants, g, id, grants')
    ensures NoDangling(State(resources, grants')) <==> g.on in resources
  {
    var at :| Replaces(grants, g, id, at) && grants' == grants[at := g];
    assert grants'[at].on == g.on;
  }

  lemma {:induction false} RestoreKeeps(resources: set<Resource>, grants: map<nat, Grant>, given: seq<Grant>, ids: seq<nat>, grants': map<nat, Grant>)
    requires |given| == |ids| && Restored(grants, given, ids, grants') && forall g :: g in given ==> g.on in resources
    ensures NoDangling(State(resources, grants)) ==> NoDangling(State(resources, grants'))
    ensures UniqueKeys(grants) ==> UniqueKeys(grants')
  {
    if given != [] {
      var n := |given| - 1;
      var mid :| Restored(grants, given[..n], ids[..n], mid) && Upserted(mid, given[n], ids[n], grants');
      RestoreKeeps(resources, grants, given[..n], ids[..n], mid);
      assert given[n] in given;
      if NoDangling(State(resources, grants)) {
        UpsertOnLive(resources, mid, given[n], ids[n], grants');
      }
      if UniqueKeys(grants) {
        UpsertKeepsUnique(mid, given[n], ids[n], grants');
      }
    }
  }

  lemma StepKeepsUnique(st: State, a: Action, st': State)
    requires UniqueKeys(st.grants) && Step(st, a, st')
    ensures UniqueKeys(st'.grants)
  {
    match a
    case Create(_, r, user, id) =>
      if user != "" {
        UpsertKeepsUnique(st.grants, OwnerGrant(r, user), id, st'.grants);
      }
    case HandOver(_, r, user, id) =>
      if user != "" {
        UpsertKeepsUnique(st.grants, OwnerGrant(r, user), id, st'.grants);
      }
    case Remove(_, r) =>
    case Give(_, s, input, id) => UpsertKeepsUnique(st.grants, GrantOf(s, input), id, st'.grants);
    case Revoke(_, _, _) =>
    case Restore(_, _, given, ids) => RestoreKeeps(st'.resources, st.grants, given, ids, st'.grants);
  }

  lemma StepStray(st: State, a: Action, st': State)
    requires NoDangling(st) && Step(st, a, st')
    ensures NoDangling(st') <==> Lands(st, a)
  {
    match a
    case Create(_, r, user, id) =>
      assert NoDangling(State(st'.resources, st.grants));
      if user != "" {
        UpsertOnLive(st'.resources, st.grants, OwnerGrant(r, user), id, st'.grants);
      }
    case HandOver(_, r, user, id) =>
      if user != "" {
        UpsertOnLive(st.resources, st.grants, OwnerGrant(r, user), id, st'.grants);
      }
    case Remove(_, r) =>
    case Give(_, s, input, id) => UpsertOnLive(st.resources, st.grants, GrantOf(s, input), id, st'.grants);
    case Revoke(_, _, _) =>
    case Restore(_, _, given, ids) =>
      assert NoDangling(State(st'.resources, st.grants));
      RestoreKeeps(st'.resources, st.grants, given, ids, st'.grants);
  }

  /** In every run no resource and subject ever have two grants. */
  lemma {:induction false} OneGrantEach(run: seq<State>, acts: seq<Action>, checks: seq<Check>, i: nat)
    requires IsRun(run, acts, checks) && i < |run|
    ensures UniqueKeys(run[i].grants)
  {
    hide Step, UniqueKeys, WasChecked;
    if i > 0 {
      OneGrantEach(run, acts, checks, i - 1);
      StepKeepsUnique(run[i - 1], acts[i - 1], run[i]);
    } else {
      assert UniqueKeys(map[]) by { EmptyUnique(); }
    }
  }

  lemma EmptyUnique()
    ensures UniqueKeys(map[])
  {
  }

  ghost predicate AllLand(run: seq<State>, acts: seq<Action>, i: nat)
    requires i < |run| == |acts| + 1
  {
    forall k :: 0 <= k < i ==> Lands(run[k], acts[k])
  }

  lemma {:induction false} LandedKeeps(run: seq<State>, acts: seq<Action>, checks: seq<Check>, i: nat)
    requires IsRun(run, acts, checks) && i < |run| && AllLand(run, acts, i)
    ensures NoDangling(run[i])
  {
    hide Step, Lands, WasChecked;
    if i > 0 {
      LandedKeeps(run, acts, checks, i - 1);
      StepStray(run[i - 1], acts[i - 1], run[i]);
    }
  }

  /** Over every run: no grant is ever left on a resource that is gone, if and only if
      every checked grant and every hand-over is written while its resource is still
      there. */
  lemma NoStrayGrants(run: seq<State>, acts: seq<Action>, checks: seq<Check>, i: nat)
    requires IsRun(run, acts, checks) && i < |run|
    ensures (forall k :: 0 <= k <= i ==> NoDangling(run[k])) <==> AllLand(run, acts, i)
  {
    hide Step, Lands, WasChecked, NoDangling;
    if AllLand(run, acts, i) {
      forall k: nat | k <= i ensures NoDangling(run[k]) {
        LandedKeeps(run, acts, checks, k);
      }
    }
    if forall k :: 0 <= k <= i ==> NoDangling(run[k]) {
      forall k: nat | k < i ensures Lands(run[k], acts[k]) {
        assert NoDangling(run[k + 1]) && Step(run[k], acts[k], run[k + 1]);
        StepStray(run[k], acts[k], run[k + 1]);
      }
    }
  }

  ghost predicate Removes(a: Action, r: Resource) {
    a.Remove? && a.r == r
  }

  ghost predicate Creates(a: Action, r: Resource) {
    (a.Create? && a.r == r) || (a.Restore? && r in a.created)
  }

  lemma StepExists(st: State, a: Action, st': State, r: Resource)
    requires Step(st, a, st')
    ensures r in st'.resources <==> Creates(a, r) || (r in st.resources && !Removes(a, r))
  {
    hide Restored, OwnerRecorded, Upserted, Dropped;
  }

  /** Some action from j to i removes the resource. */
  ghost predicate RemovedIn(acts: seq<Action>, j: nat, i: nat, r: Resource)
    requires i <= |acts|
  {
    exists k :: j <= k < i && Removes(acts[k], r)
  }

  /** What exists at j exists at i unless it was removed in between; and not when it was,
      unless it was created again. */
  lemma {:induction false} StillThere(run: seq<State>, acts: seq<Action>, checks: seq<Check>, j: nat, i: nat, r: Resource)
    requires IsRun(run, acts, checks) && j <= i < |run| && r in run[j].resources
    ensures !RemovedIn(acts, j, i, r) ==> r in run[i].resources
    ensures RemovedIn(acts, j, i, r) && (forall k :: j <= k < i ==> !Creates(acts[k], r)) ==> r !in run[i].resources
    decreases i
  {
    hide WasChecked, Step, Creates, Removes;
    if j < i {
      StillThere(run, acts, checks, j, i - 1, r);
      assert Step(run[i - 1], acts[i - 1], run[i]);
      StepExists(run[i - 1], acts[i - 1], run[i], r);
    }
  }

  lemma SeenThere(run: seq<State>, acts: seq<Action>, checks: seq<Check>, i: nat)
    requires IsRun(run, acts, checks) && i < |acts| && WritesOn(acts[i]).Some?
    ensures checks[i].seen <= i && WritesOn(acts[i]).value in run[checks[i].seen].resources
  {
    assert WasChecked(run, acts, i, checks[i]);
  }

  /** A checked grant, or a hand-over, lands whenever its resource is not removed between
      check, or creation, and write; and, as ids are never used again, only then. */
  lemma LandsUnlessRemoved(run: seq<State>, acts: seq<Action>, checks: seq<Check>, i: nat)
    requires IsRun(run, acts, checks) && i < |acts| && WritesOn(acts[i]).Some?
    ensures !RemovedIn(acts, checks[i].seen, i, WritesOn(acts[i]).value) ==> Lands(run[i], acts[i])
    ensures (forall k :: checks[i].seen <= k < i ==> !Creates(acts[k], WritesOn(acts[i]).value)) ==>
      (Lands(run[i], acts[i]) <==> !RemovedIn(acts, checks[i].seen, i, WritesOn(acts[i]).value))
  {
    SeenThere(run, acts, checks, i);
    hide IsRun, RemovedIn, Creates, WritesOn;
    StillThere(run, acts, checks, checks[i].seen, i, WritesOn(acts[i]).value);
  }

  /** Until a grant is written on a resource that is gone, the listing filter is
      exactly what Check allows, for every caller that is no administrator; an
      administrator may read every resource of the tenant. */
  lemma ListingMatchesCheck(run: seq<State>, acts: seq<Action>, checks: seq<Check>, i: nat, s: Subjects, kind: ResourceType, id: string, now: int)
    requires IsRun(run, acts, checks) && i < |run| && AllLand(run, acts, i)
    ensures !IsAdmin(s) ==>
      (id in AccessibleIds(run[i].grants, s, kind, now) <==> Allowed(run[i], s, Resource(s.tenant, kind, id), Read, now))
    ensures IsAdmin(s) ==> (Resource(s.tenant, kind, id) in run[i].resources <==> Allowed(run[i], s, Resource(s.tenant, kind, id), Read, now))
  {
    LandedKeeps(run, acts, checks, i);
    if !IsAdmin(s) {
      ListExact(run[i], s, kind, now);
    }
  }

  /** Whoever creates a resource, or has one handed over, holds every permission on it from
      then on, for good unless a later action changes it; others gain nothing. */
  lemma CreatorOwns(st: State, a: Action, st': State, u: Subjects, p: Permission, now: int)
    requires UniqueKeys(st.grants) && Step(st, a, st') && (a.Create? || a.HandOver?)
    ensures a.user != "" && u.user == a.user ==> Holds(st'.grants, u, a.r, p, now)
    ensures u.user != a.user || a.user == "" ==> (Holds(st'.grants, u, a.r, p, now) <==> Holds(st.grants, u, a.r, p, now))
  {
    HoldsMeans(st.grants, u, a.r, p, now);
    HoldsMeans(st'.grants, u, a.r, p, now);
    if a.user != "" {
      var g := OwnerGrant(a.r, a.user);
      UpsertMeans(st.grants, g, a.id, st'.grants);
      PermissionsOf(Owner);
      assert p == Read || p == Write || p == Delete || p == Share || p == Use;
      var at :| at in st'.grants && st'.grants[at] == g;
      assert u.user == a.user ==> Names(st'.grants[at], u);
    }
  }

  // ------------------------------------------------------------ confinement

  /** Some live grant on the resource carries the permission. */
  ghost predicate Live(grants: map<nat, Grant>, r: Resource, p: Permission, now: int) {
    exists id :: id in grants && grants[id].on == r && !Expired(grants[id], now) && p in Of(grants[id].relation)
  }

  /** The action leaves the resource's grants to checked grants and revocations. */
  ghost predicate LeftToHolders(a: Action, r: Resource) {
    match a
    case Create(_, q, _, _) => q != r
    case HandOver(_, q, _, _) => q != r
    case Restore(_, _, given, _) => forall g :: g in given ==> g.on != r
    case _ => true
  }

  /** A grant that is written on the resource carries only what is live there. */
  ghost predicate Covered(st: State, a: Action, r: Resource) {
    a.Give? && GrantOf(a.s, a.input).on == r && !Expired(GrantOf(a.s, a.input), a.now) ==>
      forall p :: p in Of(a.input.relation) ==> Live(st.grants, r, p, a.now)
  }

  /** The action makes no permission live that was not. */
  ghost predicate Confined(st: State, a: Action, st': State, r: Resource) {
    forall p :: Live(st'.grants, r, p, a.now) ==> Live(st.grants, r, p, a.now)
  }

  lemma HeldIsLive(grants: map<nat, Grant>, s: Subjects, r: Resource, p: Permission, now: int)
    requires !IsAdmin(s) && Holds(grants, s, r, p, now)
    ensures Live(grants, r, p, now)
  {
    var id :| id in grants && Applies(grants, id, s, r, now) && p in Of(grants[id].relation);
  }

  /** An upsert makes live only what was live or its own grant carries. */
  lemma LiveAfterUpsert(grants: map<nat, Grant>, g: Grant, id: nat, grants': map<nat, Grant>, r: Resource, p: Permission, now: int, later: int)
    requires Upserted(grants, g, id, grants') && now <= later && Live(grants', r, p, later)
    ensures Live(grants, r, p, now) || (g.on == r && p in Of(g.relation) && !Expired(g, now))
  {
    var at :| Replaces(grants, g, id, at) && grants' == grants[at := g];
    var k :| k in grants' && grants'[k].on == r && !Expired(grants'[k], later) && p in Of(grants'[k].relation);
    if k != at {
      assert k in grants && grants[k] == grants'[k];
    }
  }

  /** And everything its own grant carries. */
  lemma UpsertIsLive(grants: map<nat, Grant>, g: Grant, id: nat, grants': map<nat, Grant>, p: Permission, now: int)
    requires Upserted(grants, g, id, grants') && !Expired(g, now) && p in Of(g.relation)
    ensures Live(grants', g.on, p, now)
  {
    var at :| Replaces(grants, g, id, at) && grants' == grants[at := g];
    assert grants'[at] == g;
  }

  lemma LiveAfterRemoval(grants: map<nat, Grant>, grants': map<nat, Grant>, r: Resource, p: Permission, now: int, later: int)
    requires (forall id :: id in grants' ==> id in grants && grants'[id] == grants[id]) && now <= later
    requires Live(grants', r, p, later)
    ensures Live(grants, r, p, now)
  {
    var k :| k in grants' && grants'[k].on == r && !Expired(grants'[k], later) && p in Of(grants'[k].relation);
    assert k in grants && grants[k] == grants'[k];
  }

  lemma {:induction false} LiveAfterRestore(grants: map<nat, Grant>, given: seq<Grant>, ids: seq<nat>, grants': map<nat, Grant>, r: Resource, p: Permission, now: int, later: int)
    requires |given| == |ids| && Restored(grants, given, ids, grants') && now <= later && Live(grants', r, p, later)
    requires forall g :: g in given ==> g.on != r
    ensures Live(grants, r, p, now)
    decreases |given|
  {
    hide Live;
    if given == [] {
      LiveEarlier(grants, r, p, now, later);
    } else {
      var n := |given| - 1;
      var mid :| Restored(grants, given[..n], ids[..n], mid) && Upserted(mid, given[n], ids[n], grants');
      assert given[n] in given;
      LiveAfterUpsert(mid, given[n], ids[n], grants', r, p, later, later);
      LiveAfterRestore(grants, given[..n], ids[..n], mid, r, p, now, later);
    }
  }

  lemma LiveEarlier(grants: map<nat, Grant>, r: Resource, p: Permission, now: int, later: int)
    requires now <= later && Live(grants, r, p, later)
    ensures Live(grants, r, p, now)
  {
  }

  lemma StepConfined(st: State, a: Action, st': State, r: Resource, p: Permission, later: int)
    requires Step(st, a, st') && LeftToHolders(a, r) && Covered(st, a, r) && a.now <= later && Live(st'.grants, r, p, later)
    ensures Live(st.grants, r, p, a.now)
  {
    match a
    case Create(now, q, user, id) =>
      if user == "" {
        LiveAfterRemoval(st.grants, st'.grants, r, p, now, later);
      } else {
        LiveAfterUpsert(st.grants, OwnerGrant(q, user), id, st'.grants, r, p, now, later);
      }
    case HandOver(now, q, user, id) =>
      if user == "" {
        LiveAfterRemoval(st.grants, st'.grants, r, p, now, later);
      } else {
        LiveAfterUpsert(st.grants, OwnerGrant(q, user), id, st'.grants, r, p, now, later);
      }
    case Remove(now, _) => LiveAfterRemoval(st.grants, st'.grants, r, p, now, later);
    case Give(now, s, input, id) => LiveAfterUpsert(st.grants, GrantOf(s, input), id, st'.grants, r, p, now, later);
    case Revoke(now, _, _) => LiveAfterRemoval(st.grants, st'.grants, r, p, now, later);
    case Restore(now, _, given, ids) => LiveAfterRestore(st.grants, given, ids, st'.grants, r, p, now, later);
  }

  lemma StepConfinedExact(st: State, a: Action, st': State, r: Resource)
    requires Step(st, a, st') && LeftToHolders(a, r)
    ensures Confined(st, a, st', r) <==> Covered(st, a, r)
  {
    hide Live;
    if Covered(st, a, r) {
      forall p | Live(st'.grants, r, p, a.now) ensures Live(st.grants, r, p, a.now) {
        StepConfined(st, a, st', r, p, a.now);
      }
    }
    if Confined(st, a, st', r) && a.Give? && GrantOf(a.s, a.input).on == r && !Expired(GrantOf(a.s, a.input), a.now) {
      forall p | p in Of(a.input.relation) ensures Live(st.grants, r, p, a.now) {
        UpsertIsLive(st.grants, GrantOf(a.s, a.input), a.id, st'.grants, p, a.now);
      }
    }
  }

  /** The actions from i to k leave r's grants to checked grants and revocations. */
  ghost predicate Undisturbed(acts: seq<Action>, i: nat, k: nat, r: Resource) {
    k <= |acts| && forall m :: i <= m < k ==> LeftToHolders(acts[m], r)
  }

  ghost predicate AllCovered(run: seq<State>, acts: seq<Action>, i: nat, k: nat, r: Resource)
    requires k < |run| == |acts| + 1
  {
    forall m :: i <= m < k ==> Covered(run[m], acts[m], r)
  }

  /** Over every run: passing a resource on never makes a permission live that no grant
      there carried any more, if and only if every grant is written while what it carries
      is still live. */
  lemma SharingExact(run: seq<State>, acts: seq<Action>, checks: seq<Check>, i: nat, k: nat, r: Resource)
    requires IsRun(run, acts, checks) && i <= k < |run| && Undisturbed(acts, i, k, r)
    ensures (forall m :: i <= m < k ==> Confined(run[m], acts[m], run[m + 1], r)) <==> AllCovered(run, acts, i, k, r)
  {
    hide WasChecked, Step, LeftToHolders, Confined, Covered;
    if AllCovered(run, acts, i, k, r) {
      forall m: nat | i <= m < k ensures Confined(run[m], acts[m], run[m + 1], r) {
        assert Covered(run[m], acts[m], r) && Step(run[m], acts[m], run[m + 1]);
        StepConfinedExact(run[m], acts[m], run[m + 1], r);
      }
    }
    if forall m :: i <= m < k ==> Confined(run[m], acts[m], run[m + 1], r) {
      forall m: nat | i <= m < k ensures Covered(run[m], acts[m], r) {
        assert Step(run[m], acts[m], run[m + 1]) && Confined(run[m], acts[m], run[m + 1], r);
        StepConfinedExact(run[m], acts[m], run[m + 1], r);
      }
    }
  }

  /** Then, however its holders pass the resource on, take back or let expire, nobody ever
      holds a permission on it that no grant carried before. */
  lemma {:induction false} SharingConfined(run: seq<State>, acts: seq<Action>, checks: seq<Check>, i: nat, k: nat, r: Resource, p: Permission, start: int, later: int)
    requires IsRun(run, acts, checks) && i <= k < |run| && start <= later
    requires Undisturbed(acts, i, k, r) && AllCovered(run, acts, i, k, r)
    requires forall m :: i <= m < k ==> start <= acts[m].now <= later
    requires Live(run[k].grants, r, p, later)
    ensures Live(run[i].grants, r, p, start)
    decreases k
  {
    hide WasChecked, Step, LeftToHolders, Covered, Live;
    if i == k {
      LiveEarlier(run[i].grants, r, p, start, later);
    } else {
      var now := acts[k - 1].now;
      assert Step(run[k - 1], acts[k - 1], run[k]);
      StepConfined(run[k - 1], acts[k - 1], run[k], r, p, later);
      SharingConfined(run, acts, checks, i, k - 1, r, p, start, now);
    }
  }

  /** A holder who is no administrator, checked at the write, grants only what is live. */
  lemma HolderCovered(run: seq<State>, acts: seq<Action>, checks: seq<Check>, i: nat, r: Resource)
    requires IsRun(run, acts, checks) && i < |acts| && acts[i].Give? && !IsAdmin(acts[i].s) && AtOnce(acts[i], i, checks[i])
    ensures Covered(run[i], acts[i], r)
  {
    assert WasChecked(run, acts, i, checks[i]);
    var a := acts[i];
    hide Step, Live;
    if GrantOf(a.s, a.input).on == r {
      forall p | p in Of(a.input.relation) ensures Live(run[i].grants, r, p, a.now) {
        GranterHolds(run[i], a.s, a.input, a.now, p);
        HeldIsLive(run[i].grants, a.s, r, p, a.now);
      }
    }
  }

  // --------------------------------------------------- the check-then-write gap

  const SHARED := Resource("t", Issuer, "i")
  const HOLDER := Subjects("t", "u", [], "")
  const ADMIN := Subjects("t", "a", ["admin"], "")
  const TO_TENANT := GrantInput(Issuer, "i", Tenant, "", Viewer, None)

  /** The holder's grant, checked while the holder owns the resource, is written after
      another action. */
  function LateActs(between: Action): seq<Action> {
    [Create(0, SHARED, "u", 0), between, Give(2, HOLDER, TO_TENANT, 1)]
  }

  const LATE_CHECKS := [Check(0, 0), Check(1, 1), Check(1, 1)]
  const OWNED := State({SHARED}, map[0 := OwnerGrant(SHARED, "u")])

  lemma LateRun(between: Action, st: State)
    requires between.now == 1 && (between == Remove(1, SHARED) || between == Revoke(1, ADMIN, 0))
    requires Step(OWNED, between, st) && st.grants == map[]
    ensures IsRun([State({}, map[]), OWNED, st, st.(grants := map[1 := GrantOf(HOLDER, TO_TENANT)])], LateActs(between), LATE_CHECKS)
  {
    var run := [State({}, map[]), OWNED, st, st.(grants := map[1 := GrantOf(HOLDER, TO_TENANT)])];
    var acts := LateActs(between);
    assert Replaces(map[], OwnerGrant(SHARED, "u"), 0, 0) && OWNED.grants == map[][0 := OwnerGrant(SHARED, "u")];
    assert Step(run[0], acts[0], run[1]);
    assert Replaces(map[], GrantOf(HOLDER, TO_TENANT), 1, 1) && run[3].grants == map[][1 := GrantOf(HOLDER, TO_TENANT)];
    assert Step(run[2], acts[2], run[3]);
    assert Applies(OWNED.grants, 0, HOLDER, SHARED, 1);
    assert MayGrant(OWNED, HOLDER, TO_TENANT, 1);
    assert "admin" in ADMIN.roles && MayRevoke(OWNED, ADMIN, 0, 1);
  }

  /** Written after the deletion of its resource, the grant is listed as accessible
      although Check finds nothing there. */
  lemma DeletionBetween() returns (run: seq<State>)
    ensures IsRun(run, LateActs(Remove(1, SHARED)), LATE_CHECKS)
    ensures "i" in AccessibleIds(run[3].grants, HOLDER, Issuer, 2) && !Allowed(run[3], HOLDER, SHARED, Read, 2)
  {
    var st := State({SHARED} - {SHARED}, map[]);
    assert Dropped(OWNED.grants, SHARED) == map[];
    LateRun(Remove(1, SHARED), st);
    run := [State({}, map[]), OWNED, st, st.(grants := map[1 := GrantOf(HOLDER, TO_TENANT)])];
    assert Listed(run[3].grants, 1, HOLDER, 2) && run[3].grants[1].on.id == "i";
  }

  /** Written after its granter's own grant was revoked, it makes a permission live that
      no grant carried any more. */
  lemma RevocationBetween() returns (run: seq<State>)
    ensures IsRun(run, LateActs(Revoke(1, ADMIN, 0)), LATE_CHECKS)
    ensures !Live(run[2].grants, SHARED, Read, 2) && Live(run[3].grants, SHARED, Read, 2)
    ensures !Covered(run[2], LateActs(Revoke(1, ADMIN, 0))[2], SHARED)
  {
    var st := State({SHARED}, map[]);
    assert OWNED.grants - {0} == map[];
    LateRun(Revoke(1, ADMIN, 0), st);
    run := [State({}, map[]), OWNED, st, st.(grants := map[1 := GrantOf(HOLDER, TO_TENANT)])];
    assert run[3].grants[1].on == SHARED && Read in Of(Viewer);
    assert !Live(st.grants, SHARED, Read, 2);
  }

  const CERT := Resource("t", Certificate, "c")

  /** A certificate minted for a job, deleted before the job hands it over. */
  const HANDED_LATE := [Create(0, CERT, "", 0), Remove(1, CERT), HandOver(2, CERT, "u", 1)]

  /** The requester is listed as able to read a certificate that Check does not find; no
      grant was given. */
  lemma DeletionBeforeHandOver() returns (run: seq<State>)
    ensures IsRun(run, HANDED_LATE, LATE_CHECKS) && !NoDangling(run[3])
    ensures "c" in AccessibleIds(run[3].grants, HOLDER, Certificate, 2) && !Allowed(run[3], HOLDER, CERT, Read, 2)
  {
    var g := OwnerGrant(CERT, "u");
    var none := State({}, map[]);
    run := [none, State({CERT}, map[]), none, State({}, map[1 := g])];
    assert {CERT} - {CERT} == {} && Dropped(map[], CERT) == map[];
    assert Step(run[0], HANDED_LATE[0], run[1]) && Step(run[1], HANDED_LATE[1], run[2]);
    assert Replaces(map[], g, 1, 1) && run[3].grants == map[][1 := g];
    assert Step(run[2], HANDED_LATE[2], run[3]);
    assert Listed(run[3].grants, 1, HOLDER, 2) && run[3].grants[1].on.id == "c";
  }
}
