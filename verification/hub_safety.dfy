/** Safety of the live-event hub over every run: what a subscription accepts, that
    Close is final, and the per-user and per-tenant accounting. */
module HubSafety {
  import opened Common
  import opened StreamIds
  import opened StreamLog
  import opened HubProtocol

  // -------------------------------------------------------------- invariants

  /** Ids increase and stay below the next id to be handed out. */
  ghost predicate LogOk(c: Config, l: Log, clock: nat, counter: nat) {
    && l.trimmed <= |l.all| <= l.trimmed + c.maxLen
    && Ordered(l.all)
    && forall i :: 0 <= i < |l.all| ==> 0 <= l.all[i].id.ms <= clock && 1 <= l.all[i].id.num <= counter
  }

  /** What a subscription accepted: increasing ids, all of them entries of its
      tenant's stream addressed to its user, the newest one stamped. */
  ghost predicate SubOk(sub: Sub, all: seq<Entry>) {
    && Ordered(sub.accepted)
    && sub.last == (if sub.accepted == [] then None else Some(sub.accepted[|sub.accepted| - 1].id))
    && (forall e :: e in sub.accepted ==> e in all && Targets(e.to, sub.user))
    && (sub.replay.Pushing? ==> forall e :: e in sub.replay.rest ==> e in all)
    && Ordered(sub.sent)
    && (forall e :: e in sub.sent ==> e in sub.accepted)
    && sub.waiting <= CONN_BUFFER
  }

  /** What a loop holds are entries of its tenant's stream, and it pushes the picked
      one only to subscriptions of that tenant it is addressed to. */
  ghost predicate LoopOk(loop: Loop, all: seq<Entry>, subs: map<nat, Sub>) {
    && (forall e :: e in loop.batch ==> e in all)
    && (loop.targets != {} ==> loop.current.Some? && loop.current.value in all)
    && (forall x :: x in loop.targets ==>
          x in subs && subs[x].tenant == loop.tenant && Targets(loop.current.value.to, subs[x].user))
  }

  function OpenOf(subs: map<nat, Sub>, t: string): set<nat> {
    set x | x in subs && subs[x].tenant == t && !subs[x].closed
  }

  function UserConns(subs: map<nat, Sub>, conns: set<nat>, u: string): set<nat> {
    set x | x in conns && x in subs && subs[x].user == u
  }

  /** The tenant record counts exactly the open subscriptions, within the limits. */
  ghost predicate TenantOk(c: Config, ts: TenantSub, t: string, s: State) {
    && ts.conns == OpenOf(s.subs, t) && ts.conns != {}
    && |ts.conns| <= c.perTenant
    && (forall u :: Count(ts.byUser, u) == |UserConns(s.subs, ts.conns, u)| <= c.perUser)
    && (forall u :: u in ts.byUser ==> ts.byUser[u] > 0)
    && ts.loop in s.loops && s.loops[ts.loop].tenant == t
  }

  ghost predicate Logs(c: Config, s: State) {
    forall t :: t in s.logs ==> LogOk(c, s.logs[t], s.clock, s.counter)
  }

  ghost predicate Subs(s: State) {
    forall x :: x in s.subs ==> SubOk(s.subs[x], LogOf(s, s.subs[x].tenant).all)
  }

  ghost predicate Loops(s: State) {
    forall l :: l in s.loops ==> LoopOk(s.loops[l], LogOf(s, s.loops[l].tenant).all, s.subs)
  }

  ghost predicate Accounts(c: Config, s: State) {
    && (forall t :: t in s.tenants ==> TenantOk(c, s.tenants[t], t, s))
    && (forall x :: x in s.subs && !s.subs[x].closed ==> s.subs[x].tenant in s.tenants)
  }

  ghost predicate Inv(c: Config, s: State) {
    Logs(c, s) && Subs(s) && Loops(s) && Accounts(c, s)
  }

  lemma LogAlways(c: Config, s: State, t: string)
    requires Logs(c, s)
    ensures LogOk(c, LogOf(s, t), s.clock, s.counter)
  {
  }

  // ------------------------------------------------------- pushing and reading

  lemma PushKeeps(sub: Sub, e: Entry, all: seq<Entry>)
    requires SubOk(sub, all) && e in all && Targets(e.to, sub.user)
    ensures SubOk(Push(sub, e).sub, all)
  {
    var p := Push(sub, e).sub;
    if p.accepted != sub.accepted {
      forall i, j | 0 <= i < j < |p.accepted| ensures Less(p.accepted[i].id, p.accepted[j].id) {
        if j == |sub.accepted| && i < j - 1 {
          assert Less(sub.accepted[i].id, sub.accepted[j - 1].id);
        }
      }
      forall i, j | 0 <= i < j < |p.sent| ensures Less(p.sent[i].id, p.sent[j].id) {
        if j == |sub.sent| {
          assert sub.sent[i] in sub.accepted;
          var k :| 0 <= k < |sub.accepted| && sub.accepted[k] == sub.sent[i];
          assert Less(p.accepted[k].id, p.accepted[|sub.accepted|].id);
        }
      }
    }
  }

  /** Closing, resetting and reading change nothing of what was accepted. */
  lemma SubIdle(sub: Sub, all: seq<Entry>)
    requires SubOk(sub, all)
    ensures SubOk(sub.(closed := true), all)
    ensures SubOk(PushReset(sub.(replay := Nothing)), all) && Evolves(sub, PushReset(sub.(replay := Nothing)))
    ensures sub.waiting > 0 ==> SubOk(sub.(waiting := sub.waiting - 1), all)
  {
  }

  lemma ReplayKeeps(sub: Sub, all: seq<Entry>)
    requires SubOk(sub, all) && sub.replay.Pushing? && sub.replay.rest != []
    ensures SubOk(Replayed(sub), all)
  {
    var e := sub.replay.rest[0];
    if Targets(e.to, sub.user) {
      PushKeeps(sub, e, all);
    }
  }

  /** Everything a loop or a replay reads is in the stream. */
  lemma ReadIn(l: Log, id: Id, count: int)
    ensures forall e :: e in Cut(Newer(Live(l), id), count) ==> e in l.all
  {
    forall e | e in Cut(Newer(Live(l), id), count) ensures e in l.all {
      assert e in Newer(Live(l), id);
      NewerHolds(Live(l), id, e);
    }
  }

  // ------------------------------------------------------------ preservation

  /** What an action may do to a subscription: its tenant and user stay, its accepted
      entries only grow, and not at all once it is closed. */
  ghost predicate Evolves(sub: Sub, sub': Sub) {
    && sub'.tenant == sub.tenant && sub'.user == sub.user && (sub.closed ==> sub'.closed)
    && sub.accepted <= sub'.accepted
    && (sub.closed ==> sub'.accepted == sub.accepted && sub'.sent == sub.sent)
  }

  lemma LogsKeep(c: Config, s: State, t: string, log: Log, counter: nat)
    requires Inv(c, s) && LogOf(s, t).all <= log.all && s.counter <= counter
    requires LogOk(c, log, s.clock, counter)
    ensures Inv(c, WithLog(s.(counter := counter), t, log))
  {
    var s' := WithLog(s.(counter := counter), t, log);
    assert forall u :: LogOf(s, u).all <= LogOf(s', u).all;
    assert Subs(s');
    assert Loops(s');
    AccountsFrame(c, s, s');
  }

  lemma LogAppends(c: Config, l: Log, clock: nat, counter: nat, e: Entry)
    requires ConfigOk(c) && LogOk(c, l, clock, counter) && e.id == Id(clock, counter + 1)
    ensures var n := |l.all| + 1;
      LogOk(c, Log(l.all + [e], if n - c.maxLen > l.trimmed then n - c.maxLen else l.trimmed), clock, counter + 1)
  {
    AppendOrdered(l.all, e);
  }

  lemma PublishKeeps(c: Config, s: State, t: string, to: string, body: string)
    requires ConfigOk(c) && Inv(c, s)
    ensures Inv(c, Published(c, s, t, to, body))
  {
    var l, e := LogOf(s, t), Entry(Id(s.clock, s.counter + 1), to, body);
    assert LogOk(c, l, s.clock, s.counter);
    hide *;
    LogAppends(c, l, s.clock, s.counter, e);
    var n := |l.all| + 1;
    var log := Log(l.all + [e], if n - c.maxLen > l.trimmed then n - c.maxLen else l.trimmed);
    LogsKeep(c, s, t, log, s.counter + 1);
    assert Published(c, s, t, to, body) == WithLog(s.(counter := s.counter + 1), t, log) by {
      PublishedIs(c, s, t, to, body);
    }
  }

  lemma PublishedIs(c: Config, s: State, t: string, to: string, body: string)
    ensures var l, n := LogOf(s, t), |LogOf(s, t).all| + 1;
      Published(c, s, t, to, body) == WithLog(s.(counter := s.counter + 1), t,
        Log(l.all + [Entry(Id(s.clock, s.counter + 1), to, body)], if n - c.maxLen > l.trimmed then n - c.maxLen else l.trimmed))
  {
  }

  /** Loops depend on the subscriptions only through their tenants and users. */
  lemma LoopsFrame(s: State, subs: map<nat, Sub>)
    requires Loops(s) && s.subs.Keys <= subs.Keys
    requires forall x :: x in s.subs ==> subs[x].tenant == s.subs[x].tenant && subs[x].user == s.subs[x].user
    ensures forall k :: k in s.loops ==> LoopOk(s.loops[k], LogOf(s, s.loops[k].tenant).all, subs)
  {
    forall k | k in s.loops ensures LoopOk(s.loops[k], LogOf(s, s.loops[k].tenant).all, subs) {
      assert LoopOk(s.loops[k], LogOf(s, s.loops[k].tenant).all, s.subs);
    }
  }

  lemma SubKeeps(c: Config, s: State, x: nat, sub: Sub)
    requires Inv(c, s) && x in s.subs
    requires SubOk(sub, LogOf(s, sub.tenant).all) && Evolves(s.subs[x], sub) && sub.closed == s.subs[x].closed
    ensures Inv(c, WithSub(s, x, sub))
  {
    hide SubOk, LogOk, TenantOk;
    AccountsFrame(c, s, WithSub(s, x, sub));
  }

  lemma LoopKeeps(c: Config, s: State, l: nat, loop: Loop)
    requires Inv(c, s) && l in s.loops && loop.tenant == s.loops[l].tenant
    requires LoopOk(loop, LogOf(s, loop.tenant).all, s.subs)
    ensures Inv(c, WithLoop(s, l, loop))
  {
    AccountsFrame(c, s, WithLoop(s, l, loop));
  }

  lemma PickKeeps(c: Config, s: State, l: nat)
    requires Inv(c, s) && l in s.loops && s.loops[l].batch != []
    ensures Inv(c, WithLoop(s, l, Picked(s, l)))
  {
    var loop := s.loops[l];
    assert LoopOk(loop, LogOf(s, loop.tenant).all, s.subs);
    assert loop.batch[0] in loop.batch;
    assert loop.tenant in s.tenants ==> TenantOk(c, s.tenants[loop.tenant], loop.tenant, s);
    LoopKeeps(c, s, l, Picked(s, l));
  }

  lemma DispatchKeeps(c: Config, s: State, l: nat, x: nat)
    requires Inv(c, s) && l in s.loops && x in s.loops[l].targets && x in s.subs && s.loops[l].current.Some?
    ensures var p := Push(s.subs[x], s.loops[l].current.value);
      Inv(c, WithLoop(WithSub(s, x, p.sub), l, Dispatched(s.loops[l], x, p.ok)))
  {
    var loop, sub := s.loops[l], s.subs[x];
    var p := Push(sub, loop.current.value);
    assert LoopOk(loop, LogOf(s, loop.tenant).all, s.subs);
    assert SubOk(sub, LogOf(s, sub.tenant).all);
    hide TenantOk, LogOk, Targets, SubOk;
    PushKeeps(sub, loop.current.value, LogOf(s, sub.tenant).all);
    SubKeeps(c, s, x, p.sub);
    LoopKeeps(c, WithSub(s, x, p.sub), l, Dispatched(loop, x, p.ok));
  }

  // -------------------------------------------------------------- accounting

  /** Changes that open or close no subscription keep the accounts. */
  lemma AccountsFrame(c: Config, s: State, s': State)
    requires Accounts(c, s)
    requires s'.tenants == s.tenants && s'.subs.Keys == s.subs.Keys && s.loops.Keys <= s'.loops.Keys
    requires forall x :: x in s.subs ==>
      s'.subs[x].tenant == s.subs[x].tenant && s'.subs[x].user == s.subs[x].user && s'.subs[x].closed == s.subs[x].closed
    requires forall l :: l in s.loops ==> s'.loops[l].tenant == s.loops[l].tenant
    ensures Accounts(c, s')
  {
    forall t | t in s'.tenants ensures TenantOk(c, s'.tenants[t], t, s') {
      TenantFrame(c, s.tenants[t], t, s, s');
    }
  }

  /** A tenant's record is unaffected by what happens to other tenants' streams. */
  lemma TenantFrame(c: Config, ts: TenantSub, t: string, s: State, s': State)
    requires TenantOk(c, ts, t, s) && OpenOf(s'.subs, t) == OpenOf(s.subs, t)
    requires forall x :: x in ts.conns ==> s'.subs[x].user == s.subs[x].user
    requires ts.loop in s'.loops && s'.loops[ts.loop].tenant == t
    ensures TenantOk(c, ts, t, s')
  {
    forall u ensures UserConns(s'.subs, ts.conns, u) == UserConns(s.subs, ts.conns, u) {}
  }

  lemma UserJoins(subs: map<nat, Sub>, conns: set<nat>, x: nat, sub: Sub, v: string)
    requires x !in subs && conns <= subs.Keys
    ensures |UserConns(subs[x := sub], conns + {x}, v)| == |UserConns(subs, conns, v)| + if v == sub.user then 1 else 0
  {
    var before := UserConns(subs, conns, v);
    assert UserConns(subs[x := sub], conns + {x}, v) == if v == sub.user then before + {x} else before;
  }

  lemma UserLeaves(subs: map<nat, Sub>, conns: set<nat>, x: nat, sub: Sub, v: string)
    requires x in conns && conns <= subs.Keys && sub.user == subs[x].user
    ensures |UserConns(subs[x := sub], conns - {x}, v)| == |UserConns(subs, conns, v)| - if v == sub.user then 1 else 0
  {
    var before := UserConns(subs, conns, v);
    assert UserConns(subs[x := sub], conns - {x}, v) == before - {x};
  }

  lemma OpenJoins(subs: map<nat, Sub>, x: nat, sub: Sub, t: string)
    requires x !in subs && !sub.closed
    ensures OpenOf(subs[x := sub], t) == if sub.tenant == t then OpenOf(subs, t) + {x} else OpenOf(subs, t)
  {
  }

  lemma JoinKeepsTenant(c: Config, s: State, x: nat, l: nat, t: string, u: string, lastId: string)
    requires ConfigOk(c) && Accounts(c, s) && Enabled(c, s, Subscribe(x, l, t, u, lastId))
    ensures var s' := Subscribed(s, x, l, t, u, lastId); TenantOk(c, s'.tenants[t], t, s')
  {
    var s' := Subscribed(s, x, l, t, u, lastId);
    var ts, ts' := Joined(s, t, l), s'.tenants[t];
    assert t in s.tenants ==> TenantOk(c, ts, t, s);
    assert OpenOf(s.subs, t) == ts.conns;
    OpenJoins(s.subs, x, NewSub(t, u, lastId), t);
    assert OpenOf(s'.subs, t) == ts.conns + {x};
    forall v ensures Count(ts'.byUser, v) == |UserConns(s'.subs, ts'.conns, v)| <= c.perUser {
      assert t !in s.tenants ==> UserConns(s.subs, ts.conns, v) == {};
      UserJoins(s.subs, ts.conns, x, s'.subs[x], v);
    }
  }

  lemma OthersKeepTenant(c: Config, s: State, x: nat, l: nat, t: string, u: string, lastId: string, v: string)
    requires Accounts(c, s) && x !in s.subs && v in s.tenants && v != t && (l in s.loops ==> t in s.tenants)
    ensures var s' := Subscribed(s, x, l, t, u, lastId); TenantOk(c, s.tenants[v], v, s')
  {
    SubscribedIs(s, x, l, t, u, lastId);
    assert TenantOk(c, s.tenants[v], v, s);
    hide Subscribed, Accounts;
    OpenJoins(s.subs, x, NewSub(t, u, lastId), v);
    TenantFrame(c, s.tenants[v], v, s, Subscribed(s, x, l, t, u, lastId));
  }

  lemma SubscribedTenants(s: State, x: nat, l: nat, t: string, u: string, lastId: string)
    ensures var s' := Subscribed(s, x, l, t, u, lastId);
      t in s'.tenants && forall v :: v != t ==> (v in s'.tenants <==> v in s.tenants) && (v in s.tenants ==> s'.tenants[v] == s.tenants[v])
  {
  }

  lemma SubscribeKeepsAccounts(c: Config, s: State, x: nat, l: nat, t: string, u: string, lastId: string)
    requires ConfigOk(c) && Accounts(c, s) && Enabled(c, s, Subscribe(x, l, t, u, lastId))
    ensures Accounts(c, Subscribed(s, x, l, t, u, lastId))
  {
    assert x !in s.subs && (l in s.loops ==> t in s.tenants);
    var s' := Subscribed(s, x, l, t, u, lastId);
    SubscribedTenants(s, x, l, t, u, lastId);
    SubscribedIs(s, x, l, t, u, lastId);
    hide Subscribed, TenantOk, Enabled, OpenOf, UserConns, NewLoop;
    JoinKeepsTenant(c, s, x, l, t, u, lastId);
    forall v | v in s'.tenants && v != t ensures TenantOk(c, s'.tenants[v], v, s') {
      OthersKeepTenant(c, s, x, l, t, u, lastId, v);
    }
  }

  lemma SubscribeKeeps(c: Config, s: State, x: nat, l: nat, t: string, u: string, lastId: string)
    requires ConfigOk(c) && Inv(c, s) && Enabled(c, s, Subscribe(x, l, t, u, lastId))
    ensures Inv(c, Subscribed(s, x, l, t, u, lastId))
  {
    hide TenantOk, LogOk, Accounts, LoopOk, SubOk, Subscribed;
    SubscribeKeepsAccounts(c, s, x, l, t, u, lastId);
    SubscribedIs(s, x, l, t, u, lastId);
    var s' := Subscribed(s, x, l, t, u, lastId);
    LoopsFrame(s, s'.subs);
    FreshOk(NewSub(t, u, lastId), LogOf(s, t).all, NewLoop(s, t), s'.subs);
  }

  lemma SubscribedIs(s: State, x: nat, l: nat, t: string, u: string, lastId: string)
    ensures var s' := Subscribed(s, x, l, t, u, lastId);
      && s'.logs == s.logs && s'.clock == s.clock && s'.counter == s.counter
      && s'.subs == s.subs[x := NewSub(t, u, lastId)]
      && s'.loops == if t in s.tenants then s.loops else s.loops[l := NewLoop(s, t)]
  {
  }

  lemma FreshOk(sub: Sub, all: seq<Entry>, loop: Loop, subs: map<nat, Sub>)
    requires sub.last == None && sub.accepted == [] && sub.sent == [] && sub.waiting == 0 && !sub.replay.Pushing?
    requires loop.batch == [] && loop.targets == {}
    ensures SubOk(sub, all) && LoopOk(loop, all, subs)
  {
  }

  lemma LeaveKeepsTenant(c: Config, s: State, x: nat)
    requires Accounts(c, s) && x in s.subs && !s.subs[x].closed
    requires s.subs[x].tenant in Closed(s, x).tenants
    ensures var t := s.subs[x].tenant; TenantOk(c, Closed(s, x).tenants[t], t, Closed(s, x))
  {
    var s', t, u := Closed(s, x), s.subs[x].tenant, s.subs[x].user;
    var ts := s.tenants[t];
    assert TenantOk(c, ts, t, s);
    assert OpenOf(s'.subs, t) == ts.conns - {x};
    forall v ensures Count(s'.tenants[t].byUser, v) == |UserConns(s'.subs, ts.conns - {x}, v)| <= c.perUser {
      UserLeaves(s.subs, ts.conns, x, s'.subs[x], v);
    }
  }

  lemma CloseKeepsAccounts(c: Config, s: State, x: nat)
    requires Accounts(c, s) && x in s.subs
    ensures Accounts(c, Closed(s, x))
  {
    var s', sub := Closed(s, x), s.subs[x];
    if !sub.closed {
      var t := sub.tenant;
      assert TenantOk(c, s.tenants[t], t, s);
      if t in s'.tenants {
        LeaveKeepsTenant(c, s, x);
      }
      forall v | v in s'.tenants && v != t ensures TenantOk(c, s'.tenants[v], v, s') {
        assert OpenOf(s'.subs, v) == OpenOf(s.subs, v);
        TenantFrame(c, s.tenants[v], v, s, s');
      }
      forall y | y in s'.subs && !s'.subs[y].closed ensures s'.subs[y].tenant in s'.tenants {
        assert s.subs[y].tenant == t ==> y in s.tenants[t].conns - {x};
      }
    }
  }

  lemma ClosedIs(s: State, x: nat)
    requires x in s.subs
    ensures Closed(s, x).logs == s.logs && Closed(s, x).loops == s.loops
    ensures Closed(s, x).clock == s.clock && Closed(s, x).counter == s.counter
    ensures Closed(s, x).subs == s.subs[x := s.subs[x].(closed := true)]
  {
  }

  lemma CloseKeeps(c: Config, s: State, x: nat)
    requires Inv(c, s) && x in s.subs
    ensures Inv(c, Closed(s, x))
  {
    hide TenantOk, LogOk, Closed, Accounts, LoopOk, SubOk;
    CloseKeepsAccounts(c, s, x);
    ClosedIs(s, x);
    SubIdle(s.subs[x], LogOf(s, s.subs[x].tenant).all);
    LoopsFrame(s, Closed(s, x).subs);
  }

  // -------------------------------------------------------------- every step

  lemma ReplayStartKeeps(c: Config, s: State, sub: Sub, all: seq<Entry>)
    requires SubOk(sub, all) && sub.replay.Asked? && all == LogOf(s, sub.tenant).all
    ensures SubOk(ReplayStarted(c, s, sub), all) && Evolves(sub, ReplayStarted(c, s, sub))
    ensures ReplayStarted(c, s, sub).closed == sub.closed
  {
    ReadIn(LogOf(s, sub.tenant), ParseId(sub.replay.lastId).id, c.maxLen);
    hide InWindow, Newer, ParseId, Targets;
  }

  lemma ReplayReadKeeps(c: Config, s: State, x: nat)
    requires Inv(c, s) && x in s.subs && s.subs[x].replay.Asked?
    ensures Inv(c, WithSub(s, x, ReplayStarted(c, s, s.subs[x])))
    ensures Inv(c, WithSub(s, x, PushReset(s.subs[x].(replay := Nothing))))
  {
    var sub, all := s.subs[x], LogOf(s, s.subs[x].tenant).all;
    hide SubOk, LogOk, LoopOk, TenantOk, ReplayStarted;
    ReplayStartKeeps(c, s, sub, all);
    SubIdle(sub, all);
    hide Inv;
    SubKeeps(c, s, x, ReplayStarted(c, s, sub));
    SubKeeps(c, s, x, PushReset(sub.(replay := Nothing)));
  }

  lemma ReplayPushKeeps(c: Config, s: State, x: nat)
    requires Inv(c, s) && x in s.subs && s.subs[x].replay.Pushing? && s.subs[x].replay.rest != []
    ensures Inv(c, WithSub(s, x, Replayed(s.subs[x])))
  {
    hide TenantOk, LogOk, LoopOk;
    ReplayKeeps(s.subs[x], LogOf(s, s.subs[x].tenant).all);
    SubKeeps(c, s, x, Replayed(s.subs[x]));
  }

  lemma LoopReadKeeps(c: Config, s: State, l: nat)
    requires Inv(c, s) && l in s.loops
    ensures Inv(c, WithLoop(s, l, ReadMore(s, s.loops[l])))
  {
    hide TenantOk, LogOk, SubOk;
    ReadIn(LogOf(s, s.loops[l].tenant), s.loops[l].cursor, READ_COUNT);
    LoopKeeps(c, s, l, ReadMore(s, s.loops[l]));
  }

  lemma LoopCloseKeeps(c: Config, s: State, l: nat, x: nat)
    requires Inv(c, s) && l in s.loops && x in s.subs
    ensures Inv(c, Closed(WithLoop(s, l, s.loops[l].(stalled := s.loops[l].stalled - {x})), x))
  {
    hide TenantOk, LogOk, SubOk;
    var loop := s.loops[l].(stalled := s.loops[l].stalled - {x});
    LoopKeeps(c, s, l, loop);
    CloseKeeps(c, WithLoop(s, l, loop), x);
  }

  lemma ReceiveKeeps(c: Config, s: State, x: nat)
    requires Inv(c, s) && x in s.subs && s.subs[x].waiting > 0
    ensures Inv(c, WithSub(s, x, s.subs[x].(waiting := s.subs[x].waiting - 1)))
  {
    hide TenantOk, LogOk, LoopOk, SubOk;
    SubIdle(s.subs[x], LogOf(s, s.subs[x].tenant).all);
    SubKeeps(c, s, x, s.subs[x].(waiting := s.subs[x].waiting - 1));
  }

  lemma TickKeeps(c: Config, s: State)
    requires Inv(c, s)
    ensures Inv(c, s.(clock := s.clock + 1))
  {
    hide SubOk, LoopOk, TenantOk;
    AccountsFrame(c, s, s.(clock := s.clock + 1));
  }

  lemma TrimKeeps(c: Config, s: State, t: string, n: nat)
    requires Inv(c, s) && n <= |Live(LogOf(s, t))|
    ensures Inv(c, WithLog(s, t, Log(LogOf(s, t).all, LogOf(s, t).trimmed + n)))
  {
    hide SubOk, LoopOk, TenantOk;
    LogsKeep(c, s, t, Log(LogOf(s, t).all, LogOf(s, t).trimmed + n), s.counter);
  }

  predicate OfLoop(a: Action) {
    a.LoopRead? || a.LoopPick? || a.LoopPush? || a.LoopClose? || a.Close? || a.Receive?
  }

  lemma LoopStepsKeepInv(c: Config, s: State, a: Action)
    requires Inv(c, s) && Enabled(c, s, a) && OfLoop(a)
    ensures Inv(c, Next(c, s, a))
  {
    hide Inv, ReadMore, Picked, Push, Closed;
    match a
    case LoopRead(l) => LoopReadKeeps(c, s, l);
    case LoopPick(l) => PickKeeps(c, s, l);
    case LoopPush(l, x) => DispatchKeeps(c, s, l, x);
    case LoopClose(l, x) => LoopCloseKeeps(c, s, l, x);
    case Close(x) => CloseKeeps(c, s, x);
    case Receive(x) => ReceiveKeeps(c, s, x);
  }

  lemma OtherStepsKeepInv(c: Config, s: State, a: Action)
    requires ConfigOk(c) && Inv(c, s) && Enabled(c, s, a) && !OfLoop(a)
    ensures Inv(c, Next(c, s, a))
  {
    hide Inv, Published, Subscribed, ReplayStarted, Replayed, PushReset;
    match a
    case Tick => TickKeeps(c, s);
    case Publish(t, to, body) => PublishKeeps(c, s, t, to, body);
    case Trim(t, n) => TrimKeeps(c, s, t, n);
    case Subscribe(x, l, t, u, lastId) => SubscribeKeeps(c, s, x, l, t, u, lastId);
    case ReplayRead(x) => ReplayReadKeeps(c, s, x);
    case ReplayFail(x) => ReplayReadKeeps(c, s, x);
    case ReplayPush(x) => ReplayPushKeeps(c, s, x);
  }

  /** Every step keeps the invariant. */
  lemma KeepsInv(c: Config, s: State, a: Action)
    requires ConfigOk(c) && Inv(c, s) && Enabled(c, s, a)
    ensures Inv(c, Next(c, s, a))
  {
    hide *;
    if OfLoop(a) {
      LoopStepsKeepInv(c, s, a);
    } else {
      OtherStepsKeepInv(c, s, a);
    }
  }

  lemma EvolvesSelf(sub: Sub)
    ensures Evolves(sub, sub)
  {
  }

  lemma EvolvesOn(a: Sub, b: Sub, c: Sub)
    requires Evolves(a, b) && Evolves(b, c)
    ensures Evolves(a, c)
  {
  }

  lemma KeepsSub(c: Config, s: State, a: Action, x: nat)
    requires Enabled(c, s, a) && x in s.subs
    ensures var s' := Next(c, s, a); x in s'.subs && Evolves(s.subs[x], s'.subs[x])
  {
    hide ParseId, Targets, Picked, ReadMore, Newer, Joined, NewLoop;
    var s' := Next(c, s, a);
    assert s'.subs.Keys >= s.subs.Keys;
  }

  lemma {:induction false} RunInv(c: Config, run: seq<State>, acts: seq<Action>, i: nat)
    requires ConfigOk(c) && IsRun(c, run, acts) && i < |run|
    ensures Inv(c, run[i])
  {
    if i > 0 {
      RunInv(c, run, acts, i - 1);
      KeepsInv(c, run[i - 1], acts[i - 1]);
    }
  }

  // ---------------------------------------------------------------- theorems

  /** In every run, under every interleaving, the ids a subscription accepts are
      strictly increasing and each is an entry of its own tenant's stream addressed
      to its user; the same holds of what reaches its buffer. */
  lemma AcceptedInOrder(c: Config, run: seq<State>, acts: seq<Action>, i: nat, x: nat)
    requires ConfigOk(c) && IsRun(c, run, acts) && i < |run| && x in run[i].subs
    ensures var sub := run[i].subs[x];
      && (forall j, k :: 0 <= j < k < |sub.accepted| ==> Less(sub.accepted[j].id, sub.accepted[k].id))
      && (forall e :: e in sub.accepted ==> e in LogOf(run[i], sub.tenant).all && Targets(e.to, sub.user))
      && (forall j, k :: 0 <= j < k < |sub.sent| ==> Less(sub.sent[j].id, sub.sent[k].id))
      && (forall e :: e in sub.sent ==> e in sub.accepted)
  {
    RunInv(c, run, acts, i);
    assert SubOk(run[i].subs[x], LogOf(run[i], run[i].subs[x].tenant).all) by { hide SubOk, Targets, IsRun; }
    hide Targets, IsRun, Inv, Less;
  }

  /** After Close nothing more is accepted or queued, and a subscription never
      changes its tenant or user nor loses what it accepted. */
  lemma {:induction false} CloseIsFinal(c: Config, run: seq<State>, acts: seq<Action>, i: nat, j: nat, x: nat)
    requires ConfigOk(c) && IsRun(c, run, acts) && i <= j < |run| && x in run[i].subs
    ensures x in run[j].subs && Evolves(run[i].subs[x], run[j].subs[x])
    decreases j
  {
    if i == j {
      EvolvesSelf(run[i].subs[x]);
    } else {
      hide Next, Enabled, Evolves, ConfigOk;
      CloseIsFinal(c, run, acts, i, j - 1, x);
      KeepsSub(c, run[j - 1], acts[j - 1], x);
      EvolvesOn(run[i].subs[x], run[j - 1].subs[x], run[j].subs[x]);
    }
  }

  /** In every run the tenant records hold exactly the open subscriptions: a tenant
      has a record iff it has an open subscription, the per-user counters are the
      numbers of that user's open streams, and neither limit is exceeded. */
  lemma StreamsAccounted(c: Config, run: seq<State>, acts: seq<Action>, i: nat, t: string)
    requires ConfigOk(c) && IsRun(c, run, acts) && i < |run|
    ensures t in run[i].tenants <==> OpenOf(run[i].subs, t) != {}
    ensures |OpenOf(run[i].subs, t)| <= c.perTenant
    ensures t in run[i].tenants ==> run[i].tenants[t].conns == OpenOf(run[i].subs, t)
    ensures forall u :: |UserConns(run[i].subs, OpenOf(run[i].subs, t), u)| <= c.perUser
    ensures t in run[i].tenants ==> forall u ::
      Count(run[i].tenants[t].byUser, u) == |UserConns(run[i].subs, OpenOf(run[i].subs, t), u)|
  {
    RunInv(c, run, acts, i);
    var s := run[i];
    if t in s.tenants {
      assert TenantOk(c, s.tenants[t], t, s);
    } else {
      assert OpenOf(s.subs, t) == {};
      forall u ensures UserConns(s.subs, OpenOf(s.subs, t), u) == {} {}
    }
  }
}
