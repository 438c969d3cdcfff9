/** The hub object itself: Subscribe, replay, dispatch, push and Close update its maps in
    place. Each method that changes it is a step of the protocol, or leads from state to
    state by the steps it returns (internal/stream/hub.go). */
module HubService {
  import opened Common
  import opened StreamIds
  import opened StreamLog
  import opened HubProtocol
  import opened HubSafety
  import opened HubLimits

  /** What dispatching e leaves of one of its targets: pushed, and closed if stalled. */
  function Delivered(sub: Sub, e: Entry): Sub {
    var p := Push(sub, e);
    if p.ok then p.sub else p.sub.(closed := true)
  }

  class Hub {
    const cfg: Config
    var clock: nat
    var counter: nat
    var logs: map<string, Log>
    var tenants: map<string, TenantSub>
    var loops: map<nat, Loop>
    var subs: map<nat, Sub>

    function View(): State
      reads this
    {
      State(clock, counter, logs, tenants, loops, subs)
    }

    ghost predicate Valid()
      reads this
    {
      ConfigOk(cfg) && Inv(cfg, View())
    }

    constructor (c: Config)
      requires ConfigOk(c)
      ensures Valid() && View() == Init && cfg == c
    {
      cfg, clock, counter, logs, tenants, loops, subs := c, 0, 0, map[], map[], map[], map[];
    }

    /** The registering part of Subscribe: refused at either limit, else the connection
        and its user's count are recorded, starting the tenant's loop if it has none. */
    method Register(x: nat, l: nat, tenant: string, user: string, lastId: string) returns (ok: bool)
      requires Valid() && x !in subs && l !in loops
      modifies this
      ensures Valid()
      ensures ok == (|OpenOf(old(subs), tenant)| < cfg.perTenant
                     && |UserConns(old(subs), OpenOf(old(subs), tenant), user)| < cfg.perUser)
      ensures View() == if ok then Subscribed(old(View()), x, l, tenant, user, lastId) else old(View())
    {
      hide Inv, OpenOf, UserConns, NewLoop, NewSub, LogOf;
      ghost var before := View();
      OpenCounts(cfg, before, tenant, user, l);
      var ts := Joined(View(), tenant, l);
      if Count(ts.byUser, user) >= cfg.perUser || |ts.conns| >= cfg.perTenant {
        return false;
      }
      SubscribeKeeps(cfg, before, x, l, tenant, user, lastId);
      if tenant !in tenants {
        loops := loops[l := NewLoop(View(), tenant)];
      }
      tenants := tenants[tenant := TenantSub(ts.loop, ts.conns + {x}, ts.byUser[user := Count(ts.byUser, user) + 1])];
      subs := subs[x := NewSub(tenant, user, lastId)];
      assert View() == Subscribed(before, x, l, tenant, user, lastId);
      return true;
    }

    /** push on subscription x. */
    method PushTo(x: nat, e: Entry) returns (ok: bool)
      requires x in subs
      modifies this`subs
      ensures View() == WithSub(old(View()), x, Push(old(subs[x]), e).sub) && ok == Push(old(subs[x]), e).ok
    {
      var s := subs[x];
      if s.closed || (s.last.Some? && !Less(s.last.value, e.id)) {
        subs := subs[x := s];
        return true;
      }
      s := s.(last := Some(e.id), accepted := s.accepted + [e]);
      ok := s.waiting < CONN_BUFFER;
      if ok {
        s := s.(sent := s.sent + [e], waiting := s.waiting + 1);
      }
      subs := subs[x := s];
    }

    /** Close: idempotent; the last connection of a tenant removes its record. */
    method Close(x: nat)
      requires Valid() && x in subs
      modifies this`subs, this`tenants
      ensures Valid() && View() == Closed(old(View()), x)
    {
      hide Inv;
      ghost var before := View();
      CloseKeeps(cfg, before, x);
      var s := subs[x];
      if s.closed {
        return;
      }
      subs := subs[x := s.(closed := true)];
      if s.tenant in tenants {
        var ts := tenants[s.tenant];
        var n := Count(ts.byUser, s.user);
        var byUser := if n <= 1 then ts.byUser - {s.user} else ts.byUser[s.user := n - 1];
        if ts.conns - {x} == {} {
          tenants := tenants - {s.tenant};
        } else {
          tenants := tenants[s.tenant := TenantSub(ts.loop, ts.conns - {x}, byUser)];
        }
      }
      assert View() == Closed(before, x);
    }

    /** replay: a reset when the id is unusable or too old, else every entry since it is
        pushed in order, whether or not the buffer still has room. */
    method Replay(x: nat) returns (ghost acts: seq<Action>)
      requires Valid() && x in subs && subs[x].replay.Asked?
      modifies this`subs
      ensures Valid() && subs.Keys == old(subs.Keys)
      ensures var started := ReplayStarted(cfg, old(View()), old(subs[x]));
        View() == WithSub(old(View()), x, if started.replay.Pushing? then ReplayAll(started) else started)
      ensures Leads(cfg, old(View()), acts, View()) && forall a :: a in acts ==> a == ReplayRead(x) || a == ReplayPush(x)
      ensures Unreplayable(cfg, clock, old(subs[x]).replay.lastId) ==>
        && subs[x].replay.Nothing? && subs[x].accepted == old(subs[x]).accepted && subs[x].sent == old(subs[x]).sent
        && subs[x].waiting == old(subs[x]).waiting + if !old(subs[x]).closed && old(subs[x]).waiting < 32 then 1 else 0
    {
      hide Inv, ReplayStarted, ReplayAll, Replayed, Leads, Unreplayable;
      ResetExact(cfg, View(), ReplayRead(x), x);
      ghost var before := View();
      var started := ReplayStarted(cfg, View(), subs[x]);
      ReplayReadKeeps(cfg, before, x);
      subs := subs[x := started];
      assert View() == WithSub(before, x, started);
      acts := [ReplayRead(x)];
      LeadsOne(cfg, before, ReplayRead(x));
      while subs[x].replay.Pushing? && subs[x].replay.rest != []
        invariant x in subs && Valid()
        invariant View() == WithSub(before, x, subs[x])
        invariant Leads(cfg, before, acts, View()) && forall a :: a in acts ==> a == ReplayRead(x) || a == ReplayPush(x)
        invariant started.replay.Pushing? == subs[x].replay.Pushing?
        invariant if started.replay.Pushing? then ReplayAll(subs[x]) == ReplayAll(started) else subs[x] == started
        decreases if subs[x].replay.Pushing? then |subs[x].replay.rest| else 0
      {
        ghost var mid := View();
        ReplayPushKeeps(cfg, mid, x);
        ReplayAllStep(subs[x]);
        ReplayShrinks(subs[x]);
        subs := subs[x := Replayed(subs[x])];
        assert View() == WithSub(mid, x, subs[x]);
        LeadsOn(cfg, before, acts, mid, ReplayPush(x));
        acts := acts + [ReplayPush(x)];
      }
      if subs[x].replay.Pushing? {
        ReplayAllStep(subs[x]);
      }
    }

    /** One target of a dispatch: push, and Close when its buffer was full. */
    method Serve(l: nat, x: nat) returns (ghost acts: seq<Action>)
      requires Valid() && l in loops && x in loops[l].targets && x in subs
      requires loops[l].stalled == {} && loops[l].current.Some?
      modifies this`subs, this`tenants, this`loops
      ensures Valid()
      ensures subs == old(subs)[x := Delivered(old(subs[x]), old(loops[l]).current.value)]
      ensures loops == old(loops)[l := old(loops[l]).(targets := old(loops[l]).targets - {x})]
      ensures Leads(cfg, old(View()), acts, View())
      ensures acts == if Push(old(subs[x]), old(loops[l]).current.value).ok then [LoopPush(l, x)] else [LoopPush(l, x), LoopClose(l, x)]
    {
      hide Inv, Closed, Push, Leads;
      ghost var before := View();
      var e := loops[l].current.value;
      DispatchKeeps(cfg, before, l, x);
      var ok := PushTo(x, e);
      loops := loops[l := Dispatched(loops[l], x, ok)];
      ghost var pushed := View();
      assert pushed == WithLoop(WithSub(before, x, Push(before.subs[x], e).sub), l, Dispatched(before.loops[l], x, ok));
      acts := [LoopPush(l, x)];
      LeadsOne(cfg, before, LoopPush(l, x));
      if !ok {
        LeadsOn(cfg, before, acts, pushed, LoopClose(l, x));
        acts := acts + [LoopClose(l, x)];
        assert pushed.loops[l].stalled - {x} == {};
        UnstallKeeps(cfg, pushed, l);
        loops := loops[l := loops[l].(stalled := {})];
        assert View() == WithLoop(pushed, l, pushed.loops[l].(stalled := {}));
        ClosedIs(View(), x);
        Close(x);
      }
    }

    /** dispatch of the loop's next entry: in whatever order the connections are visited,
        each one it is addressed to is pushed once and closed if it stalled, and no other
        subscription changes. */
    method Dispatch(l: nat) returns (ghost acts: seq<Action>)
      requires Valid() && l in loops && loops[l].batch != [] && loops[l].targets == {} && loops[l].stalled == {}
      modifies this`subs, this`tenants, this`loops
      ensures Valid() && subs.Keys == old(subs.Keys)
      ensures forall x :: x in subs ==>
        (subs[x] == if x in Picked(old(View()), l).targets then Delivered(old(subs[x]), old(loops[l]).batch[0]) else old(subs[x]))
      ensures loops == old(loops)[l := Picked(old(View()), l).(targets := {})]
      ensures Leads(cfg, old(View()), acts, View())
      ensures acts != [] && acts[0] == LoopPick(l) && forall i :: 0 < i < |acts| ==> (acts[i].LoopPush? || acts[i].LoopClose?) && acts[i].l == l
    {
      hide Inv, Picked, Delivered, Leads, Push;
      ghost var before := View();
      var loop, e := Picked(View(), l), loops[l].batch[0];
      PickedIs(before, l);
      PickKeeps(cfg, before, l);
      loops := loops[l := loop];
      assert View() == WithLoop(before, l, loop);
      acts := [LoopPick(l)];
      LeadsOne(cfg, before, LoopPick(l));
      var todo := loop.targets;
      while todo != {}
        invariant Valid() && todo <= loop.targets && Leads(cfg, before, acts, View())
        invariant acts != [] && acts[0] == LoopPick(l)
        invariant forall i :: 0 < i < |acts| ==> (acts[i].LoopPush? || acts[i].LoopClose?) && acts[i].l == l
        invariant subs.Keys == before.subs.Keys && loops == before.loops[l := loop.(targets := todo)]
        invariant forall x :: x in subs ==>
          (subs[x] == if x in loop.targets && x !in todo then Delivered(before.subs[x], e) else before.subs[x])
        decreases todo
      {
        var x :| x in todo;
        ghost var mid := View();
        ghost var more := Serve(l, x);
        LeadsThrough(cfg, before, acts, mid, more, View());
        acts := acts + more;
        todo := todo - {x};
      }
    }
  }

  lemma LeadsOne(c: Config, s: State, a: Action)
    requires Enabled(c, s, a)
    ensures Leads(c, s, [a], Next(c, s, a))
  {
    hide Enabled, Next;
    LeadsOn(c, s, [], s, a);
    assert [] + [a] == [a];
  }

  lemma PickedIs(s: State, l: nat)
    requires l in s.loops && s.loops[l].batch != [] && s.loops[l].stalled == {}
    ensures Picked(s, l).current == Some(s.loops[l].batch[0]) && Picked(s, l).stalled == {}
    ensures Picked(s, l).targets <= s.subs.Keys
  {
  }

  lemma UnstallKeeps(c: Config, s: State, l: nat)
    requires Inv(c, s) && l in s.loops
    ensures Inv(c, WithLoop(s, l, s.loops[l].(stalled := {})))
  {
    hide LogOk, SubOk, TenantOk;
    LoopKeeps(c, s, l, s.loops[l].(stalled := {}));
  }

  lemma ReplayShrinks(sub: Sub)
    requires sub.replay.Pushing? && sub.replay.rest != []
    ensures Replayed(sub).replay == Pushing(sub.replay.rest[1..])
  {
  }

  /** The record a registration consults counts the open subscriptions. */
  lemma OpenCounts(c: Config, s: State, t: string, u: string, l: nat)
    requires Inv(c, s)
    ensures var ts := Joined(s, t, l);
      ts.conns == OpenOf(s.subs, t) && Count(ts.byUser, u) == |UserConns(s.subs, OpenOf(s.subs, t), u)|
  {
    if t in s.tenants {
      assert TenantOk(c, s.tenants[t], t, s);
    } else {
      assert OpenOf(s.subs, t) == {};
      assert UserConns(s.subs, {}, u) == {};
    }
  }
}
