/** The live-event hub as a step machine: publishers, trimming, one fan-out loop
    per tenant, replay on reconnect and Close interleave freely
    (internal/stream/hub.go). A push is one step: check, stamp, enqueue. */
module HubProtocol {
  import opened Common
  import opened StreamIds
  import opened StreamLog

  const CONN_BUFFER := 32
  const READ_COUNT := 100

  /** NewHub replaces non-positive bounds, so every bound is positive. */
  datatype Config = Config(perUser: nat, perTenant: nat, maxLen: nat, window: nat)

  ghost predicate ConfigOk(c: Config) {
    c.perUser > 0 && c.perTenant > 0 && c.maxLen > 0
  }

  /** A tenant's stream: every entry ever published, and how many were trimmed. */
  datatype Log = Log(all: seq<Entry>, trimmed: nat)

  /** Replay progress: not asked, asked for with the client's last id, or reading
      done and entries left to push (none left: finished). */
  datatype Replay = Nothing | Asked(lastId: string) | Pushing(rest: seq<Entry>)

  /** A subscription. accepted lists the stamped entries and sent those that found
      room in the buffer; waiting counts the events the reader has not taken. */
  datatype Sub = Sub(tenant: string, user: string, last: Option<Id>, closed: bool,
                     accepted: seq<Entry>, sent: seq<Entry>, waiting: nat, replay: Replay)

  datatype TenantSub = TenantSub(loop: nat, conns: set<nat>, byUser: map<string, nat>)

  /** A fan-out loop: its cursor, the entries read and not yet picked, and of the
      picked entry the subscriptions still to push and those found stalled. */
  datatype Loop = Loop(tenant: string, cursor: Id, batch: seq<Entry>, current: Option<Entry>,
                       targets: set<nat>, stalled: set<nat>)

  datatype State = State(clock: nat, counter: nat, logs: map<string, Log>, tenants: map<string, TenantSub>,
                         loops: map<nat, Loop>, subs: map<nat, Sub>)

  const Init := State(0, 0, map[], map[], map[], map[])

  function LogOf(s: State, tenant: string): Log {
    if tenant in s.logs then s.logs[tenant] else Log([], 0)
  }

  function Live(l: Log): seq<Entry> {
    if l.trimmed <= |l.all| then l.all[l.trimmed..] else []
  }

  function Count(m: map<string, nat>, user: string): nat {
    if user in m then m[user] else 0
  }

  // -------------------------------------------------------------------- push

  datatype Pushed = Pushed(sub: Sub, ok: bool)

  /** push of an event with an id: refuse when closed or already delivered, else
      stamp; not ok means the buffer was full. */
  function Push(s: Sub, e: Entry): Pushed {
    if s.closed || (s.last.Some? && !Less(s.last.value, e.id)) then Pushed(s, true)
    else
      var stamped := s.(last := Some(e.id), accepted := s.accepted + [e]);
      if s.waiting < CONN_BUFFER
      then Pushed(stamped.(sent := s.sent + [e], waiting := s.waiting + 1), true)
      else Pushed(stamped, false)
  }

  /** push of the id-less reset event. */
  function PushReset(s: Sub): Sub {
    if s.closed || s.waiting >= CONN_BUFFER then s else s.(waiting := s.waiting + 1)
  }

  // ------------------------------------------------------------------- steps

  datatype Action =
    | Tick
    | Publish(tenant: string, to: string, body: string)
    | Trim(tenant: string, count: nat)
    | Subscribe(x: nat, l: nat, tenant: string, user: string, lastId: string)
    | ReplayRead(x: nat)
    | ReplayFail(x: nat)
    | ReplayPush(x: nat)
    | LoopRead(l: nat)
    | LoopPick(l: nat)
    | LoopPush(l: nat, x: nat)
    | LoopClose(l: nat, x: nat)
    | Close(x: nat)
    | Receive(x: nat)

  /** The tenant record a Subscribe joins: the existing one, or a new one whose
      loop starts after the newest entry. */
  function Joined(s: State, tenant: string, l: nat): TenantSub {
    if tenant in s.tenants then s.tenants[tenant] else TenantSub(l, {}, map[])
  }

  /** The connections a loop sees: those of the tenant record it was started for,
      which is empty once that record has been removed. */
  function Conns(s: State, l: nat): set<nat>
    requires l in s.loops
  {
    var t := s.loops[l].tenant;
    if t in s.tenants && s.tenants[t].loop == l then s.tenants[t].conns else {}
  }

  predicate InWindow(c: Config, clock: nat, lastId: string) {
    ParseId(lastId).ok && ParseId(lastId).id.ms >= clock - c.window
  }

  predicate Enabled(c: Config, s: State, a: Action) {
    match a
    case Tick => true
    case Publish(_, _, _) => true
    case Trim(t, n) => n <= |Live(LogOf(s, t))|
    case Subscribe(x, l, t, u, _) =>
      var ts := Joined(s, t, l);
      x !in s.subs && l !in s.loops && Count(ts.byUser, u) < c.perUser && |ts.conns| < c.perTenant
    case ReplayRead(x) => x in s.subs && s.subs[x].replay.Asked?
    case ReplayFail(x) => x in s.subs && s.subs[x].replay.Asked?
    case ReplayPush(x) => x in s.subs && s.subs[x].replay.Pushing? && s.subs[x].replay.rest != []
    case LoopRead(l) => l in s.loops && s.loops[l].batch == [] && s.loops[l].targets == {} && s.loops[l].stalled == {}
    case LoopPick(l) => l in s.loops && s.loops[l].batch != [] && s.loops[l].targets == {} && s.loops[l].stalled == {}
    case LoopPush(l, x) =>
      l in s.loops && x in s.loops[l].targets && x in s.subs && s.loops[l].current.Some? && s.loops[l].stalled == {}
    case LoopClose(l, x) => l in s.loops && x in s.loops[l].stalled && x in s.subs
    case Close(x) => x in s.subs
    case Receive(x) => x in s.subs && s.subs[x].waiting > 0
  }

  function Published(c: Config, s: State, t: string, to: string, body: string): State {
    var l := LogOf(s, t);
    var all := l.all + [Entry(Id(s.clock, s.counter + 1), to, body)];
    var over := |all| - c.maxLen;
    WithLog(s.(counter := s.counter + 1), t, Log(all, if over > l.trimmed then over else l.trimmed))
  }

  function NewSub(t: string, u: string, lastId: string): Sub {
    Sub(t, u, None, false, [], [], 0, if lastId == "" then Nothing else Asked(lastId))
  }

  function NewLoop(s: State, t: string): Loop {
    Loop(t, LastId(Live(LogOf(s, t))), [], None, {}, {})
  }

  function Subscribed(s: State, x: nat, l: nat, t: string, u: string, lastId: string): State {
    var ts := Joined(s, t, l);
    s.(tenants := s.tenants[t := TenantSub(ts.loop, ts.conns + {x}, ts.byUser[u := Count(ts.byUser, u) + 1])],
       loops := if t in s.tenants then s.loops else s.loops[l := NewLoop(s, t)],
       subs := s.subs[x := NewSub(t, u, lastId)])
  }

  function WithSub(s: State, x: nat, sub: Sub): State {
    s.(subs := s.subs[x := sub])
  }

  function WithLoop(s: State, l: nat, loop: Loop): State {
    s.(loops := s.loops[l := loop])
  }

  function WithLog(s: State, t: string, log: Log): State {
    s.(logs := s.logs[t := log])
  }

  /** Subscription.Close: once; the last connection removes the tenant record. */
  function Closed(s: State, x: nat): State
    requires x in s.subs
  {
    var sub := s.subs[x];
    if sub.closed then s
    else
      var s1 := WithSub(s, x, sub.(closed := true));
      if sub.tenant !in s.tenants then s1
      else
        var ts := s.tenants[sub.tenant];
        var n := Count(ts.byUser, sub.user);
        var byUser := if n <= 1 then ts.byUser - {sub.user} else ts.byUser[sub.user := n - 1];
        if ts.conns - {x} == {} then s1.(tenants := s.tenants - {sub.tenant})
        else s1.(tenants := s.tenants[sub.tenant := TenantSub(ts.loop, ts.conns - {x}, byUser)])
  }

  /** replay: the entries since the last id, or a reset beyond the window. */
  function ReplayStarted(c: Config, s: State, sub: Sub): Sub
    requires sub.replay.Asked?
  {
    if !InWindow(c, s.clock, sub.replay.lastId) then PushReset(sub.(replay := Nothing))
    else
      var id := ParseId(sub.replay.lastId).id;
      sub.(replay := Pushing(Cut(Newer(Live(LogOf(s, sub.tenant)), id), c.maxLen)))
  }

  function Replayed(sub: Sub): Sub
    requires sub.replay.Pushing? && sub.replay.rest != []
  {
    var e := sub.replay.rest[0];
    var pushed := if Targets(e.to, sub.user) then Push(sub, e).sub else sub;
    pushed.(replay := Pushing(sub.replay.rest[1..]))
  }

  function ReadMore(s: State, loop: Loop): Loop {
    loop.(batch := Cut(Newer(Live(LogOf(s, loop.tenant)), loop.cursor), READ_COUNT))
  }

  /** dispatch: take the next entry and snapshot whom it goes to. */
  function Picked(s: State, l: nat): Loop
    requires l in s.loops && s.loops[l].batch != []
  {
    var loop := s.loops[l];
    var e := loop.batch[0];
    loop.(cursor := e.id, batch := loop.batch[1..], current := Some(e),
          targets := set x | x in Conns(s, l) && x in s.subs && Targets(e.to, s.subs[x].user))
  }

  /** The loop after pushing to x: a stalled subscription is closed next. */
  function Dispatched(loop: Loop, x: nat, ok: bool): Loop {
    loop.(targets := loop.targets - {x}, stalled := if ok then {} else {x})
  }

  function Next(c: Config, s: State, a: Action): State
    requires Enabled(c, s, a)
  {
    match a
    case Tick => s.(clock := s.clock + 1)
    case Publish(t, to, body) => Published(c, s, t, to, body)
    case Trim(t, n) => WithLog(s, t, Log(LogOf(s, t).all, LogOf(s, t).trimmed + n))
    case Subscribe(x, l, t, u, lastId) => Subscribed(s, x, l, t, u, lastId)
    case ReplayRead(x) => WithSub(s, x, ReplayStarted(c, s, s.subs[x]))
    case ReplayFail(x) => WithSub(s, x, PushReset(s.subs[x].(replay := Nothing)))
    case ReplayPush(x) => WithSub(s, x, Replayed(s.subs[x]))
    case LoopRead(l) => WithLoop(s, l, ReadMore(s, s.loops[l]))
    case LoopPick(l) => WithLoop(s, l, Picked(s, l))
    case LoopPush(l, x) =>
      var p := Push(s.subs[x], s.loops[l].current.value);
      WithLoop(WithSub(s, x, p.sub), l, Dispatched(s.loops[l], x, p.ok))
    case LoopClose(l, x) =>
      Closed(WithLoop(s, l, s.loops[l].(stalled := s.loops[l].stalled - {x})), x)
    case Close(x) => Closed(s, x)
    case Receive(x) => WithSub(s, x, s.subs[x].(waiting := s.subs[x].waiting - 1))
  }

  /** A run of the hub: from the empty hub, each action enabled where it is taken. */
  ghost predicate IsRun(c: Config, run: seq<State>, acts: seq<Action>) {
    && |run| == |acts| + 1
    && run[0] == Init
    && forall i :: 0 <= i < |acts| ==> Enabled(c, run[i], acts[i]) && run[i + 1] == Next(c, run[i], acts[i])
  }

  /** The actions lead from one state to another. */
  ghost predicate Leads(c: Config, s: State, acts: seq<Action>, s': State)
    decreases |acts|
  {
    if acts == [] then s' == s
    else Enabled(c, s, acts[0]) && Leads(c, Next(c, s, acts[0]), acts[1..], s')
  }

  lemma {:induction false} LeadsOn(c: Config, s: State, acts: seq<Action>, mid: State, a: Action)
    requires Leads(c, s, acts, mid) && Enabled(c, mid, a)
    ensures Leads(c, s, acts + [a], Next(c, mid, a))
    decreases |acts|
  {
    hide Enabled, Next;
    if acts == [] {
      assert [a][1..] == [];
      assert acts + [a] == [a];
      assert Leads(c, Next(c, s, a), [], Next(c, s, a));
    } else {
      LeadsOn(c, Next(c, s, acts[0]), acts[1..], mid, a);
      assert (acts + [a])[1..] == acts[1..] + [a];
    }
  }

  lemma {:induction false} LeadsThrough(c: Config, s: State, acts: seq<Action>, mid: State, more: seq<Action>, s': State)
    requires Leads(c, s, acts, mid) && Leads(c, mid, more, s')
    ensures Leads(c, s, acts + more, s')
    decreases |more|
  {
    hide Enabled, Next;
    if more == [] {
      assert acts + more == acts;
    } else {
      LeadsOn(c, s, acts, mid, more[0]);
      LeadsThrough(c, s, acts + [more[0]], Next(c, mid, more[0]), more[1..], s');
      assert acts + [more[0]] + more[1..] == acts + more;
    }
  }
}
