/** Reconnecting ahead of the loop: while the tenant's loop is still behind the client's last
    id, live dispatch meets events the client already has. When they are delivered again
    (internal/stream/hub.go). */
module HubRepeats {
  import opened Common
  import opened StreamIds
  import opened StreamLog
  import opened HubProtocol
  import opened HubSafety
  import opened HubHandover

  /** Some accepted event is not newer than the last id the client came with. */
  ghost predicate Repeated(sub: Sub, lid: Id) {
    exists i :: 0 <= i < |sub.accepted| && !Less(lid, sub.accepted[i].id)
  }

  predicate PushTo(a: Action, x: nat) {
    a.LoopPush? && a.x == x
  }

  /** A live push to x of an event that is not newer than lid. */
  predicate OldPush(s: State, a: Action, x: nat, lid: Id) {
    PushTo(a, x) && a.l in s.loops && s.loops[a.l].current.Some? && !Less(lid, s.loops[a.l].current.value.id)
  }

  // -------------------------------------------------- what one step may repeat

  /** The replay holds nothing but newer events, or will read nothing but those. */
  ghost predicate ReplaysNewer(sub: Sub, lid: Id) {
    match sub.replay
    case Nothing => true
    case Asked(text) => ParseId(text).id == lid
    case Pushing(rest) => forall i :: 0 <= i < |rest| ==> Less(lid, rest[i].id)
  }

  lemma NewerAll(es: seq<Entry>, id: Id)
    ensures forall e :: e in Newer(es, id) ==> Less(id, e.id)
  {
    forall e | e in Newer(es, id) ensures Less(id, e.id) {
      NewerHolds(es, id, e);
    }
  }

  lemma StartsNewer(c: Config, s: State, sub: Sub, lid: Id)
    requires sub.replay.Asked? && ReplaysNewer(sub, lid)
    ensures ReplaysNewer(ReplayStarted(c, s, sub), lid) && ReplayStarted(c, s, sub).accepted == sub.accepted
    ensures ReplayStarted(c, s, sub).closed == sub.closed
  {
    hide ParseId, InWindow, Less, Newer, Live;
    NewerAll(Live(LogOf(s, sub.tenant)), lid);
    var cut := Cut(Newer(Live(LogOf(s, sub.tenant)), lid), c.maxLen);
    assert forall i :: 0 <= i < |cut| ==> cut[i] in Newer(Live(LogOf(s, sub.tenant)), lid);
  }

  lemma LessOrNot(a: Id, b: Id, c: Id)
    requires Less(a, b) && !Less(a, c)
    ensures !Less(b, c)
  {
  }

  /** A push repeats something exactly when it did before, or the pushed event is old and
      nothing was stamped yet. */
  lemma PushRepeats(sub: Sub, e: Entry, lid: Id, all: seq<Entry>)
    requires SubOk(sub, all) && !sub.closed
    ensures Repeated(Push(sub, e).sub, lid) <==> Repeated(sub, lid) || (!Less(lid, e.id) && sub.accepted == [])
  {
    var p, n := Push(sub, e).sub, |sub.accepted|;
    if p.accepted != sub.accepted {
      assert p.accepted == sub.accepted + [e] && p.accepted[n] == e;
      assert forall i :: 0 <= i < n ==> p.accepted[i] == sub.accepted[i];
      if n > 0 && !Less(lid, e.id) && Less(lid, sub.accepted[n - 1].id) {
        LessOrNot(lid, sub.accepted[n - 1].id, e.id);
      }
    }
  }

  lemma ReplayedRepeats(sub: Sub, lid: Id, all: seq<Entry>)
    requires SubOk(sub, all) && !sub.closed && sub.replay.Pushing? && sub.replay.rest != [] && ReplaysNewer(sub, lid)
    ensures ReplaysNewer(Replayed(sub), lid) && (Repeated(Replayed(sub), lid) <==> Repeated(sub, lid))
    ensures Replayed(sub).closed == sub.closed
  {
    var e := sub.replay.rest[0];
    PushRepeats(sub, e, lid, all);
    hide Targets, Less, SubOk;
  }

  /** The part of a step that concerns what x accepted and has left to replay. */
  function OwnStep(c: Config, s: State, a: Action, x: nat): Sub
    requires Enabled(c, s, a) && x in s.subs
  {
    if a == ReplayRead(x) then ReplayStarted(c, s, s.subs[x])
    else if a == ReplayFail(x) then s.subs[x].(replay := Nothing)
    else if a == ReplayPush(x) then Replayed(s.subs[x])
    else if PushTo(a, x) then Push(s.subs[x], s.loops[a.l].current.value).sub
    else s.subs[x]
  }

  lemma OwnStepIs(c: Config, s: State, a: Action, x: nat)
    requires Enabled(c, s, a) && x in s.subs
    ensures var s' := Next(c, s, a);
      x in s'.subs && s'.subs[x].accepted == OwnStep(c, s, a, x).accepted && s'.subs[x].replay == OwnStep(c, s, a, x).replay
  {
    hide Published, Closed, Picked, ReadMore, PushReset, Push, ReplayStarted, Replayed, Subscribed, Joined, Count, Live, Dispatched;
    match a
    case Subscribe(y, l, t, u, lastId) => SubscribedIs(s, y, l, t, u, lastId);
    case ReplayFail(y) => ResetIs(s.subs[y].(replay := Nothing));
    case LoopClose(l, y) => ClosedIs(WithLoop(s, l, s.loops[l].(stalled := s.loops[l].stalled - {y})), y);
    case Close(y) => ClosedIs(s, y);
    case Publish(t, to, body) => PublishedIs(c, s, t, to, body);
    case _ =>
  }

  /** Over any step an open subscription repeats something exactly when it did before, or
      an old event is pushed to it live while nothing was stamped yet. */
  lemma StepRepeats(c: Config, s: State, a: Action, x: nat, lid: Id)
    requires Inv(c, s) && Enabled(c, s, a) && x in s.subs && !s.subs[x].closed && ReplaysNewer(s.subs[x], lid)
    ensures var s' := Next(c, s, a);
      && x in s'.subs && ReplaysNewer(s'.subs[x], lid)
      && (Repeated(s'.subs[x], lid) <==> Repeated(s.subs[x], lid) || (OldPush(s, a, x, lid) && s.subs[x].accepted == []))
  {
    hide *;
    OpenSub(c, s, x);
    OwnStepIs(c, s, a, x);
    OwnRepeats(c, s, a, x, lid, LogOf(s, s.subs[x].tenant).all);
    SameAccepted(OwnStep(c, s, a, x), Next(c, s, a).subs[x], lid);
    SameReplay(OwnStep(c, s, a, x), Next(c, s, a).subs[x], lid);
  }

  lemma OpenSub(c: Config, s: State, x: nat)
    requires Inv(c, s) && x in s.subs
    ensures SubOk(s.subs[x], LogOf(s, s.subs[x].tenant).all)
  {
    hide SubOk;
  }

  lemma OwnRepeats(c: Config, s: State, a: Action, x: nat, lid: Id, all: seq<Entry>)
    requires Enabled(c, s, a) && x in s.subs && !s.subs[x].closed && ReplaysNewer(s.subs[x], lid) && SubOk(s.subs[x], all)
    ensures ReplaysNewer(OwnStep(c, s, a, x), lid)
    ensures Repeated(OwnStep(c, s, a, x), lid) <==> Repeated(s.subs[x], lid) || (OldPush(s, a, x, lid) && s.subs[x].accepted == [])
  {
    var sub := s.subs[x];
    hide SubOk, Less, Push, ReplayStarted, Replayed, Repeated;
    if a == ReplayRead(x) {
      StartsNewer(c, s, sub, lid);
      SameAccepted(sub, ReplayStarted(c, s, sub), lid);
    } else if a == ReplayPush(x) {
      ReplayedRepeats(sub, lid, all);
    } else if PushTo(a, x) {
      PushRepeats(sub, s.loops[a.l].current.value, lid, all);
      PushReplay(sub, s.loops[a.l].current.value);
      SameReplay(sub, Push(sub, s.loops[a.l].current.value).sub, lid);
    } else {
      SameAccepted(sub, sub.(replay := Nothing), lid);
    }
  }

  lemma SameAccepted(a: Sub, b: Sub, lid: Id)
    requires a.accepted == b.accepted
    ensures Repeated(a, lid) <==> Repeated(b, lid)
  {
  }

  lemma SameReplay(a: Sub, b: Sub, lid: Id)
    requires a.replay == b.replay
    ensures ReplaysNewer(a, lid) <==> ReplaysNewer(b, lid)
  {
  }

  lemma ResetIs(sub: Sub)
    ensures PushReset(sub).replay == sub.replay && PushReset(sub).accepted == sub.accepted && PushReset(sub).closed == sub.closed
  {
  }

  lemma PushReplay(sub: Sub, e: Entry)
    ensures Push(sub, e).sub.replay == sub.replay && Push(sub, e).sub.closed == sub.closed
  {
  }

  // ------------------------------------------------------ what the loop pushes

  /** x is open, and only the loop of its tenant's record has it as a target. */
  ghost predicate Attached(s: State, x: nat) {
    && x in s.subs && !s.subs[x].closed && LoopOf(s, x) in s.loops
    && (forall l :: l in s.loops && x in s.loops[l].targets ==> l == LoopOf(s, x))
  }

  function StreamOf(s: State, x: nat): seq<Entry>
    requires x in s.subs
  {
    LogOf(s, s.subs[x].tenant).all
  }

  function ServedTo(s: State, x: nat): int
    requires x in s.subs && LoopOf(s, x) in s.loops
  {
    Served(StreamOf(s, x), s.loops[LoopOf(s, x)], x)
  }

  /** A step that is not about x: its record's loop, tenant and user stay. */
  ghost predicate Same(s: State, s': State, x: nat) {
    && x in s.subs && x in s'.subs && !s'.subs[x].closed
    && s'.subs[x].tenant == s.subs[x].tenant && s'.subs[x].user == s.subs[x].user
    && LoopOf(s', x) == LoopOf(s, x) && LoopOf(s, x) in s'.loops
  }

  /** What a step does to the stretch the loop has served to x: nothing, or one entry more,
      which is pushed to x exactly when it is addressed to it. */
  ghost predicate Moves(s: State, a: Action, s': State, x: nat) {
    && Attached(s, x) && Attached(s', x)
    && var all, d, d' := StreamOf(s, x), ServedTo(s, x), ServedTo(s', x);
    && all <= StreamOf(s', x) && Who(s'.subs[x], s.subs[x])
    && if d' == d then !PushTo(a, x)
       else
         && d' == d + 1 && 0 <= d < |all|
         && (PushTo(a, x) <==> Targets(all[d].to, s.subs[x].user))
         && (PushTo(a, x) ==> a.l in s.loops && s.loops[a.l].current == Some(all[d]))
  }

  /** Steps that leave x's stream and its loop's position and targets alone. */
  lemma QuietMoves(s: State, a: Action, s': State, x: nat)
    requires Attached(s, x) && Same(s, s', x) && StreamOf(s', x) == StreamOf(s, x) && !PushTo(a, x)
    requires forall l :: l in s'.loops && x in s'.loops[l].targets ==> l in s.loops && x in s.loops[l].targets
    requires var l := LoopOf(s, x); s'.loops[l].cursor == s.loops[l].cursor && (x in s.loops[l].targets ==> x in s'.loops[l].targets)
    ensures Moves(s, a, s', x)
  {
  }

  lemma OwnLoop(c: Config, s: State, x: nat)
    requires Inv(c, s) && Positions(s) && x in s.subs && !s.subs[x].closed
    ensures s.subs[x].tenant in s.tenants && LoopOf(s, x) in s.loops && s.loops[LoopOf(s, x)].tenant == s.subs[x].tenant
    ensures x in s.tenants[s.subs[x].tenant].conns && Accounts(c, s) && Loops(s)
    ensures Ordered(StreamOf(s, x)) && LoopAt(LogOf(s, s.subs[x].tenant), s.loops[LoopOf(s, x)], s.clock, s.counter)
  {
    var t := s.subs[x].tenant;
    assert TenantOk(c, s.tenants[t], t, s);
    LogAlways(c, s, t);
    hide LoopAt, SubOk, LoopOk;
  }

  lemma PublishMoves(c: Config, s: State, x: nat, t: string, to: string, body: string)
    requires Inv(c, s) && Positions(s) && Attached(s, x)
    ensures var s' := Published(c, s, t, to, body); Moves(s, Publish(t, to, body), s', x)
  {
    var s' := Published(c, s, t, to, body);
    hide Inv, Positions, LoopAt, Published, Position, Less, Targets, Accounts, Loops;
    OwnLoop(c, s, x);
    PublishedIs(c, s, t, to, body);
    var loop := s.loops[LoopOf(s, x)];
    LoopBelow(LogOf(s, loop.tenant), loop, s.clock, s.counter);
    PublishedLog(c, s, t, to, body, loop.tenant, loop.cursor);
    hide LogOf, Below;
    PositionAppend(LogOf(s, loop.tenant).all, LogOf(s', loop.tenant).all, loop.cursor);
  }

  /** The loop's next entry, read without a gap. */
  lemma PickServes(log: Log, loop: Loop, loop': Loop, x: nat, clock: nat, counter: nat)
    requires LoopAt(log, loop, clock, counter) && Ordered(log.all) && loop.batch != [] && x !in loop.targets
    requires log.trimmed <= Served(log.all, loop, x) && loop'.cursor == loop.batch[0].id
    ensures var d := Served(log.all, loop, x);
      0 <= d < |log.all| && loop.batch[0] == log.all[d] && Served(log.all, loop', x) == d + if x in loop'.targets then 0 else 1
  {
    NextIsNext(log, loop, clock, counter);
    hide LoopAt;
    AtIndex(log.all, Position(log.all, loop.cursor));
  }

  lemma PickOwn(s: State, x: nat, l: nat, loop': Loop)
    requires Attached(s, x) && l == LoopOf(s, x) && s.loops[l].batch != [] && x !in s.loops[l].targets
    requires LoopAt(LogOf(s, s.subs[x].tenant), s.loops[l], s.clock, s.counter) && Ordered(StreamOf(s, x))
    requires LogOf(s, s.subs[x].tenant).trimmed <= ServedTo(s, x) && loop'.cursor == s.loops[l].batch[0].id
    requires x in loop'.targets <==> Targets(s.loops[l].batch[0].to, s.subs[x].user)
    ensures var s' := WithLoop(s, l, loop'); Moves(s, LoopPick(l), s', x)
  {
    hide Targets, Position, Ordered, LoopAt, Served;
    PickServes(LogOf(s, s.subs[x].tenant), s.loops[l], loop', x, s.clock, s.counter);
  }

  lemma PickOther(s: State, x: nat, l: nat, loop': Loop)
    requires Attached(s, x) && l != LoopOf(s, x) && x !in loop'.targets
    ensures var s' := WithLoop(s, l, loop'); Moves(s, LoopPick(l), s', x)
  {
    hide Served;
  }

  lemma PickMoves(c: Config, s: State, x: nat, l: nat, loop': Loop)
    requires Attached(s, x) && LogOf(s, s.subs[x].tenant).trimmed <= ServedTo(s, x)
    requires l in s.loops && s.loops[l].batch != [] && s.loops[l].targets == {} && loop' == Picked(s, l)
    requires Inv(c, s) && Positions(s)
    ensures Moves(s, LoopPick(l), WithLoop(s, l, loop'), x)
  {
    assert loop'.cursor == s.loops[l].batch[0].id;
    hide Inv, Positions, Picked, Targets, Position, Ordered, LoopAt, Accounts, Loops, ServedTo, Moves, WithLoop, LogOf;
    OwnLoop(c, s, x);
    PicksOwn(c, s, l, x);
    if l == LoopOf(s, x) {
      PickOwn(s, x, l, loop');
    } else {
      PickOther(s, x, l, loop');
    }
  }

  lemma SameServed(all: seq<Entry>, loop: Loop, x: nat)
    ensures Served(all, loop, x) == Position(all, loop.cursor) - if x in loop.targets then 1 else 0
  {
  }

  lemma PushServes(log: Log, loop: Loop, subs: map<nat, Sub>, x: nat, ok: bool, clock: nat, counter: nat)
    requires LoopOk(loop, log.all, subs) && LoopAt(log, loop, clock, counter) && x in loop.targets
    ensures var d := Served(log.all, loop, x);
      && 0 <= d < |log.all| && loop.current == Some(log.all[d]) && x in subs && Targets(log.all[d].to, subs[x].user)
      && Served(log.all, Dispatched(loop, x, ok), x) == d + 1
  {
    TargetFacts(log, loop, subs, x, clock, counter);
    hide Targets;
  }

  lemma PushMoves(c: Config, s: State, x: nat, l: nat)
    requires Inv(c, s) && Positions(s) && Attached(s, x) && Enabled(c, s, LoopPush(l, x))
    ensures var s' := Next(c, s, LoopPush(l, x)); Moves(s, LoopPush(l, x), s', x)
  {
    hide Inv, Positions, Push, LoopOk, LoopAt, Position, Targets, Ordered, Accounts, Served;
    OwnLoop(c, s, x);
    var p := Push(s.subs[x], s.loops[l].current.value);
    PushSameTenant(s.subs[x], s.loops[l].current.value);
    PushReplay(s.subs[x], s.loops[l].current.value);
    assert l == LoopOf(s, x);
    PushServes(LogOf(s, s.subs[x].tenant), s.loops[l], s.subs, x, p.ok, s.clock, s.counter);
  }

  /** A step on a subscription that stays whose it is, and open if it is x. */
  lemma SubMoves(s: State, a: Action, x: nat, y: nat, sub: Sub)
    requires Attached(s, x) && y in s.subs && Who(sub, s.subs[y]) && !PushTo(a, x)
    ensures var s' := WithSub(s, y, sub); Moves(s, a, s', x)
  {
    hide Served;
  }

  lemma LoopMoves(s: State, a: Action, x: nat, l: nat, loop: Loop)
    requires Attached(s, x) && l in s.loops && !PushTo(a, x)
    requires loop.cursor == s.loops[l].cursor && (x in loop.targets <==> x in s.loops[l].targets)
    ensures var s' := WithLoop(s, l, loop); Moves(s, a, s', x)
  {
    hide Position;
    QuietMoves(s, a, WithLoop(s, l, loop), x);
  }

  lemma CloseMoves(c: Config, s: State, a: Action, x: nat, y: nat)
    requires Inv(c, s) && Positions(s) && Attached(s, x) && y in s.subs && y != x && !PushTo(a, x)
    ensures var s' := Closed(s, y); Moves(s, a, s', x)
  {
    hide Inv, Positions, LoopAt, Ordered, Accounts, Loops, Closed, Served;
    OwnLoop(c, s, x);
    ClosedIs(s, y);
    OthersKeepRecord(s, y, s.subs[x].tenant, x);
  }

  lemma MovesOn(s: State, mid: State, a: Action, s': State, x: nat)
    requires Attached(s, x) && Attached(mid, x) && !PushTo(a, x)
    requires StreamOf(mid, x) == StreamOf(s, x) && ServedTo(mid, x) == ServedTo(s, x) && mid.subs == s.subs
    requires Moves(mid, a, s', x)
    ensures Moves(s, a, s', x)
  {
    hide Served, Targets;
  }

  lemma Unstalled(s: State, x: nat, l: nat, loop: Loop)
    requires Attached(s, x) && l in s.loops && loop.cursor == s.loops[l].cursor && loop.targets == s.loops[l].targets
    ensures var s' := WithLoop(s, l, loop);
      Attached(s', x) && StreamOf(s', x) == StreamOf(s, x) && ServedTo(s', x) == ServedTo(s, x) && s'.subs == s.subs
  {
  }

  lemma LoopCloseMoves(c: Config, s: State, x: nat, l: nat, y: nat)
    requires Inv(c, s) && Positions(s) && Attached(s, x) && y in s.subs && y != x && l in s.loops
    ensures var s' := Closed(WithLoop(s, l, s.loops[l].(stalled := s.loops[l].stalled - {y})), y);
      Moves(s, LoopClose(l, y), s', x)
  {
    var loop := s.loops[l].(stalled := s.loops[l].stalled - {y});
    var mid := WithLoop(s, l, loop);
    assert mid.subs == s.subs;
    hide Inv, Positions, Moves, Closed, ServedTo, Attached, StreamOf;
    Unstalled(s, x, l, loop);
    UnstallKeeps(c, s, l, y);
    CloseMoves(c, mid, LoopClose(l, y), x, y);
    MovesOn(s, mid, LoopClose(l, y), Closed(mid, y), x);
  }

  lemma UnstallKeeps(c: Config, s: State, l: nat, y: nat)
    requires Inv(c, s) && Positions(s) && l in s.loops
    ensures var s' := WithLoop(s, l, s.loops[l].(stalled := s.loops[l].stalled - {y})); Inv(c, s') && Positions(s')
  {
    var loop := s.loops[l].(stalled := s.loops[l].stalled - {y});
    hide LogOk, SubOk, TenantOk, Positions;
    LoopKeeps(c, s, l, loop);
    PushPositions(s, l, loop);
  }

  lemma SubscribeMoves(c: Config, s: State, a: Action, x: nat)
    requires Inv(c, s) && Positions(s) && Attached(s, x) && Enabled(c, s, a) && a.Subscribe?
    ensures var s' := Next(c, s, a); Moves(s, a, s', x)
  {
    hide Inv, Positions, LoopAt, Ordered, Accounts, Loops, Served;
    OwnLoop(c, s, x);
    QuietMoves(s, a, Next(c, s, a), x);
  }

  lemma LogMoves(s: State, a: Action, x: nat, s': State)
    requires Attached(s, x) && s'.subs == s.subs && s'.loops == s.loops && s'.tenants == s.tenants && !PushTo(a, x)
    requires StreamOf(s', x) == StreamOf(s, x)
    ensures Moves(s, a, s', x)
  {
    hide Served;
  }

  lemma OtherMoves(c: Config, s: State, a: Action, x: nat)
    requires Attached(s, x) && Enabled(c, s, a)
    requires a.Tick? || a.Trim? || a.ReplayRead? || a.ReplayFail? || a.ReplayPush? || a.LoopRead? || a.Receive? || (a.LoopPush? && a.x != x)
    ensures var s' := Next(c, s, a); Moves(s, a, s', x)
  {
    KeepsWho(c, s, a);
    hide Push, ReplayStarted, Replayed, PushReset, ReadMore, Attached, Moves;
    match a
    case Tick => LogMoves(s, a, x, Next(c, s, a));
    case Trim(_, _) => LogMoves(s, a, x, Next(c, s, a));
    case ReplayRead(y) => SubMoves(s, a, x, y, ReplayStarted(c, s, s.subs[y]));
    case ReplayFail(y) => SubMoves(s, a, x, y, PushReset(s.subs[y].(replay := Nothing)));
    case ReplayPush(y) => SubMoves(s, a, x, y, Replayed(s.subs[y]));
    case Receive(y) => SubMoves(s, a, x, y, s.subs[y].(waiting := s.subs[y].waiting - 1));
    case LoopRead(l) => LoopMoves(s, a, x, l, ReadMore(s, s.loops[l]));
    case LoopPush(l, y) => OtherPush(s, x, l, y);
  }

  lemma OtherPush(s: State, x: nat, l: nat, y: nat)
    requires Attached(s, x) && l in s.loops && y in s.subs && y != x && s.loops[l].current.Some?
    ensures var p := Push(s.subs[y], s.loops[l].current.value);
      var s' := WithLoop(WithSub(s, y, p.sub), l, Dispatched(s.loops[l], y, p.ok));
      Moves(s, LoopPush(l, y), s', x)
  {
    var p := Push(s.subs[y], s.loops[l].current.value);
    hide Push, Position;
    QuietMoves(s, LoopPush(l, y), WithLoop(WithSub(s, y, p.sub), l, Dispatched(s.loops[l], y, p.ok)), x);
  }

  /** Replaying and pushing change neither whose a subscription is nor whether it is open. */
  lemma KeepsWho(c: Config, s: State, a: Action)
    requires Enabled(c, s, a)
    ensures a.ReplayRead? ==> Who(ReplayStarted(c, s, s.subs[a.x]), s.subs[a.x])
    ensures a.ReplayFail? ==> Who(PushReset(s.subs[a.x].(replay := Nothing)), s.subs[a.x])
    ensures a.ReplayPush? ==> Who(Replayed(s.subs[a.x]), s.subs[a.x])
    ensures a.LoopPush? ==> Who(Push(s.subs[a.x], s.loops[a.l].current.value).sub, s.subs[a.x])
    ensures a.LoopRead? ==> var l := s.loops[a.l]; ReadMore(s, l).cursor == l.cursor && ReadMore(s, l).targets == l.targets
  {
    hide InWindow, ParseId, Newer, Live, Targets, Less;
  }

  predicate Who(a: Sub, b: Sub) {
    a.tenant == b.tenant && a.user == b.user && a.closed == b.closed
  }

  /** Every step that does not close x. */
  lemma StepMoves(c: Config, s: State, a: Action, x: nat)
    requires Attached(s, x) && LogOf(s, s.subs[x].tenant).trimmed <= ServedTo(s, x)
    requires Inv(c, s) && Positions(s) && Enabled(c, s, a)
    requires a != Close(x) && !(a.LoopClose? && a.x == x)
    ensures var s' := Next(c, s, a); Moves(s, a, s', x)
  {
    hide Inv, Positions, Attached, Moves, Published, Picked, Closed, Push;
    match a
    case Publish(t, to, body) => PublishMoves(c, s, x, t, to, body);
    case LoopPick(l) => PickMoves(c, s, x, l, Picked(s, l));
    case LoopPush(l, y) =>
      if y == x { PushMoves(c, s, x, l); } else { OtherMoves(c, s, a, x); }
    case LoopClose(l, y) => LoopCloseMoves(c, s, x, l, y);
    case Close(y) => CloseMoves(c, s, a, x, y);
    case Subscribe(_, _, _, _, _) => SubscribeMoves(c, s, a, x);
    case _ => OtherMoves(c, s, a, x);
  }

  // --------------------------------------------------------------- whole runs

  /** Between the position the loop had served when x subscribed and the one it has served
      now lies an event addressed to x that is not newer than lid. */
  ghost predicate Behind(all: seq<Entry>, from: int, to: int, user: string, lid: Id) {
    exists p :: 0 <= from <= p < to <= |all| && Targets(all[p].to, user) && !Less(lid, all[p].id)
  }

  ghost predicate BehindAt(s: State, x: nat, from: int, lid: Id) {
    x in s.subs && LoopOf(s, x) in s.loops && Behind(StreamOf(s, x), from, ServedTo(s, x), s.subs[x].user, lid)
  }

  lemma BehindMoves(s: State, a: Action, s': State, x: nat, from: int, lid: Id)
    requires Moves(s, a, s', x) && 0 <= from <= ServedTo(s, x) <= |StreamOf(s, x)|
    ensures BehindAt(s', x, from, lid) <==> BehindAt(s, x, from, lid) || OldPush(s, a, x, lid)
    ensures from <= ServedTo(s', x) <= |StreamOf(s', x)|
  {
    var all, d, all', d' := StreamOf(s, x), ServedTo(s, x), StreamOf(s', x), ServedTo(s', x);
    var u := s.subs[x].user;
    hide Targets, Less, Served;
    assert forall p :: 0 <= p < d ==> all'[p] == all[p];
    if BehindAt(s, x, from, lid) {
      var p :| 0 <= from <= p < d && Targets(all[p].to, u) && !Less(lid, all[p].id);
      assert all'[p] == all[p];
    }
    if d' == d + 1 && OldPush(s, a, x, lid) {
      assert all'[d] == all[d];
    }
  }

  lemma {:induction false} PositionWithin(all: seq<Entry>, id: Id)
    ensures Position(all, id) <= |all|
  {
    hide Less;
    if all != [] {
      PositionWithin(all[1..], id);
    }
  }

  lemma OwnGrows(c: Config, s: State, a: Action, x: nat)
    requires Enabled(c, s, a) && x in s.subs
    ensures s.subs[x].accepted <= OwnStep(c, s, a, x).accepted
  {
    hide Targets, Less, InWindow, ParseId, Newer, Live;
  }

  /** x subscribes at step i with lid as its last id, is not closed up to state j, and the
      loop finds everything after its position then still in the stream. */
  ghost predicate Reopened(run: seq<State>, acts: seq<Action>, i: nat, j: nat, x: nat, lid: Id) {
    && i < j < |run| == |acts| + 1
    && acts[i].Subscribe? && acts[i].x == x && acts[i].lastId != "" && ParseId(acts[i].lastId).id == lid
    && x in run[i + 1].subs && LoopOf(run[i + 1], x) in run[i + 1].loops
    && (forall m :: i < m < j ==> Undropped(run[m], acts[m], x, ServedTo(run[i + 1], x)))
  }

  ghost predicate Undropped(s: State, a: Action, x: nat, from: int) {
    && x in s.subs && LogOf(s, s.subs[x].tenant).trimmed <= from
    && a != Close(x) && !(a.LoopClose? && a.x == x)
  }

  /** What holds of x in every state of such a run. */
  ghost predicate Resumed(s: State, x: nat, from: int, lid: Id) {
    Attached(s, x) && ReplaysNewer(s.subs[x], lid) && 0 <= from <= ServedTo(s, x) <= |StreamOf(s, x)|
  }

  lemma SubscribedSub(s: State, x: nat, l: nat, t: string, u: string, lastId: string)
    requires x !in s.subs && (forall k :: k in s.loops ==> x !in s.loops[k].targets)
    ensures var s' := Subscribed(s, x, l, t, u, lastId);
      s'.subs[x] == NewSub(t, u, lastId) && forall k :: k in s'.loops ==> x !in s'.loops[k].targets
  {
    FreshLoop(s, t);
    hide NewLoop;
  }

  lemma FreshResumed(s: State, x: nat, lid: Id)
    requires x in s.subs && !s.subs[x].closed && LoopOf(s, x) in s.loops && ReplaysNewer(s.subs[x], lid)
    requires forall k :: k in s.loops ==> x !in s.loops[k].targets
    ensures Resumed(s, x, ServedTo(s, x), lid) && !BehindAt(s, x, ServedTo(s, x), lid)
  {
    PositionWithin(StreamOf(s, x), s.loops[LoopOf(s, x)].cursor);
    hide Position, ReplaysNewer, LogOf, Targets, Less;
  }

  lemma StartResumed(c: Config, s: State, a: Action, lid: Id)
    requires Inv(c, s) && Enabled(c, s, a) && a.Subscribe? && a.lastId != "" && ParseId(a.lastId).id == lid
    requires Inv(c, Next(c, s, a)) && Positions(Next(c, s, a))
    ensures var s', x := Next(c, s, a), a.x;
      && x in s'.subs && LoopOf(s', x) in s'.loops && Resumed(s', x, ServedTo(s', x), lid)
      && s'.subs[x].accepted == [] && !BehindAt(s', x, ServedTo(s', x), lid)
  {
    var s', x := Next(c, s, a), a.x;
    assert x !in s.subs && s' == Subscribed(s, x, a.l, a.tenant, a.user, a.lastId);
    hide Inv, Positions, ParseId, Next, Enabled, Subscribed, Resumed, BehindAt, ServedTo, LoopOf;
    forall k | k in s.loops ensures x !in s.loops[k].targets {
      NotYetTarget(c, s, k, x);
    }
    SubscribedIs(s, x, a.l, a.tenant, a.user, a.lastId);
    SubscribedSub(s, x, a.l, a.tenant, a.user, a.lastId);
    hide LoopAt, Ordered, Accounts, Loops, StreamOf, LogOf;
    OwnLoop(c, s', x);
    FreshResumed(s', x, lid);
  }

  lemma FreshLoop(s: State, t: string)
    ensures NewLoop(s, t).targets == {}
  {
  }

  lemma ResumedStep(c: Config, s: State, a: Action, x: nat, from: int, lid: Id)
    requires Inv(c, s) && Positions(s) && Enabled(c, s, a) && Resumed(s, x, from, lid) && Undropped(s, a, x, from)
    ensures var s' := Next(c, s, a);
      && Resumed(s', x, from, lid)
      && (BehindAt(s', x, from, lid) <==> BehindAt(s, x, from, lid) || OldPush(s, a, x, lid))
      && (Repeated(s'.subs[x], lid) <==> Repeated(s.subs[x], lid) || (OldPush(s, a, x, lid) && s.subs[x].accepted == []))
      && s.subs[x].accepted <= s'.subs[x].accepted
  {
    assert x in s.subs && !s.subs[x].closed;
    hide Inv, Positions, Enabled, Next, ReplaysNewer, BehindAt, OldPush, Repeated, Moves, ServedTo, StreamOf, LogOf;
    StepMoves(c, s, a, x);
    StepRepeats(c, s, a, x, lid);
    OwnStepIs(c, s, a, x);
    OwnGrows(c, s, a, x);
    BehindMoves(s, a, Next(c, s, a), x, from, lid);
  }

  lemma ReopenedStep(run: seq<State>, acts: seq<Action>, i: nat, j: nat, x: nat, lid: Id)
    requires Reopened(run, acts, i, j, x, lid) && i + 1 < j
    ensures Reopened(run, acts, i, j - 1, x, lid) && Undropped(run[j - 1], acts[j - 1], x, ServedTo(run[i + 1], x))
  {
    hide Undropped, ServedTo, ParseId, LoopOf;
  }

  /** Which old event is pushed first, and what that decides. */
  ghost predicate FirstDecides(run: seq<State>, acts: seq<Action>, i: nat, j: nat, x: nat, lid: Id, first: nat)
    requires j < |run| == |acts| + 1
  {
    && i < first < j && OldPush(run[first], acts[first], x, lid) && (forall m :: i < m < first ==> !OldPush(run[m], acts[m], x, lid))
    && x in run[first].subs && x in run[j].subs
    && (Repeated(run[j].subs[x], lid) <==> run[first].subs[x].accepted == [])
    && (run[first].subs[x].accepted != [] ==> run[j].subs[x].accepted != [])
  }

  /** What RunResumed carries from state to state. */
  ghost predicate Decided(run: seq<State>, acts: seq<Action>, i: nat, j: nat, x: nat, lid: Id, from: int, first: nat)
    requires j < |run| == |acts| + 1
  {
    && Resumed(run[j], x, from, lid)
    && (!BehindAt(run[j], x, from, lid) ==>
          !Repeated(run[j].subs[x], lid) && forall m :: i < m < j ==> !OldPush(run[m], acts[m], x, lid))
    && (BehindAt(run[j], x, from, lid) ==> FirstDecides(run, acts, i, j, x, lid, first))
  }

  lemma DecidedStep(c: Config, run: seq<State>, acts: seq<Action>, i: nat, j: nat, x: nat, lid: Id, from: int, f: nat) returns (first: nat)
    requires i < j < |acts| == |run| - 1 && Decided(run, acts, i, j, x, lid, from, f)
    requires Inv(c, run[j]) && Positions(run[j]) && Enabled(c, run[j], acts[j]) && run[j + 1] == Next(c, run[j], acts[j])
    requires Undropped(run[j], acts[j], x, from)
    ensures Decided(run, acts, i, j + 1, x, lid, from, first)
  {
    hide Inv, Positions, Enabled, Next, BehindAt, OldPush, Repeated, Undropped, ReplaysNewer, ServedTo, StreamOf;
    ResumedStep(c, run[j], acts[j], x, from, lid);
    first := if BehindAt(run[j], x, from, lid) then f else j;
  }

  lemma NotRepeated(sub: Sub, lid: Id)
    requires sub.accepted == []
    ensures !Repeated(sub, lid)
  {
  }

  lemma DecidedStart(c: Config, run: seq<State>, acts: seq<Action>, i: nat, x: nat, lid: Id)
    requires i < |acts| == |run| - 1 && acts[i].Subscribe? && acts[i].x == x && acts[i].lastId != "" && ParseId(acts[i].lastId).id == lid
    requires Inv(c, run[i]) && Enabled(c, run[i], acts[i]) && run[i + 1] == Next(c, run[i], acts[i])
    requires Inv(c, run[i + 1]) && Positions(run[i + 1]) && x in run[i + 1].subs && LoopOf(run[i + 1], x) in run[i + 1].loops
    ensures Decided(run, acts, i, i + 1, x, lid, ServedTo(run[i + 1], x), 0)
  {
    hide Inv, Positions, Enabled, Next, BehindAt, OldPush, Repeated, Resumed, ServedTo, LoopOf, ParseId, FirstDecides;
    StartResumed(c, run[i], acts[i], lid);
    NotRepeated(run[i + 1].subs[x], lid);
  }

  lemma ReopenedStart(run: seq<State>, acts: seq<Action>, i: nat, j: nat, x: nat, lid: Id)
    requires Reopened(run, acts, i, j, x, lid)
    ensures i < j < |run| == |acts| + 1
    ensures acts[i].Subscribe? && acts[i].x == x && acts[i].lastId != "" && ParseId(acts[i].lastId).id == lid
    ensures x in run[i + 1].subs && LoopOf(run[i + 1], x) in run[i + 1].loops
  {
  }

  lemma {:induction false} RunResumed(c: Config, run: seq<State>, acts: seq<Action>, i: nat, j: nat, x: nat, lid: Id) returns (first: nat)
    requires ConfigOk(c) && IsRun(c, run, acts) && Reopened(run, acts, i, j, x, lid)
    ensures Decided(run, acts, i, j, x, lid, ServedTo(run[i + 1], x), first)
    decreases j
  {
    hide *;
    ReopenedStart(run, acts, i, j, x, lid);
    RunStep(c, run, acts, j - 1);
    if i + 1 == j {
      RunPositions(c, run, acts, j);
      DecidedStart(c, run, acts, i, x, lid);
      first := 0;
    } else {
      ReopenedStep(run, acts, i, j, x, lid);
      var f := RunResumed(c, run, acts, i, j - 1, x, lid);
      first := DecidedStep(c, run, acts, i, j - 1, x, lid, ServedTo(run[i + 1], x), f);
    }
  }

  /** Over every run, wherever the loop stood: as soon as the loop has served an event that
      is addressed to x and not newer than the last id x came with, such events are
      delivered again, if and only if nothing had been stamped when the first of them was
      pushed; and while it has served none, none is. */
  lemma RepeatedExact(c: Config, run: seq<State>, acts: seq<Action>, i: nat, j: nat, x: nat, lid: Id) returns (first: nat)
    requires ConfigOk(c) && IsRun(c, run, acts) && Reopened(run, acts, i, j, x, lid)
    ensures x in run[j].subs && (Repeated(run[j].subs[x], lid) ==> BehindAt(run[j], x, ServedTo(run[i + 1], x), lid))
    ensures BehindAt(run[j], x, ServedTo(run[i + 1], x), lid) ==> (
      && i < first < j && OldPush(run[first], acts[first], x, lid) && (forall m :: i < m < first ==> !OldPush(run[m], acts[m], x, lid))
      && x in run[first].subs && (Repeated(run[j].subs[x], lid) <==> run[first].subs[x].accepted == []))
  {
    hide Inv, Positions, Next, Enabled, IsRun, BehindAt, OldPush, Repeated, ServedTo, Reopened, ReplaysNewer;
    first := RunResumed(c, run, acts, i, j, x, lid);
  }
}

/** A run in which a reconnecting client is sent again what it has. */
module HubRepeatRun {
  import opened Common
  import opened StreamIds
  import opened StreamLog
  import opened HubProtocol
  import opened HubLimits
  import opened HubRepeats

  /** Another user's stream has started the loop; an event is published; a client that has
      it reconnects before the loop dispatches it. */
  const Early: seq<Action> := [Subscribe(1, 0, "t", "v", ""), Publish("t", A.to, A.body), Subscribe(0, 9, "t", "u", "0-1"),
                               LoopRead(0), LoopPick(0), LoopPush(0, 0)]

  const Other := Sub("t", "v", None, false, [], [], 0, Nothing)
  const Both := TenantSub(0, {0, 1}, map["v" := 1, "u" := 1])

  function With(all: seq<Entry>, ts: TenantSub, loop: Loop, subs: map<nat, Sub>): State {
    State(0, |all|, if all == [] then map[] else map["t" := Log(all, 0)], map["t" := ts], map[0 := loop], subs)
  }

  const Begin := Loop("t", Id(0, 0), [], None, {}, {})
  const E1 := With([], TenantSub(0, {1}, map["v" := 1]), Begin, map[1 := Other])
  const E2 := With([A], TenantSub(0, {1}, map["v" := 1]), Begin, map[1 := Other])
  const E3 := With([A], Both, Begin, map[1 := Other, 0 := Opened])
  const E4 := With([A], Both, Begin.(batch := [A]), map[1 := Other, 0 := Opened])
  const E5 := With([A], Both, Loop("t", A.id, [], Some(A), {0, 1}, {}), map[1 := Other, 0 := Opened])
  const E6 := With([A], Both, Loop("t", A.id, [], Some(A), {1}, {}),
                   map[1 := Other, 0 := Sub("t", "u", Some(A.id), false, [A], [A], 1, Asked("0-1"))])

  lemma Early1()
    ensures Steps(Init, Early[0], E1) && Steps(E1, Early[1], E2)
  {
    var s := Next(Defaults, Init, Early[0]);
    assert s.tenants == E1.tenants && s.loops == E1.loops && s.subs == E1.subs && s.logs == E1.logs;
    assert [] + [A] == [A];
    assert Next(Defaults, E1, Early[1]).logs == E2.logs;
  }

  lemma Early2()
    ensures Steps(E2, Early[2], E3)
  {
    var s := Next(Defaults, E2, Early[2]);
    assert {1} + {0} == {0, 1};
    assert s.tenants == E3.tenants && s.loops == E3.loops && s.subs == E3.subs;
  }

  lemma ReadsFirst()
    ensures Newer([A], Id(0, 0)) == [A]
  {
    assert [A][..0] == [] && Newer([], Id(0, 0)) == [];
  }

  lemma Early3()
    ensures Steps(E3, Early[3], E4)
  {
    ReadsFirst();
    assert LogOf(E3, "t") == Log([A], 0) && [A][0..] == [A];
    hide Newer;
    assert ReadMore(E3, Begin) == Begin.(batch := [A]);
    hide ReadMore;
    assert E3.loops == map[0 := Begin];
    assert Next(Defaults, E3, Early[3]).loops == E4.loops;
  }

  lemma Early4()
    ensures Steps(E4, Early[4], E5)
  {
    var s := Next(Defaults, E4, Early[4]);
    assert [A][1..] == [];
    assert s.loops[0].targets == {0, 1};
    assert s.loops[0] == E5.loops[0];
    assert s.loops == E5.loops;
  }

  lemma Early5()
    ensures Steps(E5, Early[5], E6)
  {
    var s := Next(Defaults, E5, Early[5]);
    assert [] + [A] == [A] && {0, 1} - {0} == {1};
    assert s.loops[0] == E6.loops[0] && s.subs[0] == E6.subs[0];
    assert s.loops == E6.loops && s.subs == E6.subs;
  }

  lemma EarlyRuns() returns (run: seq<State>)
    ensures IsRun(Defaults, run, Early) && run[6] == E6
  {
    hide Enabled, Next, With;
    Early1(); Early2(); Early3(); Early4(); Early5();
    var states := [E1, E2, E3, E4, E5, E6];
    var acts: seq<Action>;
    run, acts := [Init], [];
    assert IsRun(Defaults, run, acts);
    hide IsRun;
    for i := 0 to 6
      invariant |run| == i + 1 && acts == Early[..i] && IsRun(Defaults, run, acts)
      invariant run[i] == if i == 0 then Init else states[i - 1]
    {
      assert Steps(run[i], Early[i], states[i]);
      RunExtends(run, acts, Early[i], states[i]);
      run, acts := run + [states[i]], acts + [Early[i]];
    }
    assert Early[..6] == Early;
  }

  /** The client is sent again the very event whose id it reconnected with. */
  lemma ReconnectRepeats() returns (run: seq<State>)
    ensures IsRun(Defaults, run, Early) && ParseId("0-1") == ParsedId(A.id, true)
    ensures 0 in run[6].subs && run[6].subs[0].sent == [A] && Repeated(run[6].subs[0], A.id)
  {
    run := EarlyRuns();
    hide IsRun;
    Step8();
    assert E6.subs[0].accepted[0] == A && !Less(A.id, A.id);
  }
}
