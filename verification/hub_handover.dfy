/** Handover from replay to live delivery: when nothing newer than the client's last
    id was trimmed and the buffer keeps room, a reconnecting subscription receives what it
    missed, once and in order, exactly when no live push overtakes an event that its
    replay still has to deliver. */
module HubHandover {
  import opened Common
  import opened StreamIds
  import opened StreamLog
  import opened HubProtocol
  import opened HubSafety

  /** The entries addressed to a user, in stream order. */
  function Addressed(es: seq<Entry>, user: string): seq<Entry> {
    if es == [] then []
    else
      var e := es[|es| - 1];
      Addressed(es[..|es| - 1], user) + if Targets(e.to, user) then [e] else []
  }

  lemma {:induction false} AddressedConcat(a: seq<Entry>, b: seq<Entry>, user: string)
    ensures Addressed(a + b, user) == Addressed(a, user) + Addressed(b, user)
  {
    if b == [] {
      assert a + b == a;
    } else {
      assert (a + b)[..|a + b| - 1] == a + b[..|b| - 1];
      AddressedConcat(a, b[..|b| - 1], user);
    }
  }

  lemma {:induction false} AddressedIn(es: seq<Entry>, user: string, e: Entry)
    ensures e in Addressed(es, user) <==> e in es && Targets(e.to, user)
  {
    if es != [] {
      AddressedIn(es[..|es| - 1], user, e);
      assert es == es[..|es| - 1] + [es[|es| - 1]];
    }
  }

  /** The entries from one position to the next addressed to a user. */
  function Span(all: seq<Entry>, from: int, to: int, user: string): seq<Entry>
    requires 0 <= from <= to <= |all|
  {
    Addressed(all[from..to], user)
  }

  lemma SpanJoins(all: seq<Entry>, i: int, j: int, k: int, user: string)
    requires 0 <= i <= j <= k <= |all|
    ensures Span(all, i, k, user) == Span(all, i, j, user) + Span(all, j, k, user)
  {
    AddressedConcat(all[i..j], all[j..k], user);
    assert all[i..j] + all[j..k] == all[i..k];
  }

  lemma SpanOne(all: seq<Entry>, i: int, user: string)
    requires 0 <= i < |all|
    ensures Span(all, i, i + 1, user) == if Targets(all[i].to, user) then [all[i]] else []
  {
    assert all[i..i + 1] == [all[i]];
    assert [all[i]][..0] == [];
    assert Addressed([], user) == [];
  }

  // --------------------------------------------------------- where a loop is

  ghost predicate Slice(all: seq<Entry>, part: seq<Entry>, b: nat) {
    b + |part| <= |all| && forall i :: 0 <= i < |part| ==> part[i] == all[b + i]
  }

  ghost predicate Below(id: Id, clock: nat, counter: nat) {
    0 <= id.ms <= clock && 0 <= id.num <= counter
  }

  /** A loop has read a stretch of the stream that starts right after its cursor, or
      later only where trimming overtook it; the picked entry is the one at the cursor. */
  ghost predicate LoopAt(log: Log, loop: Loop, clock: nat, counter: nat) {
    var p := Position(log.all, loop.cursor);
    && Below(loop.cursor, clock, counter)
    && (exists b: nat :: Slice(log.all, loop.batch, b) && p <= b && (b == p || b <= log.trimmed))
    && (loop.targets != {} ==> p > 0 && loop.current == Some(log.all[p - 1]))
  }

  ghost predicate Positions(s: State) {
    forall l :: l in s.loops ==> LoopAt(LogOf(s, s.loops[l].tenant), s.loops[l], s.clock, s.counter)
  }

  lemma AtIndex(all: seq<Entry>, i: nat)
    requires Ordered(all) && i < |all|
    ensures Position(all, all[i].id) == i + 1
  {
    PositionUnique(all, all[i].id, i + 1);
  }

  lemma PositionAppend(all: seq<Entry>, more: seq<Entry>, id: Id)
    requires all <= more && forall i :: |all| <= i < |more| ==> Less(id, more[i].id)
    ensures Position(more, id) == Position(all, id)
  {
    PositionUnique(more, id, Position(all, id));
  }

  /** Where a read of the live part starts in the whole stream. */
  function ReadFrom(log: Log, id: Id): nat {
    var p := Position(log.all, id);
    if p < log.trimmed then log.trimmed else p
  }

  lemma LiveAt(log: Log)
    requires log.trimmed <= |log.all| && Ordered(log.all)
    ensures |Live(log)| == |log.all| - log.trimmed && Ordered(Live(log))
    ensures forall i :: 0 <= i < |Live(log)| ==> Live(log)[i] == log.all[log.trimmed + i]
  {
    hide Less;
  }

  lemma LivePosition(log: Log, id: Id)
    requires log.trimmed <= |log.all| && Ordered(log.all)
    ensures ReadFrom(log, id) <= |log.all| && Position(Live(log), id) == ReadFrom(log, id) - log.trimmed
  {
    NewerIsSuffix(log.all, id);
    LiveAt(log);
    hide Newer, Position, Less, Ordered, Live;
    PositionUnique(Live(log), id, ReadFrom(log, id) - log.trimmed);
  }

  lemma ReadStretch(log: Log, id: Id)
    requires log.trimmed <= |log.all| && Ordered(log.all)
    ensures ReadFrom(log, id) <= |log.all| && Newer(Live(log), id) == log.all[ReadFrom(log, id)..]
  {
    hide Newer, Position, Less, Ordered;
    LiveAt(log);
    LivePosition(log, id);
    NewerIsSuffix(Live(log), id);
    assert Live(log)[ReadFrom(log, id) - log.trimmed..] == log.all[ReadFrom(log, id)..];
  }

  lemma LoopGrows(log: Log, log': Log, loop: Loop, clock: nat, counter: nat, counter': nat)
    requires LoopAt(log, loop, clock, counter) && counter <= counter'
    requires log.all <= log'.all && log.trimmed <= log'.trimmed
    requires forall i :: |log.all| <= i < |log'.all| ==> Less(loop.cursor, log'.all[i].id)
    ensures LoopAt(log', loop, clock, counter')
  {
    PositionAppend(log.all, log'.all, loop.cursor);
    var p := Position(log.all, loop.cursor);
    var b: nat :| Slice(log.all, loop.batch, b) && p <= b && (b == p || b <= log.trimmed);
    assert Slice(log'.all, loop.batch, b);
  }

  lemma LoopPicks(log: Log, loop: Loop, loop': Loop, clock: nat, counter: nat)
    requires LoopAt(log, loop, clock, counter) && Ordered(log.all) && loop.batch != []
    requires forall e :: e in log.all ==> Below(e.id, clock, counter)
    requires loop'.cursor == loop.batch[0].id && loop'.batch == loop.batch[1..] && loop'.current == Some(loop.batch[0])
    ensures LoopAt(log, loop', clock, counter)
  {
    var p := Position(log.all, loop.cursor);
    var b: nat :| Slice(log.all, loop.batch, b) && p <= b && (b == p || b <= log.trimmed);
    assert loop.batch[0] == log.all[b];
    AtIndex(log.all, b);
    assert Slice(log.all, loop'.batch, b + 1);
    assert log.all[b] in log.all;
  }

  lemma LoopReads(log: Log, loop: Loop, clock: nat, counter: nat)
    requires LoopAt(log, loop, clock, counter) && Ordered(log.all) && log.trimmed <= |log.all| && loop.targets == {}
    ensures LoopAt(log, loop.(batch := Cut(Newer(Live(log), loop.cursor), READ_COUNT)), clock, counter)
  {
    ReadStretch(log, loop.cursor);
    var read := Cut(Newer(Live(log), loop.cursor), READ_COUNT);
    assert Slice(log.all, read, ReadFrom(log, loop.cursor));
  }

  lemma NewLoopAt(c: Config, s: State, t: string)
    requires Logs(c, s)
    ensures LoopAt(LogOf(s, t), NewLoop(s, t), s.clock, s.counter)
  {
    var log := LogOf(s, t);
    LogAlways(c, s, t);
    assert Slice(log.all, [], Position(log.all, NewLoop(s, t).cursor));
  }

  lemma PublishedLog(c: Config, s: State, t: string, to: string, body: string, u: string, cursor: Id)
    requires Below(cursor, s.clock, s.counter)
    ensures var log, log' := LogOf(s, u), LogOf(Published(c, s, t, to, body), u);
      && log.all <= log'.all && log.trimmed <= log'.trimmed
      && forall i :: |log.all| <= i < |log'.all| ==> Less(cursor, log'.all[i].id)
  {
  }

  lemma PublishPositions(c: Config, s: State, t: string, to: string, body: string)
    requires Logs(c, s) && Positions(s)
    ensures Positions(Published(c, s, t, to, body))
  {
    var s' := Published(c, s, t, to, body);
    assert s'.loops == s.loops && s'.clock == s.clock && s.counter <= s'.counter;
    hide LoopAt, Published, LogOf, Logs, Below;
    forall l | l in s.loops ensures LoopAt(LogOf(s', s.loops[l].tenant), s.loops[l], s.clock, s'.counter) {
      var loop := s.loops[l];
      LoopBelow(LogOf(s, loop.tenant), loop, s.clock, s.counter);
      PublishedLog(c, s, t, to, body, loop.tenant, loop.cursor);
      LoopGrows(LogOf(s, loop.tenant), LogOf(s', loop.tenant), loop, s.clock, s.counter, s'.counter);
    }
  }

  lemma LoopBelow(log: Log, loop: Loop, clock: nat, counter: nat)
    requires LoopAt(log, loop, clock, counter)
    ensures Below(loop.cursor, clock, counter)
  {
  }

  lemma OneLoopMoves(s: State, l: nat, loop: Loop)
    requires Positions(s) && l in s.loops
    requires loop.tenant == s.loops[l].tenant && LoopAt(LogOf(s, loop.tenant), loop, s.clock, s.counter)
    ensures Positions(WithLoop(s, l, loop))
  {
  }

  lemma PickPositions(c: Config, s: State, l: nat)
    requires Logs(c, s) && Positions(s) && l in s.loops && s.loops[l].batch != []
    ensures Positions(WithLoop(s, l, Picked(s, l)))
  {
    var log, loop := LogOf(s, s.loops[l].tenant), s.loops[l];
    LogAlways(c, s, loop.tenant);
    LoopPicks(log, loop, Picked(s, l), s.clock, s.counter);
    hide LoopAt;
    OneLoopMoves(s, l, Picked(s, l));
  }

  lemma ReadPositions(c: Config, s: State, l: nat)
    requires Logs(c, s) && Positions(s) && l in s.loops && s.loops[l].targets == {}
    ensures Positions(WithLoop(s, l, ReadMore(s, s.loops[l])))
  {
    hide LoopAt;
    var log := LogOf(s, s.loops[l].tenant);
    LogAlways(c, s, s.loops[l].tenant);
    LoopReads(log, s.loops[l], s.clock, s.counter);
    OneLoopMoves(s, l, ReadMore(s, s.loops[l]));
  }

  /** Pushing and closing leave the cursor where it is. */
  lemma PushPositions(s: State, l: nat, loop: Loop)
    requires Positions(s) && l in s.loops
    requires loop.tenant == s.loops[l].tenant && loop.cursor == s.loops[l].cursor && loop.batch == s.loops[l].batch
    requires loop.current == s.loops[l].current && loop.targets <= s.loops[l].targets
    ensures Positions(WithLoop(s, l, loop))
  {
    assert LoopAt(LogOf(s, loop.tenant), s.loops[l], s.clock, s.counter);
    assert LoopAt(LogOf(s, loop.tenant), loop, s.clock, s.counter);
    hide LoopAt;
    OneLoopMoves(s, l, loop);
  }

  lemma KeepsPositions(c: Config, s: State, a: Action)
    requires Logs(c, s) && Positions(s) && Enabled(c, s, a)
    ensures Positions(Next(c, s, a))
  {
    hide Positions, Logs, Published, Subscribed, ReadMore, Picked, Push, ReplayStarted, Replayed, PushReset, Closed;
    match a
    case Tick => TickPositions(s);
    case Publish(t, to, body) => PublishPositions(c, s, t, to, body);
    case Trim(t, n) => TrimPositions(s, t, n);
    case Subscribe(x, l, t, u, lastId) => SubscribePositions(c, s, x, l, t, u, lastId);
    case ReplayRead(x) => SubPositions(s, x, ReplayStarted(c, s, s.subs[x]));
    case ReplayFail(x) => SubPositions(s, x, PushReset(s.subs[x].(replay := Nothing)));
    case ReplayPush(x) => SubPositions(s, x, Replayed(s.subs[x]));
    case LoopRead(l) => ReadPositions(c, s, l);
    case LoopPick(l) => PickPositions(c, s, l);
    case LoopPush(l, x) =>
      var p := Push(s.subs[x], s.loops[l].current.value);
      SubPositions(s, x, p.sub);
      PushPositions(WithSub(s, x, p.sub), l, Dispatched(s.loops[l], x, p.ok));
    case LoopClose(l, x) =>
      var loop := s.loops[l].(stalled := s.loops[l].stalled - {x});
      PushPositions(s, l, loop);
      ClosePositions(WithLoop(s, l, loop), x);
    case Close(x) => ClosePositions(s, x);
    case Receive(x) => SubPositions(s, x, s.subs[x].(waiting := s.subs[x].waiting - 1));
  }

  lemma SubscribePositions(c: Config, s: State, x: nat, l: nat, t: string, u: string, lastId: string)
    requires Logs(c, s) && Positions(s)
    ensures Positions(Subscribed(s, x, l, t, u, lastId))
  {
    hide LoopAt, LogOk, Subscribed;
    NewLoopAt(c, s, t);
    SubscribedIs(s, x, l, t, u, lastId);
  }

  lemma SubPositions(s: State, x: nat, sub: Sub)
    requires Positions(s)
    ensures Positions(WithSub(s, x, sub))
  {
    hide LoopAt;
  }

  lemma ClosePositions(s: State, x: nat)
    requires Positions(s) && x in s.subs
    ensures Positions(Closed(s, x))
  {
    hide LoopAt, Closed;
    ClosedIs(s, x);
  }

  lemma TickPositions(s: State)
    requires Positions(s)
    ensures Positions(s.(clock := s.clock + 1))
  {
    forall l | l in s.loops ensures LoopAt(LogOf(s, s.loops[l].tenant), s.loops[l], s.clock + 1, s.counter) {
      assert LoopAt(LogOf(s, s.loops[l].tenant), s.loops[l], s.clock, s.counter);
    }
  }

  lemma TrimPositions(s: State, t: string, n: nat)
    requires Positions(s)
    ensures Positions(WithLog(s, t, Log(LogOf(s, t).all, LogOf(s, t).trimmed + n)))
  {
    var s' := WithLog(s, t, Log(LogOf(s, t).all, LogOf(s, t).trimmed + n));
    forall l | l in s'.loops ensures LoopAt(LogOf(s', s'.loops[l].tenant), s'.loops[l], s'.clock, s'.counter) {
      LoopGrows(LogOf(s, s.loops[l].tenant), LogOf(s', s.loops[l].tenant), s.loops[l], s.clock, s.counter, s'.counter);
    }
  }

  // --------------------------------------------------- one subscription's view

  /** How much of the stream the loop has dispatched as far as x is concerned: up to
      its cursor, without the picked entry while x still has to be served. */
  function Served(all: seq<Entry>, loop: Loop, x: nat): int {
    Position(all, loop.cursor) - if x in loop.targets then 1 else 0
  }

  /** What was accepted are the addressed entries from k up to g. */
  ghost predicate Got(all: seq<Entry>, k: int, got: seq<Entry>, user: string, g: nat) {
    0 <= k <= g <= |all| && got == Span(all, k, g, user)
  }

  /** Replay stands at m and still holds the stretch from there; the loop has passed
      nothing for this user beyond that stretch and what was accepted. */
  ghost predicate Midway(all: seq<Entry>, k: int, d: int, user: string, rest: seq<Entry>, g: nat, m: nat) {
    && 0 <= k <= m <= g <= |all| && d <= |all| && Slice(all, rest, m)
    && Span(all, Max(g, m + |rest|), Max(Max(g, m + |rest|), d), user) == []
  }

  ghost predicate Replays(all: seq<Entry>, lid: Id, d: int, sub: Sub) {
    var k := Position(all, lid);
    && k <= d <= |all|
    && match sub.replay
       case Nothing => false
       case Asked(text) => ParseId(text).id == lid && exists g: nat :: Got(all, k, sub.accepted, sub.user, g)
       case Pushing(rest) => exists g: nat, m: nat ::
         Got(all, k, sub.accepted, sub.user, g) && Midway(all, k, d, sub.user, rest, g, m)
  }

  ghost predicate Following(log: Log, lid: Id, loop: Loop, x: nat, sub: Sub) {
    && !Less(loop.cursor, lid) && !sub.closed && sub.sent == sub.accepted
    && Replays(log.all, lid, Served(log.all, loop, x), sub)
  }

  lemma SpanGrows(all: seq<Entry>, more: seq<Entry>, i: int, j: int, user: string)
    requires all <= more && 0 <= i <= j <= |all|
    ensures Span(more, i, j, user) == Span(all, i, j, user)
  {
    assert more[i..j] == all[i..j];
  }

  lemma GotGrows(all: seq<Entry>, more: seq<Entry>, k: int, got: seq<Entry>, user: string, g: nat)
    requires all <= more && Got(all, k, got, user, g)
    ensures Got(more, k, got, user, g)
  {
    SpanGrows(all, more, k, g, user);
  }

  lemma MidwayGrows(all: seq<Entry>, more: seq<Entry>, k: int, d: int, user: string, rest: seq<Entry>, g: nat, m: nat)
    requires all <= more && Midway(all, k, d, user, rest, g, m)
    ensures Midway(more, k, d, user, rest, g, m)
  {
    var n := Max(g, m + |rest|);
    SpanGrows(all, more, n, Max(n, d), user);
  }

  lemma ReplaysGrow(all: seq<Entry>, more: seq<Entry>, lid: Id, d: int, sub: Sub)
    requires all <= more && Replays(all, lid, d, sub)
    requires Position(more, lid) == Position(all, lid)
    ensures Replays(more, lid, d, sub)
  {
    var k := Position(all, lid);
    hide Position, Got, Midway, ParseId;
    if sub.replay.Asked? {
      var g: nat :| Got(all, k, sub.accepted, sub.user, g);
      GotGrows(all, more, k, sub.accepted, sub.user, g);
    } else {
      var g: nat, m: nat :| Got(all, k, sub.accepted, sub.user, g) && Midway(all, k, d, sub.user, sub.replay.rest, g, m);
      GotGrows(all, more, k, sub.accepted, sub.user, g);
      MidwayGrows(all, more, k, d, sub.user, sub.replay.rest, g, m);
    }
  }

  /** Appending entries newer than the cursor changes nothing. */
  lemma FollowGrows(log: Log, log': Log, lid: Id, loop: Loop, x: nat, sub: Sub)
    requires Following(log, lid, loop, x, sub) && log.all <= log'.all
    requires forall i :: |log.all| <= i < |log'.all| ==> Less(loop.cursor, log'.all[i].id)
    ensures Following(log', lid, loop, x, sub)
  {
    PositionAppend(log.all, log'.all, loop.cursor);
    PositionAppend(log.all, log'.all, lid);
    ReplaysGrow(log.all, log'.all, lid, Served(log.all, loop, x), sub);
  }

  /** The replay reads exactly what is newer than the last id. */
  lemma ReplayStretch(c: Config, s: State, sub: Sub, lid: Id)
    requires Logs(c, s) && sub.replay.Asked? && InWindow(c, s.clock, sub.replay.lastId)
    requires ParseId(sub.replay.lastId).id == lid
    requires var log := LogOf(s, sub.tenant); log.trimmed <= Position(log.all, lid)
    ensures var all := LogOf(s, sub.tenant).all;
      ReplayStarted(c, s, sub) == sub.(replay := Pushing(all[Position(all, lid)..]))
  {
    hide ParseId, Newer, Position;
    var log := LogOf(s, sub.tenant);
    LogAlways(c, s, sub.tenant);
    ReadStretch(log, lid);
    assert Cut(Newer(Live(log), lid), c.maxLen) == Newer(Live(log), lid);
  }

  lemma ReplaysRead(all: seq<Entry>, lid: Id, d: int, sub: Sub)
    requires Replays(all, lid, d, sub) && sub.replay.Asked?
    ensures Replays(all, lid, d, sub.(replay := Pushing(all[Position(all, lid)..])))
  {
    var k := Position(all, lid);
    var sub' := sub.(replay := Pushing(all[k..]));
    var g: nat :| Got(all, k, sub.accepted, sub.user, g);
    assert all[|all|..|all|] == [];
    assert Midway(all, k, d, sub.user, all[k..], g, k);
    assert Got(all, k, sub'.accepted, sub'.user, g);
  }

  /** What was accepted so far is older than the next entry of the stream. */
  lemma OlderThanNext(all: seq<Entry>, k: int, m: int, sub: Sub)
    requires Ordered(all) && 0 <= k <= m < |all| && SubOk(sub, all)
    requires sub.accepted == Span(all, k, m, sub.user)
    ensures sub.last.Some? ==> Less(sub.last.value, all[m].id)
  {
    if sub.accepted != [] {
      var e := sub.accepted[|sub.accepted| - 1];
      AddressedIn(all[k..m], sub.user, e);
      var i :| 0 <= i < m - k && all[k..m][i] == e;
      assert Less(all[k + i].id, all[m].id);
    }
  }

  /** Accepted entries reach up to g, so every later entry is newer than the last one. */
  lemma OlderThanReached(all: seq<Entry>, k: int, g: nat, d: int, sub: Sub)
    requires Ordered(all) && SubOk(sub, all) && Got(all, k, sub.accepted, sub.user, g) && g <= d < |all|
    ensures sub.last.Some? ==> Less(sub.last.value, all[d].id)
  {
    OlderThanNext(all, k, g, sub);
    assert g < d ==> Less(all[g].id, all[d].id);
  }

  lemma PushTakes(sub: Sub, e: Entry)
    requires !sub.closed && sub.waiting < CONN_BUFFER && (sub.last.Some? ==> Less(sub.last.value, e.id))
    ensures Push(sub, e).sub.accepted == sub.accepted + [e] && Push(sub, e).sub.sent == sub.sent + [e]
  {
  }

  /** Pushing the next entry extends what was accepted by it. */
  lemma PushNext(all: seq<Entry>, k: int, m: int, sub: Sub)
    requires Ordered(all) && 0 <= k <= m < |all| && SubOk(sub, all) && !sub.closed && sub.waiting < CONN_BUFFER
    requires sub.accepted == Span(all, k, m, sub.user)
    ensures Targets(all[m].to, sub.user) ==>
      && Push(sub, all[m]).sub.accepted == Span(all, k, m + 1, sub.user)
      && (sub.sent == sub.accepted ==> Push(sub, all[m]).sub.sent == Push(sub, all[m]).sub.accepted)
    ensures !Targets(all[m].to, sub.user) ==> sub.accepted == Span(all, k, m + 1, sub.user)
  {
    hide Span, Targets, Ordered, SubOk, Push, Less;
    OlderThanNext(all, k, m, sub);
    SpanOne(all, m, sub.user);
    SpanJoins(all, k, m, m + 1, sub.user);
    PushTakes(sub, all[m]);
  }

  /** An entry already accepted is refused. */
  lemma RefusesKnown(sub: Sub, e: Entry, all: seq<Entry>)
    requires SubOk(sub, all) && e in sub.accepted
    ensures Push(sub, e).sub == sub
  {
    var i :| 0 <= i < |sub.accepted| && sub.accepted[i] == e;
    assert i == |sub.accepted| - 1 || Less(e.id, sub.accepted[|sub.accepted| - 1].id);
  }

  /** An addressed entry within what was accepted is refused. */
  lemma RefusesReached(all: seq<Entry>, k: int, g: nat, p: int, sub: Sub)
    requires Got(all, k, sub.accepted, sub.user, g) && SubOk(sub, all) && k <= p < g && Targets(all[p].to, sub.user)
    ensures Push(sub, all[p]).sub == sub
  {
    assert all[k..g][p - k] == all[p];
    AddressedIn(all[k..g], sub.user, all[p]);
    RefusesKnown(sub, all[p], all);
  }

  /** The replay pushes its next entry: refused if a live push was there before, else the
      next entry for this user. */
  lemma ReplayTakes(all: seq<Entry>, k: int, g: nat, m: nat, sub: Sub) returns (g': nat)
    requires Ordered(all) && SubOk(sub, all) && !sub.closed && sub.sent == sub.accepted && sub.waiting < CONN_BUFFER
    requires Got(all, k, sub.accepted, sub.user, g) && k <= m <= g && m < |all|
    requires sub.replay.Pushing? && sub.replay.rest != [] && sub.replay.rest[0] == all[m]
    ensures var sub' := Replayed(sub);
      && Got(all, k, sub'.accepted, sub'.user, g') && g' == Max(g, m + 1) && !sub'.closed && sub'.sent == sub'.accepted
      && sub'.replay == Pushing(sub.replay.rest[1..])
  {
    g' := Max(g, m + 1);
    if m < g {
      if Targets(all[m].to, sub.user) {
        RefusesReached(all, k, g, m, sub);
      }
    } else {
      PushNext(all, k, m, sub);
    }
    hide Targets, Span, SubOk, Ordered;
  }

  lemma MidwayPush(all: seq<Entry>, k: int, d: int, user: string, rest: seq<Entry>, g: nat, m: nat)
    requires Midway(all, k, d, user, rest, g, m) && rest != []
    ensures m < |all| && rest[0] == all[m] && Midway(all, k, d, user, rest[1..], Max(g, m + 1), m + 1)
  {
    hide Span;
  }

  lemma ReplaysPush(all: seq<Entry>, lid: Id, d: int, sub: Sub)
    requires Replays(all, lid, d, sub) && Ordered(all) && SubOk(sub, all) && !sub.closed && sub.sent == sub.accepted
    requires sub.replay.Pushing? && sub.replay.rest != [] && sub.waiting < CONN_BUFFER
    ensures Replays(all, lid, d, Replayed(sub)) && !Replayed(sub).closed && Replayed(sub).sent == Replayed(sub).accepted
  {
    var k, rest := Position(all, lid), sub.replay.rest;
    hide Position, ParseId, SubOk, Ordered, Replayed, Got, Midway;
    var g: nat, m: nat :| Got(all, k, sub.accepted, sub.user, g) && Midway(all, k, d, sub.user, rest, g, m);
    assert 0 <= k <= m <= g by { MidwayBounds(all, k, d, sub.user, rest, g, m); }
    MidwayPush(all, k, d, sub.user, rest, g, m);
    var g' := ReplayTakes(all, k, g, m, sub);
    ReplayedUser(sub);
  }

  lemma MidwayBounds(all: seq<Entry>, k: int, d: int, user: string, rest: seq<Entry>, g: nat, m: nat)
    requires Midway(all, k, d, user, rest, g, m)
    ensures 0 <= k <= m <= g <= |all|
  {
  }

  lemma ReplayedUser(sub: Sub)
    requires sub.replay.Pushing? && sub.replay.rest != []
    ensures Replayed(sub).user == sub.user
  {
  }

  /** Everything addressed that is older than the entry at d has been accepted. */
  ghost predicate NothingBefore(all: seq<Entry>, lid: Id, d: int, sub: Sub) {
    Position(all, lid) <= d <= |all| ==> Span(all, Position(all, lid), d, sub.user) <= sub.accepted
  }

  lemma GotBefore(all: seq<Entry>, lid: Id, d: int, sub: Sub, g: nat)
    requires Got(all, Position(all, lid), sub.accepted, sub.user, g) && Position(all, lid) <= d <= |all|
    ensures NothingBefore(all, lid, d, sub) <==> d <= g || Span(all, g, d, sub.user) == []
  {
    var k := Position(all, lid);
    hide Position;
    if d <= g {
      SpanJoins(all, k, d, g, sub.user);
    } else {
      SpanJoins(all, k, g, d, sub.user);
    }
    hide Span;
  }

  /** A live push of an entry that has everything before it accepted: refused when it was
      accepted itself, else the very next entry for this user. */
  lemma LiveTakes(all: seq<Entry>, lid: Id, d: int, sub: Sub, g: nat) returns (g': nat)
    requires Ordered(all) && SubOk(sub, all) && !sub.closed && sub.sent == sub.accepted && sub.waiting < CONN_BUFFER
    requires Got(all, Position(all, lid), sub.accepted, sub.user, g) && Position(all, lid) <= d < |all|
    requires Targets(all[d].to, sub.user) && NothingBefore(all, lid, d, sub)
    ensures var sub' := Push(sub, all[d]).sub;
      && Got(all, Position(all, lid), sub'.accepted, sub'.user, g') && g' == Max(g, d + 1) && !sub'.closed && sub'.sent == sub'.accepted
      && sub'.replay == sub.replay
  {
    var k := Position(all, lid);
    GotBefore(all, lid, d, sub, g);
    hide Position;
    g' := Max(g, d + 1);
    if d < g {
      RefusesReached(all, k, g, d, sub);
    } else {
      SpanJoins(all, k, g, d, sub.user);
      PushNext(all, k, d, sub);
    }
    hide Targets, Span, SubOk, Ordered;
  }

  lemma MidwayLive(all: seq<Entry>, k: int, d: int, user: string, rest: seq<Entry>, g: nat, m: nat)
    requires Midway(all, k, d, user, rest, g, m) && d < |all|
    ensures Midway(all, k, d + 1, user, rest, Max(g, d + 1), m)
  {
    SpanEmpty(all, Max(Max(g, d + 1), m + |rest|), user);
    hide Span;
  }

  lemma ReplaysLive(all: seq<Entry>, lid: Id, d: int, sub: Sub)
    requires Replays(all, lid, d, sub) && Ordered(all) && SubOk(sub, all) && !sub.closed && sub.sent == sub.accepted
    requires sub.waiting < CONN_BUFFER && d < |all| && Targets(all[d].to, sub.user) && NothingBefore(all, lid, d, sub)
    ensures var sub' := Push(sub, all[d]).sub;
      Replays(all, lid, d + 1, sub') && !sub'.closed && sub'.sent == sub'.accepted
  {
    var k := Position(all, lid);
    hide Position, ParseId, SubOk, Ordered, Push, Got, Midway, NothingBefore, Targets;
    PushSameTenant(sub, all[d]);
    if sub.replay.Asked? {
      var g: nat :| Got(all, k, sub.accepted, sub.user, g);
      var g' := LiveTakes(all, lid, d, sub, g);
    } else {
      var g: nat, m: nat :| Got(all, k, sub.accepted, sub.user, g) && Midway(all, k, d, sub.user, sub.replay.rest, g, m);
      var g' := LiveTakes(all, lid, d, sub, g);
      MidwayLive(all, k, d, sub.user, sub.replay.rest, g, m);
    }
  }

  lemma SpanEmpty(all: seq<Entry>, i: nat, user: string)
    ensures i <= |all| ==> Span(all, i, i, user) == []
  {
  }

  /** The loop passes an entry that is not addressed to the user. */
  lemma ReplaysPass(all: seq<Entry>, lid: Id, d: int, sub: Sub)
    requires Replays(all, lid, d, sub) && d < |all| && !Targets(all[d].to, sub.user)
    ensures Replays(all, lid, d + 1, sub)
  {
    hide Position, ParseId, Targets, Span, Got;
    var k := Position(all, lid);
    if sub.replay.Pushing? {
      SpanOne(all, d, sub.user);
      var g: nat, m: nat :| Got(all, k, sub.accepted, sub.user, g) && Midway(all, k, d, sub.user, sub.replay.rest, g, m);
      var n := Max(g, m + |sub.replay.rest|);
      if n <= d {
        SpanJoins(all, n, d, d + 1, sub.user);
      }
      assert Midway(all, k, d + 1, sub.user, sub.replay.rest, g, m);
    }
  }

  // -------------------------------------------------------------- overtaking

  lemma ReplaysGot(all: seq<Entry>, lid: Id, d: int, sub: Sub) returns (g: nat)
    requires Replays(all, lid, d, sub)
    ensures Got(all, Position(all, lid), sub.accepted, sub.user, g)
  {
    hide Position, ParseId, Got, Midway;
    g :| Got(all, Position(all, lid), sub.accepted, sub.user, g);
  }

  /** What an overtaken subscription has accepted does not start what it missed. */
  lemma OvertakenDiffers(all: seq<Entry>, k: int, g: nat, d: int, got: seq<Entry>, user: string)
    requires Ordered(all) && Got(all, k, got, user, g) && g <= d < |all| && Span(all, g, d, user) != []
    ensures !(got + [all[d]] <= Span(all, k, |all|, user))
  {
    var first := Span(all, g, d, user)[0];
    AddressedIn(all[g..d], user, first);
    var i :| 0 <= i < d - g && all[g..d][i] == first;
    assert Less(all[g + i].id, all[d].id);
    SpanJoins(all, k, g, |all|, user);
    SpanJoins(all, g, d, |all|, user);
    assert Span(all, k, |all|, user)[|got|] == first;
  }

  /** A live push, however early, leaves what was accepted a prefix of what was missed, if
      and only if everything addressed before the pushed entry was accepted already. */
  lemma LivePushExact(all: seq<Entry>, lid: Id, d: int, sub: Sub)
    requires Replays(all, lid, d, sub) && Ordered(all) && SubOk(sub, all) && !sub.closed && sub.sent == sub.accepted
    requires sub.waiting < CONN_BUFFER && d < |all| && Targets(all[d].to, sub.user)
    ensures Push(sub, all[d]).sub.accepted <= Span(all, Position(all, lid), |all|, sub.user) <==> NothingBefore(all, lid, d, sub)
  {
    var k := Position(all, lid);
    var g := ReplaysGot(all, lid, d, sub);
    GotBefore(all, lid, d, sub, g);
    if NothingBefore(all, lid, d, sub) {
      var g' := LiveTakes(all, lid, d, sub, g);
      SpanJoins(all, k, g', |all|, sub.user);
    } else {
      OlderThanReached(all, k, g, d, sub);
      PushTakes(sub, all[d]);
      OvertakenDiffers(all, k, g, d, sub.accepted, sub.user);
    }
  }

  /** In particular, where the accepted entries reach exactly up to m: if and only if no
      addressed entry lies between m and the pushed one. */
  lemma EarlyPushExact(all: seq<Entry>, lid: Id, d: int, sub: Sub, m: nat)
    requires Replays(all, lid, d, sub) && Ordered(all) && SubOk(sub, all) && !sub.closed && sub.sent == sub.accepted
    requires sub.waiting < CONN_BUFFER && d < |all| && Targets(all[d].to, sub.user)
    requires Got(all, Position(all, lid), sub.accepted, sub.user, m) && m <= d
    ensures Push(sub, all[d]).sub.accepted <= Span(all, Position(all, lid), |all|, sub.user) <==> Span(all, m, d, sub.user) == []
  {
    assert Position(all, lid) <= d;
    hide Push, Span, Replays, Got, SubOk, Ordered, Targets, Position, NothingBefore;
    LivePushExact(all, lid, d, sub);
    GotBefore(all, lid, d, sub, m);
    SpanEmpty(all, m, sub.user);
  }

  // --------------------------------------------------------------- whole runs

  /** The loop serving an open subscription. */
  function LoopOf(s: State, x: nat): nat {
    if x in s.subs && s.subs[x].tenant in s.tenants then s.tenants[s.subs[x].tenant].loop else 0
  }

  /** Subscription x is on its way to, or has reached, everything newer than lid. */
  ghost predicate Tracks(s: State, x: nat, lid: Id) {
    && x in s.subs && s.subs[x].tenant in s.tenants && LoopOf(s, x) in s.loops
    && (forall l :: l in s.loops && x in s.loops[l].targets ==> l == LoopOf(s, x))
    && Following(LogOf(s, s.subs[x].tenant), lid, s.loops[LoopOf(s, x)], x, s.subs[x])
  }

  /** What the handover asks of a step: x is not closed and keeps room in its buffer, and
      its replay reads successfully inside the window. */
  ghost predicate Calm(c: Config, s: State, a: Action, x: nat) {
    && x in s.subs && s.subs[x].waiting < CONN_BUFFER
    && (a == ReplayRead(x) && s.subs[x].replay.Asked? ==> InWindow(c, s.clock, s.subs[x].replay.lastId))
    && a != ReplayFail(x) && a != Close(x) && !(a.LoopClose? && a.x == x)
  }

  /** A live push to x overtakes nothing: everything addressed to x that is newer than lid
      and older than the pushed entry has been accepted. */
  ghost predicate Harmless(s: State, a: Action, x: nat, lid: Id) {
    a.LoopPush? && a.x == x && x in s.subs && a.l in s.loops ==>
      var all := LogOf(s, s.subs[x].tenant).all;
      NothingBefore(all, lid, Position(all, s.loops[a.l].cursor) - 1, s.subs[x])
  }

  /** Nothing newer than lid has been trimmed from x's stream. */
  ghost predicate Intact(s: State, x: nat, lid: Id) {
    && x in s.subs
    && var log := LogOf(s, s.subs[x].tenant); log.trimmed <= Position(log.all, lid)
  }

  lemma TracksFrame(s: State, s': State, x: nat, lid: Id)
    requires Tracks(s, x, lid) && x in s'.subs && s'.subs[x].tenant == s.subs[x].tenant
    requires s'.subs[x].tenant in s'.tenants && LoopOf(s', x) == LoopOf(s, x) && LoopOf(s, x) in s'.loops
    requires forall l :: l in s'.loops && x in s'.loops[l].targets ==> l == LoopOf(s, x)
    requires Following(LogOf(s', s.subs[x].tenant), lid, s'.loops[LoopOf(s, x)], x, s'.subs[x])
    ensures Tracks(s', x, lid)
  {
  }

  lemma TracksLog(c: Config, s: State, x: nat, lid: Id, t: string, log: Log, counter: nat)
    requires Tracks(s, x, lid) && Positions(s) && LogOf(s, t).all <= log.all
    requires forall i :: |LogOf(s, t).all| <= i < |log.all| ==> log.all[i].id.ms == s.clock && log.all[i].id.num > s.counter
    ensures Tracks(WithLog(s.(counter := counter), t, log), x, lid)
  {
    var s' := WithLog(s.(counter := counter), t, log);
    var u, loop := s.subs[x].tenant, s.loops[LoopOf(s, x)];
    hide Following;
    if t == u {
      if loop.tenant == u {
        LoopBelow(LogOf(s, u), loop, s.clock, s.counter);
      } else {
        LoopBelow(LogOf(s, loop.tenant), loop, s.clock, s.counter);
      }
      hide LoopAt;
      FollowGrows(LogOf(s, u), log, lid, loop, x, s.subs[x]);
    }
    TracksFrame(s, s', x, lid);
  }

  lemma TracksPublish(c: Config, s: State, x: nat, lid: Id, t: string, to: string, body: string)
    requires Tracks(s, x, lid) && Positions(s)
    ensures Tracks(Published(c, s, t, to, body), x, lid)
  {
    hide Tracks, Positions;
    PublishedIs(c, s, t, to, body);
    var l, n := LogOf(s, t), |LogOf(s, t).all| + 1;
    TracksLog(c, s, x, lid, t, Log(l.all + [Entry(Id(s.clock, s.counter + 1), to, body)],
      if n - c.maxLen > l.trimmed then n - c.maxLen else l.trimmed), s.counter + 1);
  }

  /** A step of x's own reader or replay. */
  lemma TracksSub(s: State, x: nat, lid: Id, sub: Sub)
    requires Tracks(s, x, lid) && sub.tenant == s.subs[x].tenant
    requires Following(LogOf(s, sub.tenant), lid, s.loops[LoopOf(s, x)], x, sub)
    ensures Tracks(WithSub(s, x, sub), x, lid)
  {
    hide Following;
  }

  lemma TracksOther(s: State, x: nat, lid: Id, y: nat, sub: Sub)
    requires Tracks(s, x, lid) && y != x
    ensures Tracks(WithSub(s, y, sub), x, lid)
  {
    hide Following;
  }

  lemma ReplayFacts(c: Config, s: State, x: nat, lid: Id)
    requires Inv(c, s) && Tracks(s, x, lid)
    ensures var sub, log := s.subs[x], LogOf(s, s.subs[x].tenant);
      && Logs(c, s) && SubOk(sub, log.all) && Ordered(log.all) && !sub.closed && sub.sent == sub.accepted
      && Replays(log.all, lid, Served(log.all, s.loops[LoopOf(s, x)], x), sub)
  {
    LogAlways(c, s, s.subs[x].tenant);
    hide SubOk, Replays, Position, Accounts, Loops;
  }

  lemma TracksReplayRead(c: Config, s: State, x: nat, lid: Id)
    requires Inv(c, s) && Tracks(s, x, lid) && Intact(s, x, lid)
    requires s.subs[x].replay.Asked? && InWindow(c, s.clock, s.subs[x].replay.lastId)
    ensures Tracks(WithSub(s, x, ReplayStarted(c, s, s.subs[x])), x, lid)
  {
    var sub, log, loop := s.subs[x], LogOf(s, s.subs[x].tenant), s.loops[LoopOf(s, x)];
    var d := Served(log.all, loop, x);
    ReplayFacts(c, s, x, lid);
    hide SubOk, LogOk, Inv, Replays, Position, Targets, ParseId, InWindow, Ordered, Logs;
    AskedFor(log.all, lid, d, sub);
    ReplayStretch(c, s, sub, lid);
    ReplaysRead(log.all, lid, d, sub);
    hide ReplayStarted;
    TracksSub(s, x, lid, ReplayStarted(c, s, sub));
  }

  lemma TracksReplayPush(c: Config, s: State, x: nat, lid: Id)
    requires Inv(c, s) && Tracks(s, x, lid) && s.subs[x].waiting < CONN_BUFFER
    requires s.subs[x].replay.Pushing? && s.subs[x].replay.rest != []
    ensures Tracks(WithSub(s, x, Replayed(s.subs[x])), x, lid)
  {
    var sub, log, loop := s.subs[x], LogOf(s, s.subs[x].tenant), s.loops[LoopOf(s, x)];
    ReplayFacts(c, s, x, lid);
    assert Replayed(sub).tenant == sub.tenant;
    hide SubOk, LogOk, Inv, Replays, Position, Targets, ParseId, Ordered, Logs, Replayed;
    ReplaysPush(log.all, lid, Served(log.all, loop, x), sub);
    TracksSub(s, x, lid, Replayed(sub));
  }

  lemma TracksReplay(c: Config, s: State, x: nat, lid: Id)
    requires Inv(c, s) && Tracks(s, x, lid) && Intact(s, x, lid) && s.subs[x].waiting < CONN_BUFFER
    ensures s.subs[x].replay.Asked? && InWindow(c, s.clock, s.subs[x].replay.lastId) ==>
      Tracks(WithSub(s, x, ReplayStarted(c, s, s.subs[x])), x, lid)
    ensures s.subs[x].replay.Pushing? && s.subs[x].replay.rest != [] ==>
      Tracks(WithSub(s, x, Replayed(s.subs[x])), x, lid)
  {
    assert x in s.subs;
    hide *;
    if s.subs[x].replay.Asked? && InWindow(c, s.clock, s.subs[x].replay.lastId) {
      TracksReplayRead(c, s, x, lid);
    } else if s.subs[x].replay.Pushing? && s.subs[x].replay.rest != [] {
      TracksReplayPush(c, s, x, lid);
    }
  }

  lemma AskedFor(all: seq<Entry>, lid: Id, d: int, sub: Sub)
    requires Replays(all, lid, d, sub) && sub.replay.Asked?
    ensures ParseId(sub.replay.lastId).id == lid
  {
  }

  /** Under an intact log the next entry of a batch is the one after the cursor. */
  lemma NextIsNext(log: Log, loop: Loop, clock: nat, counter: nat)
    requires LoopAt(log, loop, clock, counter) && loop.batch != []
    requires log.trimmed <= Position(log.all, loop.cursor)
    ensures Position(log.all, loop.cursor) < |log.all| && loop.batch[0] == log.all[Position(log.all, loop.cursor)]
  {
  }

  lemma NextNewer(all: seq<Entry>, lid: Id, cursor: Id)
    requires !Less(cursor, lid) && Position(all, cursor) < |all|
    ensures !Less(all[Position(all, cursor)].id, lid)
  {
  }

  lemma FollowPick(log: Log, lid: Id, loop: Loop, loop': Loop, x: nat, sub: Sub)
    requires Following(log, lid, loop, x, sub) && Ordered(log.all) && x !in loop.targets
    requires Position(log.all, loop.cursor) < |log.all| && loop'.cursor == log.all[Position(log.all, loop.cursor)].id
    requires x in loop'.targets <==> Targets(log.all[Position(log.all, loop.cursor)].to, sub.user)
    ensures Following(log, lid, loop', x, sub)
  {
    var all, p := log.all, Position(log.all, loop.cursor);
    NextNewer(all, lid, loop.cursor);
    AtIndex(all, p);
    hide Targets, Position, Replays, Ordered, Less;
    if x !in loop'.targets {
      ReplaysPass(all, lid, p, sub);
    }
  }

  /** Only the loop serving x ever picks x as a target. */
  lemma PicksOwn(c: Config, s: State, l: nat, x: nat)
    requires Accounts(c, s) && l in s.loops && s.loops[l].batch != [] && x in s.subs && !s.subs[x].closed
    ensures x in Picked(s, l).targets <==> l == LoopOf(s, x) && Targets(s.loops[l].batch[0].to, s.subs[x].user)
  {
    hide Targets;
    var t := s.subs[x].tenant;
    assert TenantOk(c, s.tenants[t], t, s);
    var v := s.loops[l].tenant;
    assert v in s.tenants ==> TenantOk(c, s.tenants[v], v, s);
  }

  lemma PickFacts(c: Config, s: State, x: nat, lid: Id)
    requires Inv(c, s) && Positions(s) && Tracks(s, x, lid)
    ensures var log, loop := LogOf(s, s.subs[x].tenant), s.loops[LoopOf(s, x)];
      Accounts(c, s) && Ordered(log.all) && !s.subs[x].closed && loop.tenant == s.subs[x].tenant && LoopAt(log, loop, s.clock, s.counter)
  {
    var t := s.subs[x].tenant;
    assert TenantOk(c, s.tenants[t], t, s);
    LogAlways(c, s, t);
    hide SubOk, LoopOk, Position, Replays;
  }

  lemma TracksPick(c: Config, s: State, x: nat, lid: Id, l: nat)
    requires Inv(c, s) && Positions(s) && Tracks(s, x, lid) && Intact(s, x, lid)
    requires l in s.loops && s.loops[l].batch != [] && s.loops[l].targets == {}
    ensures Tracks(WithLoop(s, l, Picked(s, l)), x, lid)
  {
    var loop, log := s.loops[l], LogOf(s, s.subs[x].tenant);
    PickFacts(c, s, x, lid);
    PicksOwn(c, s, l, x);
    assert Picked(s, l).cursor == loop.batch[0].id;
    hide Inv, Accounts, Positions, Targets, Position, Ordered, Picked;
    var s' := WithLoop(s, l, Picked(s, l));
    if l == LoopOf(s, x) {
      CursorAhead(log, lid, loop, x, s.subs[x]);
      NextIsNext(log, loop, s.clock, s.counter);
      hide LoopAt, Following;
      FollowPick(log, lid, loop, Picked(s, l), x, s.subs[x]);
    }
    hide Following, LoopAt;
    TracksFrame(s, s', x, lid);
  }

  lemma CursorAhead(log: Log, lid: Id, loop: Loop, x: nat, sub: Sub)
    requires Following(log, lid, loop, x, sub)
    ensures Position(log.all, lid) <= Served(log.all, loop, x) <= Position(log.all, loop.cursor)
  {
  }

  lemma FollowLive(log: Log, lid: Id, loop: Loop, x: nat, sub: Sub, ok: bool)
    requires Following(log, lid, loop, x, sub) && Ordered(log.all) && SubOk(sub, log.all)
    requires sub.waiting < CONN_BUFFER && x in loop.targets
    requires NothingBefore(log.all, lid, Position(log.all, loop.cursor) - 1, sub)
    requires Position(log.all, loop.cursor) > 0 && loop.current == Some(log.all[Position(log.all, loop.cursor) - 1])
    requires Targets(loop.current.value.to, sub.user)
    ensures Following(log, lid, Dispatched(loop, x, ok), x, Push(sub, loop.current.value).sub)
  {
    hide Targets, Position, SubOk, Replays, Push, NothingBefore;
    ReplaysLive(log.all, lid, Served(log.all, loop, x), sub);
  }

  lemma TargetFacts(log: Log, loop: Loop, subs: map<nat, Sub>, x: nat, clock: nat, counter: nat)
    requires LoopOk(loop, log.all, subs) && LoopAt(log, loop, clock, counter) && x in loop.targets
    ensures Position(log.all, loop.cursor) > 0 && loop.current == Some(log.all[Position(log.all, loop.cursor) - 1])
    ensures x in subs && Targets(loop.current.value.to, subs[x].user)
  {
    hide Targets, Position;
  }

  lemma PushFacts(c: Config, s: State, x: nat, lid: Id, l: nat)
    requires Inv(c, s) && Positions(s) && Tracks(s, x, lid) && l in s.loops && x in s.loops[l].targets && s.loops[l].current.Some?
    ensures var log, loop := LogOf(s, s.subs[x].tenant), s.loops[l];
      && l == LoopOf(s, x) && SubOk(s.subs[x], log.all) && Ordered(log.all)
      && Position(log.all, loop.cursor) > 0 && loop.current == Some(log.all[Position(log.all, loop.cursor) - 1])
      && Targets(loop.current.value.to, s.subs[x].user)
  {
    assert l == LoopOf(s, x);
    PickFacts(c, s, x, lid);
    hide SubOk, Position, Targets, Accounts, Logs, LoopAt, LoopOk, Following, Positions, Ordered;
    TargetFacts(LogOf(s, s.subs[x].tenant), s.loops[l], s.subs, x, s.clock, s.counter);
  }

  lemma PushSameTenant(sub: Sub, e: Entry)
    ensures Push(sub, e).sub.tenant == sub.tenant && Push(sub, e).sub.user == sub.user
  {
  }

  lemma TracksPush(c: Config, s: State, x: nat, lid: Id, l: nat)
    requires Inv(c, s) && Positions(s) && Tracks(s, x, lid) && s.subs[x].waiting < CONN_BUFFER
    requires l in s.loops && x in s.loops[l].targets && s.loops[l].current.Some? && Harmless(s, LoopPush(l, x), x, lid)
    ensures var p := Push(s.subs[x], s.loops[l].current.value);
      Tracks(WithLoop(WithSub(s, x, p.sub), l, Dispatched(s.loops[l], x, p.ok)), x, lid)
  {
    var loop, sub := s.loops[l], s.subs[x];
    var log, p := LogOf(s, sub.tenant), Push(sub, loop.current.value);
    PushFacts(c, s, x, lid, l);
    PushSameTenant(sub, loop.current.value);
    hide SubOk, Following, Targets, Inv, Positions, Push, Position, Ordered, NothingBefore;
    FollowLive(log, lid, loop, x, sub, p.ok);
    TracksFrame(s, WithLoop(WithSub(s, x, p.sub), l, Dispatched(loop, x, p.ok)), x, lid);
  }

  /** Steps that leave x's subscription, its stream and its loop's position alone. */
  lemma TracksLoop(s: State, x: nat, lid: Id, l: nat, loop: Loop)
    requires Tracks(s, x, lid) && l in s.loops && loop.cursor == s.loops[l].cursor
    requires x in loop.targets <==> x in s.loops[l].targets
    ensures Tracks(WithLoop(s, l, loop), x, lid)
  {
    hide Replays, Position;
  }

  lemma TracksClose(c: Config, s: State, x: nat, lid: Id, y: nat)
    requires Accounts(c, s) && Tracks(s, x, lid) && y in s.subs && y != x
    ensures Tracks(Closed(s, y), x, lid)
  {
    var t := s.subs[x].tenant;
    assert TenantOk(c, s.tenants[t], t, s);
    assert x in s.tenants[t].conns;
    assert t in s.tenants && LoopOf(s, x) == s.tenants[t].loop && s.subs[x].tenant == t;
    hide TenantOk, Following, Accounts;
    ClosedIs(s, y);
    OthersKeepRecord(s, y, t, x);
    hide Closed;
    TracksFrame(s, Closed(s, y), x, lid);
  }

  /** A tenant with another open subscription keeps its record and its loop. */
  lemma OthersKeepRecord(s: State, y: nat, t: string, x: nat)
    requires y in s.subs && t in s.tenants && x in s.tenants[t].conns && x != y
    ensures t in Closed(s, y).tenants && Closed(s, y).tenants[t].loop == s.tenants[t].loop
  {
    assert x in s.tenants[t].conns - {y};
  }

  lemma TracksSubscribe(c: Config, s: State, x: nat, lid: Id, a: Action)
    requires Tracks(s, x, lid) && a.Subscribe? && Enabled(c, s, a)
    ensures Tracks(Next(c, s, a), x, lid)
  {
    hide Following;
    TracksFrame(s, Next(c, s, a), x, lid);
  }

  lemma TracksTick(s: State, x: nat, lid: Id)
    requires Tracks(s, x, lid)
    ensures Tracks(s.(clock := s.clock + 1), x, lid)
  {
    hide Following;
  }

  /** The reader takes an event. */
  lemma TracksReceive(s: State, x: nat, lid: Id, y: nat)
    requires Tracks(s, x, lid) && y in s.subs && s.subs[y].waiting > 0
    ensures Tracks(WithSub(s, y, s.subs[y].(waiting := s.subs[y].waiting - 1)), x, lid)
  {
    hide Position;
    if y == x {
      TracksSub(s, x, lid, s.subs[x].(waiting := s.subs[x].waiting - 1));
    } else {
      TracksOther(s, x, lid, y, s.subs[y].(waiting := s.subs[y].waiting - 1));
    }
  }

  lemma KeepsTracksReplay(c: Config, s: State, a: Action, x: nat, lid: Id)
    requires Inv(c, s) && Enabled(c, s, a) && (a.ReplayRead? || a.ReplayFail? || a.ReplayPush?)
    requires Tracks(s, x, lid) && Intact(s, x, lid) && Calm(c, s, a, x)
    ensures Tracks(Next(c, s, a), x, lid)
  {
    hide Tracks, Inv, Intact, ReplayStarted, Replayed, PushReset, InWindow;
    match a
    case ReplayRead(y) =>
      if y == x { TracksReplay(c, s, x, lid); } else { TracksOther(s, x, lid, y, ReplayStarted(c, s, s.subs[y])); }
    case ReplayFail(y) => TracksOther(s, x, lid, y, PushReset(s.subs[y].(replay := Nothing)));
    case ReplayPush(y) =>
      if y == x { TracksReplay(c, s, x, lid); } else { TracksOther(s, x, lid, y, Replayed(s.subs[y])); }
  }

  lemma KeepsTracksPush(c: Config, s: State, x: nat, lid: Id, l: nat, y: nat)
    requires Inv(c, s) && Positions(s) && Tracks(s, x, lid) && Calm(c, s, LoopPush(l, y), x) && Harmless(s, LoopPush(l, y), x, lid)
    requires l in s.loops && y in s.loops[l].targets && y in s.subs && s.loops[l].current.Some?
    ensures var p := Push(s.subs[y], s.loops[l].current.value);
      Tracks(WithLoop(WithSub(s, y, p.sub), l, Dispatched(s.loops[l], y, p.ok)), x, lid)
  {
    hide Tracks, Inv, Positions, Push, NothingBefore;
    if y == x {
      TracksPush(c, s, x, lid, l);
    } else {
      var p := Push(s.subs[y], s.loops[l].current.value);
      TracksOther(s, x, lid, y, p.sub);
      TracksLoop(WithSub(s, y, p.sub), x, lid, l, Dispatched(s.loops[l], y, p.ok));
    }
  }

  lemma TracksLoopClose(c: Config, s: State, x: nat, lid: Id, l: nat, y: nat)
    requires Inv(c, s) && Tracks(s, x, lid) && y in s.subs && y != x && l in s.loops
    ensures Tracks(Closed(WithLoop(s, l, s.loops[l].(stalled := s.loops[l].stalled - {y})), y), x, lid)
  {
    var loop := s.loops[l].(stalled := s.loops[l].stalled - {y});
    hide Tracks, Closed, LogOk, SubOk, TenantOk;
    assert Accounts(c, WithLoop(s, l, loop)) by {
      LoopKeeps(c, s, l, loop);
    }
    hide Inv, Accounts;
    TracksLoop(s, x, lid, l, loop);
    TracksClose(c, WithLoop(s, l, loop), x, lid, y);
  }

  lemma KeepsTracksQuiet(c: Config, s: State, a: Action, x: nat, lid: Id)
    requires Positions(s) && Enabled(c, s, a) && Tracks(s, x, lid)
    requires a.Tick? || a.Publish? || a.Trim? || a.Subscribe? || a.LoopRead? || a.Receive?
    ensures Tracks(Next(c, s, a), x, lid)
  {
    hide Tracks, Positions, Published, Subscribed, ReadMore;
    match a
    case Tick => TracksTick(s, x, lid);
    case Publish(t, to, body) => TracksPublish(c, s, x, lid, t, to, body);
    case Trim(t, n) => TracksLog(c, s, x, lid, t, Log(LogOf(s, t).all, LogOf(s, t).trimmed + n), s.counter);
    case Subscribe(y, l, t, u, lastId) => TracksSubscribe(c, s, x, lid, a);
    case LoopRead(l) => TracksRead(s, x, lid, l);
    case Receive(y) => TracksReceive(s, x, lid, y);
  }

  lemma StepPick(c: Config, s: State, x: nat, lid: Id, l: nat)
    requires Inv(c, s) && Positions(s) && Enabled(c, s, LoopPick(l)) && Tracks(s, x, lid) && Intact(s, x, lid)
    ensures Tracks(Next(c, s, LoopPick(l)), x, lid)
  {
    hide Tracks, Positions, Inv, Picked, Intact;
    TracksPick(c, s, x, lid, l);
  }

  lemma StepPush(c: Config, s: State, x: nat, lid: Id, l: nat, y: nat)
    requires Inv(c, s) && Positions(s) && Enabled(c, s, LoopPush(l, y)) && Tracks(s, x, lid)
    requires Calm(c, s, LoopPush(l, y), x) && Harmless(s, LoopPush(l, y), x, lid)
    ensures Tracks(Next(c, s, LoopPush(l, y)), x, lid)
  {
    hide Tracks, Positions, Inv, Push, Calm, Harmless;
    KeepsTracksPush(c, s, x, lid, l, y);
  }

  lemma StepLoopClose(c: Config, s: State, x: nat, lid: Id, l: nat, y: nat)
    requires Inv(c, s) && Enabled(c, s, LoopClose(l, y)) && Tracks(s, x, lid) && Calm(c, s, LoopClose(l, y), x)
    ensures Tracks(Next(c, s, LoopClose(l, y)), x, lid)
  {
    hide Tracks, Inv, Closed;
    TracksLoopClose(c, s, x, lid, l, y);
  }

  lemma NextClose(c: Config, s: State, y: nat)
    requires Enabled(c, s, Close(y))
    ensures y in s.subs && Next(c, s, Close(y)) == Closed(s, y)
  {
  }

  lemma StepClose(c: Config, s: State, x: nat, lid: Id, y: nat)
    requires Inv(c, s) && Enabled(c, s, Close(y)) && Tracks(s, x, lid) && Calm(c, s, Close(y), x)
    ensures Tracks(Next(c, s, Close(y)), x, lid)
  {
    assert Accounts(c, s) && y != x;
    NextClose(c, s, y);
    hide *;
    TracksClose(c, s, x, lid, y);
  }

  lemma KeepsTracksLoops(c: Config, s: State, a: Action, x: nat, lid: Id)
    requires Inv(c, s) && Positions(s) && Enabled(c, s, a) && Tracks(s, x, lid) && Intact(s, x, lid)
    requires Calm(c, s, a, x) && Harmless(s, a, x, lid)
    requires a.LoopPick? || a.LoopPush? || a.LoopClose? || a.Close?
    ensures Tracks(Next(c, s, a), x, lid)
  {
    hide *;
    match a
    case LoopPick(l) => StepPick(c, s, x, lid, l);
    case LoopPush(l, y) => StepPush(c, s, x, lid, l, y);
    case LoopClose(l, y) => StepLoopClose(c, s, x, lid, l, y);
    case Close(y) => StepClose(c, s, x, lid, y);
  }

  /** Every step that respects the handover keeps the subscription on track. */
  lemma KeepsTracks(c: Config, s: State, a: Action, x: nat, lid: Id)
    requires Inv(c, s) && Positions(s) && Enabled(c, s, a)
    requires Tracks(s, x, lid) && Intact(s, x, lid) && Calm(c, s, a, x) && Harmless(s, a, x, lid)
    ensures Tracks(Next(c, s, a), x, lid)
  {
    hide *;
    if a.ReplayRead? || a.ReplayFail? || a.ReplayPush? {
      KeepsTracksReplay(c, s, a, x, lid);
    } else if a.LoopPick? || a.LoopPush? || a.LoopClose? || a.Close? {
      KeepsTracksLoops(c, s, a, x, lid);
    } else {
      KeepsTracksQuiet(c, s, a, x, lid);
    }
  }

  lemma TracksRead(s: State, x: nat, lid: Id, l: nat)
    requires Tracks(s, x, lid) && l in s.loops
    ensures Tracks(WithLoop(s, l, ReadMore(s, s.loops[l])), x, lid)
  {
    hide Tracks;
    TracksLoop(s, x, lid, l, ReadMore(s, s.loops[l]));
  }

  // ------------------------------------------------------------- the theorem

  lemma {:induction false} RunPositions(c: Config, run: seq<State>, acts: seq<Action>, i: nat)
    requires ConfigOk(c) && IsRun(c, run, acts) && i < |run|
    ensures Inv(c, run[i]) && Positions(run[i])
  {
    RunInv(c, run, acts, i);
    if i > 0 {
      RunPositions(c, run, acts, i - 1);
      KeepsPositions(c, run[i - 1], acts[i - 1]);
    }
  }

  /** A subscription that reconnects with a last id the loop has already passed. */
  ghost predicate Reconnects(a: Action, s': State, x: nat, lid: Id) {
    && a.Subscribe? && a.x == x && ParseId(a.lastId) == ParsedId(lid, true)
    && LoopOf(s', x) in s'.loops && !Less(s'.loops[LoopOf(s', x)].cursor, lid)
  }

  lemma FreshFollows(log: Log, lid: Id, loop: Loop, x: nat, t: string, u: string, lastId: string)
    requires ParseId(lastId) == ParsedId(lid, true) && !Less(loop.cursor, lid) && x !in loop.targets
    ensures Following(log, lid, loop, x, NewSub(t, u, lastId))
  {
    assert lastId != "";
    hide ParseId;
    PositionMonotone(log.all, lid, loop.cursor);
    var k := Position(log.all, lid);
    hide Position;
    SpanEmpty(log.all, k, u);
    assert Got(log.all, k, [], u, k);
  }

  lemma StartsTracking(c: Config, s: State, x: nat, l: nat, t: string, u: string, lastId: string, lid: Id)
    requires Inv(c, s) && x !in s.subs && ParseId(lastId) == ParsedId(lid, true)
    requires var s' := Subscribed(s, x, l, t, u, lastId);
      LoopOf(s', x) in s'.loops && !Less(s'.loops[LoopOf(s', x)].cursor, lid)
    ensures Tracks(Subscribed(s, x, l, t, u, lastId), x, lid)
  {
    var s' := Subscribed(s, x, l, t, u, lastId);
    hide Inv, Following, ParseId;
    SubscribedIs(s, x, l, t, u, lastId);
    forall k | k in s'.loops ensures x !in s'.loops[k].targets {
      NotYetTarget(c, s, k, x);
    }
    FreshFollows(LogOf(s', t), lid, s'.loops[LoopOf(s', x)], x, t, u, lastId);
  }

  lemma NotYetTarget(c: Config, s: State, l: nat, x: nat)
    requires Inv(c, s) && x !in s.subs
    ensures l in s.loops ==> x !in s.loops[l].targets
  {
    if l in s.loops {
      assert LoopOk(s.loops[l], LogOf(s, s.loops[l].tenant).all, s.subs);
    }
  }

  lemma PositionMonotone(all: seq<Entry>, a: Id, b: Id)
    requires !Less(b, a)
    ensures Position(all, a) <= Position(all, b)
  {
    var i := Position(all, b);
    assert forall j :: 0 <= j < i && !Less(a, all[j].id) ==> !Less(b, all[j].id);
  }

  /** From the reconnect at step i up to state j, the run respects the handover. */
  ghost predicate Undisturbed(c: Config, run: seq<State>, acts: seq<Action>, i: nat, j: nat, x: nat, lid: Id) {
    && i < j < |run| == |acts| + 1
    && Reconnects(acts[i], run[i + 1], x, lid)
    && (forall m :: i < m < j ==> Intact(run[m], x, lid))
    && (forall m :: i < m < j ==> Calm(c, run[m], acts[m], x))
  }

  lemma RunStep(c: Config, run: seq<State>, acts: seq<Action>, j: nat)
    requires ConfigOk(c) && IsRun(c, run, acts) && j < |acts|
    ensures Enabled(c, run[j], acts[j]) && run[j + 1] == Next(c, run[j], acts[j])
    ensures Inv(c, run[j]) && Positions(run[j]) && Inv(c, run[j + 1])
  {
    RunPositions(c, run, acts, j);
    RunInv(c, run, acts, j + 1);
  }

  lemma UndisturbedStep(c: Config, run: seq<State>, acts: seq<Action>, i: nat, j: nat, x: nat, lid: Id)
    requires Undisturbed(c, run, acts, i, j, x, lid)
    ensures i < j < |run| == |acts| + 1
    ensures i + 1 == j ==> Reconnects(acts[j - 1], run[j], x, lid)
    ensures i + 1 < j ==> Undisturbed(c, run, acts, i, j - 1, x, lid)
    ensures i + 1 < j ==> Intact(run[j - 1], x, lid) && Calm(c, run[j - 1], acts[j - 1], x)
  {
    hide Reconnects, Intact, Calm;
  }

  lemma ReconnectTracks(c: Config, s: State, a: Action, x: nat, lid: Id)
    requires Inv(c, s) && Enabled(c, s, a) && Reconnects(a, Next(c, s, a), x, lid)
    ensures Tracks(Next(c, s, a), x, lid)
  {
    hide Inv, Tracks, Subscribed, ParseId;
    StartsTracking(c, s, x, a.l, a.tenant, a.user, a.lastId, lid);
  }

  /** No live push to x between the reconnect and state j overtakes a missed event. */
  ghost predicate AllHarmless(run: seq<State>, acts: seq<Action>, i: nat, j: nat, x: nat, lid: Id)
    requires j < |run| == |acts| + 1
  {
    forall m :: i < m < j ==> Harmless(run[m], acts[m], x, lid)
  }

  lemma HarmlessStep(run: seq<State>, acts: seq<Action>, i: nat, j: nat, x: nat, lid: Id)
    requires i < j < |run| == |acts| + 1
    ensures AllHarmless(run, acts, i, i + 1, x, lid)
    ensures i + 1 < j ==> (
      && AllHarmless(run, acts, i, j, x, lid)
      <==> AllHarmless(run, acts, i, j - 1, x, lid) && Harmless(run[j - 1], acts[j - 1], x, lid))
  {
    hide Harmless;
  }

  lemma {:induction false} RunTracks(c: Config, run: seq<State>, acts: seq<Action>, i: nat, j: nat, x: nat, lid: Id)
    requires ConfigOk(c) && IsRun(c, run, acts) && Undisturbed(c, run, acts, i, j, x, lid)
    requires j < |run| == |acts| + 1 && AllHarmless(run, acts, i, j, x, lid)
    ensures Tracks(run[j], x, lid)
    decreases j
  {
    hide *;
    UndisturbedStep(c, run, acts, i, j, x, lid);
    HarmlessStep(run, acts, i, j, x, lid);
    RunStep(c, run, acts, j - 1);
    if i + 1 == j {
      ReconnectTracks(c, run[j - 1], acts[j - 1], x, lid);
    } else {
      RunTracks(c, run, acts, i, j - 1, x, lid);
      KeepsTracks(c, run[j - 1], acts[j - 1], x, lid);
    }
  }

  /** Everything newer than lid on the tenant's stream that is addressed to x's user. */
  ghost function Missed(s: State, x: nat, lid: Id): seq<Entry>
    requires x in s.subs
  {
    var all := LogOf(s, s.subs[x].tenant).all;
    Addressed(all[Position(all, lid)..], s.subs[x].user)
  }

  /** The replay has finished and the loop has dispatched the newest entry. */
  ghost predicate Settled(s: State, x: nat) {
    && x in s.subs && s.subs[x].replay == Pushing([])
    && LoopOf(s, x) in s.loops && s.loops[LoopOf(s, x)].targets == {}
    && var all := LogOf(s, s.subs[x].tenant).all; Position(all, s.loops[LoopOf(s, x)].cursor) == |all|
  }

  /** What was put into x's buffer starts what x missed: nothing repeated, skipped or out
      of order. */
  ghost predicate OnCourse(s: State, x: nat, lid: Id) {
    x in s.subs && s.subs[x].sent <= Missed(s, x, lid)
  }

  lemma SentSoFar(all: seq<Entry>, lid: Id, d: int, sub: Sub)
    requires Replays(all, lid, d, sub)
    ensures sub.accepted <= Addressed(all[Position(all, lid)..], sub.user)
    ensures sub.replay == Pushing([]) && d == |all| ==> sub.accepted == Addressed(all[Position(all, lid)..], sub.user)
  {
    var k := Position(all, lid);
    assert all[k..|all|] == all[k..];
    if sub.replay.Asked? {
      var g: nat :| Got(all, k, sub.accepted, sub.user, g);
      SpanJoins(all, k, g, |all|, sub.user);
    } else {
      var g: nat, m: nat :| Got(all, k, sub.accepted, sub.user, g) && Midway(all, k, d, sub.user, sub.replay.rest, g, m);
      SpanJoins(all, k, g, |all|, sub.user);
    }
  }

  lemma TracksOnCourse(s: State, x: nat, lid: Id)
    requires Tracks(s, x, lid)
    ensures OnCourse(s, x, lid) && (Settled(s, x) ==> s.subs[x].sent == Missed(s, x, lid))
  {
    var all, sub := LogOf(s, s.subs[x].tenant).all, s.subs[x];
    SentSoFar(all, lid, Served(all, s.loops[LoopOf(s, x)], x), sub);
  }

  lemma MissedAfterPush(c: Config, s: State, x: nat, lid: Id, l: nat)
    requires Enabled(c, s, LoopPush(l, x)) && x in s.subs
    ensures var s' := Next(c, s, LoopPush(l, x));
      && x in s'.subs && Missed(s', x, lid) == Missed(s, x, lid)
      && s'.subs[x].sent == Push(s.subs[x], s.loops[l].current.value).sub.sent
  {
    PushSameTenant(s.subs[x], s.loops[l].current.value);
    hide Push, Position, Addressed;
  }

  /** The live push of a tracked subscription leaves it on course if and only if it
      overtakes nothing. */
  lemma PushCourse(c: Config, s: State, x: nat, lid: Id, l: nat)
    requires Inv(c, s) && Positions(s) && Enabled(c, s, LoopPush(l, x)) && Tracks(s, x, lid) && Calm(c, s, LoopPush(l, x), x)
    ensures OnCourse(Next(c, s, LoopPush(l, x)), x, lid) <==> Harmless(s, LoopPush(l, x), x, lid)
  {
    hide SubOk, Targets, Inv, Positions, Push, Position, Ordered, NothingBefore, Replays, Addressed, Next;
    PushFacts(c, s, x, lid, l);
    MissedAfterPush(c, s, x, lid, l);
    FollowCourse(LogOf(s, s.subs[x].tenant).all, lid, s.loops[l], x, s.subs[x]);
  }

  lemma FollowCourse(all: seq<Entry>, lid: Id, loop: Loop, x: nat, sub: Sub)
    requires !sub.closed && sub.sent == sub.accepted && sub.waiting < CONN_BUFFER && x in loop.targets
    requires Replays(all, lid, Served(all, loop, x), sub) && Ordered(all) && SubOk(sub, all)
    requires Position(all, loop.cursor) > 0 && loop.current == Some(all[Position(all, loop.cursor) - 1])
    requires Targets(loop.current.value.to, sub.user)
    ensures Push(sub, loop.current.value).sub.sent <= Addressed(all[Position(all, lid)..], sub.user)
      <==> NothingBefore(all, lid, Position(all, loop.cursor) - 1, sub)
  {
    hide Targets, Position, SubOk, Replays, NothingBefore, Ordered;
    assert all[Position(all, lid)..|all|] == all[Position(all, lid)..];
    LivePushExact(all, lid, Served(all, loop, x), sub);
    PushSends(sub, loop.current.value);
  }

  lemma PushSends(sub: Sub, e: Entry)
    requires sub.sent == sub.accepted && sub.waiting < CONN_BUFFER
    ensures Push(sub, e).sub.sent == Push(sub, e).sub.accepted
  {
  }

  /** A subscription still on course after the step was not overtaken by it. */
  lemma CourseKept(c: Config, s: State, a: Action, x: nat, lid: Id)
    requires Inv(c, s) && Positions(s) && Enabled(c, s, a) && Tracks(s, x, lid) && Calm(c, s, a, x)
    requires OnCourse(Next(c, s, a), x, lid)
    ensures Harmless(s, a, x, lid)
  {
    if a.LoopPush? && a.x == x {
      hide Inv, Positions, Push, NothingBefore, Tracks, Missed;
      PushCourse(c, s, x, lid, a.l);
    }
  }

  /** From on course to harmless along the run: the first push that overtakes leaves the
      course at once. */
  lemma {:induction false} CourseHarmless(c: Config, run: seq<State>, acts: seq<Action>, i: nat, j: nat, x: nat, lid: Id)
    requires ConfigOk(c) && IsRun(c, run, acts) && Undisturbed(c, run, acts, i, j, x, lid)
    requires j < |run| == |acts| + 1 && forall m :: i < m <= j ==> OnCourse(run[m], x, lid)
    ensures AllHarmless(run, acts, i, j, x, lid)
    decreases j
  {
    hide *;
    UndisturbedStep(c, run, acts, i, j, x, lid);
    HarmlessStep(run, acts, i, j, x, lid);
    RunStep(c, run, acts, j - 1);
    if i + 1 < j {
      CourseHarmless(c, run, acts, i, j - 1, x, lid);
      RunTracks(c, run, acts, i, j - 1, x, lid);
      CourseKept(c, run[j - 1], acts[j - 1], x, lid);
    }
  }

  /** Handover without gap or duplicate, over every run: the events put into the
      reconnected reader's buffer are at every moment a prefix of what it missed, so none
      is repeated, skipped or out of order, if and only if no live push overtakes an event
      its replay has yet to deliver. Then, once the replay has finished and the loop has
      dispatched the newest entry, they are exactly what it missed. */
  lemma HandoverExact(c: Config, run: seq<State>, acts: seq<Action>, i: nat, j: nat, x: nat, lid: Id)
    requires ConfigOk(c) && IsRun(c, run, acts) && Undisturbed(c, run, acts, i, j, x, lid)
    requires j < |run| == |acts| + 1
    ensures (forall m :: i < m <= j ==> OnCourse(run[m], x, lid)) <==> AllHarmless(run, acts, i, j, x, lid)
    ensures AllHarmless(run, acts, i, j, x, lid) && Settled(run[j], x) ==> run[j].subs[x].sent == Missed(run[j], x, lid)
  {
    if forall m :: i < m <= j ==> OnCourse(run[m], x, lid) {
      CourseHarmless(c, run, acts, i, j, x, lid);
    }
    if AllHarmless(run, acts, i, j, x, lid) {
      forall m | i < m <= j
        ensures OnCourse(run[m], x, lid)
      {
        HarmlessCourse(c, run, acts, i, j, m, x, lid);
      }
      RunTracks(c, run, acts, i, j, x, lid);
      TracksOnCourse(run[j], x, lid);
    }
  }

  lemma HarmlessCourse(c: Config, run: seq<State>, acts: seq<Action>, i: nat, j: nat, m: nat, x: nat, lid: Id)
    requires ConfigOk(c) && IsRun(c, run, acts) && Undisturbed(c, run, acts, i, j, x, lid) && i < m <= j
    requires j < |run| == |acts| + 1 && AllHarmless(run, acts, i, j, x, lid)
    ensures OnCourse(run[m], x, lid)
  {
    hide IsRun, ConfigOk, Calm, Intact, Harmless, Reconnects, OnCourse, Tracks;
    RunTracks(c, run, acts, i, m, x, lid);
    TracksOnCourse(run[m], x, lid);
  }
}
