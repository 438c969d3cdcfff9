/** Where the hub's delivery stops being complete: a replay larger than the buffer, and
    a live push that overtakes the replay. */
module HubLimits {
  import opened Common
  import opened StreamIds
  import opened StreamLog
  import opened HubProtocol
  import opened HubSafety
  import opened HubHandover

  /** The replay loop run to its end with nobody reading meanwhile. */
  function ReplayAll(sub: Sub): Sub
    requires sub.replay.Pushing?
    decreases |sub.replay.rest|
  {
    if sub.replay.rest == [] then sub else ReplayAll(Replayed(sub))
  }

  lemma ReplayAllStep(sub: Sub)
    requires sub.replay.Pushing?
    ensures sub.replay.rest != [] ==> ReplayAll(sub) == ReplayAll(Replayed(sub))
    ensures sub.replay.rest == [] ==>
      ReplayAll(sub) == sub && Addressed(sub.replay.rest, sub.user) == [] && forall n :: Take([], n) == []
  {
  }

  function Take(es: seq<Entry>, n: int): seq<Entry> {
    if n <= 0 then [] else if n < |es| then es[..n] else es
  }

  /** One replayed entry. */
  lemma ReplayOne(sub: Sub)
    requires sub.replay.Pushing? && sub.replay.rest != [] && !sub.closed
    requires sub.last.Some? ==> Less(sub.last.value, sub.replay.rest[0].id)
    ensures var e, sub' := sub.replay.rest[0], Replayed(sub);
      var one := if Targets(e.to, sub.user) then [e] else [];
      && sub'.accepted == sub.accepted + one && sub'.user == sub.user && !sub'.closed
      && sub'.replay == Pushing(sub.replay.rest[1..])
      && sub'.sent == sub.sent + Take(one, CONN_BUFFER - sub.waiting)
      && sub'.waiting == sub.waiting + |Take(one, CONN_BUFFER - sub.waiting)|
      && sub'.last == if one == [] then sub.last else Some(e.id)
  {
    hide Targets;
  }

  lemma {:induction false} ReplayFills(sub: Sub)
    requires sub.replay.Pushing? && !sub.closed && sub.waiting <= CONN_BUFFER && Ordered(sub.replay.rest)
    requires sub.last.Some? && sub.replay.rest != [] ==> Less(sub.last.value, sub.replay.rest[0].id)
    ensures ReplayAll(sub).accepted == sub.accepted + Addressed(sub.replay.rest, sub.user)
    ensures ReplayAll(sub).sent == sub.sent + Take(Addressed(sub.replay.rest, sub.user), CONN_BUFFER - sub.waiting)
    decreases |sub.replay.rest|
  {
    hide *;
    var rest, n := sub.replay.rest, CONN_BUFFER - sub.waiting;
    ReplayAllStep(sub);
    if rest != [] {
      var one, more := Addressed([rest[0]], sub.user), Addressed(rest[1..], sub.user);
      AddressedFirst(rest, sub.user);
      ReplayOne(sub);
      NextOrdered(sub);
      ReplayFills(Replayed(sub));
      TakeJoins(one, more, n);
      assert (sub.accepted + one) + more == sub.accepted + (one + more);
      assert (sub.sent + Take(one, n)) + Take(more, n - |Take(one, n)|) == sub.sent + Take(one + more, n);
    }
  }

  lemma AddressedFirst(es: seq<Entry>, user: string)
    requires es != []
    ensures Addressed(es, user) == Addressed([es[0]], user) + Addressed(es[1..], user)
    ensures Addressed([es[0]], user) == if Targets(es[0].to, user) then [es[0]] else []
  {
    SpanOne([es[0]], 0, user);
    assert [es[0]][0..1] == [es[0]];
    AddressedConcat([es[0]], es[1..], user);
    assert es == [es[0]] + es[1..];
  }

  lemma NextOrdered(sub: Sub)
    requires sub.replay.Pushing? && sub.replay.rest != [] && !sub.closed && sub.waiting <= CONN_BUFFER && Ordered(sub.replay.rest)
    requires sub.last.Some? ==> Less(sub.last.value, sub.replay.rest[0].id)
    ensures var sub' := Replayed(sub);
      && sub'.replay.Pushing? && !sub'.closed && sub'.waiting <= CONN_BUFFER && Ordered(sub'.replay.rest)
      && (sub'.last.Some? && sub'.replay.rest != [] ==> Less(sub'.last.value, sub'.replay.rest[0].id))
  {
    hide Targets;
    var rest := sub.replay.rest;
    assert |rest| > 1 ==> Less(rest[0].id, rest[1].id);
  }

  lemma TakeJoins(a: seq<Entry>, b: seq<Entry>, n: int)
    ensures Take(a, n) + Take(b, n - |Take(a, n)|) == Take(a + b, n)
  {
  }

  /** A reconnecting client's replay runs before anyone can read its buffer, so it is
      delivered whole exactly when the missed events fit the buffer; the rest is
      stamped as seen and dropped. */
  lemma ReplayWholeIffFits(t: string, u: string, lastId: string, missed: seq<Entry>)
    requires Ordered(missed)
    ensures var sub := NewSub(t, u, lastId).(replay := Pushing(missed));
      && ReplayAll(sub).accepted == Addressed(missed, u)
      && (ReplayAll(sub).sent == Addressed(missed, u) <==> |Addressed(missed, u)| <= CONN_BUFFER)
  {
    ReplayFills(NewSub(t, u, lastId).(replay := Pushing(missed)));
  }

  // ------------------------------------------------------- publishing, stalling

  /** Publishing appends one entry, stamped with the clock and the next number, to the
      tenant's live stream and keeps the newest maxLen; no other stream changes. */
  lemma PublishExact(c: Config, s: State, t: string, to: string, body: string, u: string)
    requires ConfigOk(c) && LogOk(c, LogOf(s, t), s.clock, s.counter)
    ensures var s' := Next(c, s, Publish(t, to, body));
      && s'.counter == s.counter + 1
      && Live(LogOf(s', t)) == Tail(Live(LogOf(s, t)) + [Entry(Id(s.clock, s.counter + 1), to, body)], c.maxLen)
      && (u != t ==> LogOf(s', u) == LogOf(s, u))
      && s'.subs == s.subs && s'.loops == s.loops && s'.tenants == s.tenants && s'.clock == s.clock
  {
    var l, e := LogOf(s, t), Entry(Id(s.clock, s.counter + 1), to, body);
    PublishedIs(c, s, t, to, body);
    assert Live(l) + [e] == (l.all + [e])[l.trimmed..];
  }

  /** Time passes by one, and a reader takes one waiting event; neither touches anything
      else. */
  lemma QuietSteps(c: Config, s: State, x: nat)
    ensures Next(c, s, Tick) == s.(clock := s.clock + 1)
    ensures x in s.subs && s.subs[x].waiting > 0 ==>
      && Enabled(c, s, Receive(x))
      && Next(c, s, Receive(x)) == s.(subs := s.subs[x := s.subs[x].(waiting := s.subs[x].waiting - 1)])
  {
  }

  /** A loop reads at most a hundred entries, the first that are newer than its cursor. */
  lemma ReadTakes(c: Config, s: State, l: nat)
    requires Enabled(c, s, LoopRead(l))
    ensures var loop := s.loops[l];
      Next(c, s, LoopRead(l)) == WithLoop(s, l, loop.(batch := Cut(Newer(Live(LogOf(s, loop.tenant)), loop.cursor), 100)))
  {
  }

  /** A live push reaches an open subscription that has accepted nothing as new: it is
      stamped, and queued if the buffer has room; one that finds the buffer full marks the
      subscription as stalled, and nothing else does. */
  lemma LivePushEffect(c: Config, s: State, l: nat, x: nat)
    requires Enabled(c, s, LoopPush(l, x))
    ensures var sub, s', e := s.subs[x], Next(c, s, LoopPush(l, x)), s.loops[l].current.value;
      var isNew := !sub.closed && (sub.last.None? || Less(sub.last.value, e.id));
      && s'.subs[x].accepted == sub.accepted + (if isNew then [e] else [])
      && s'.subs[x].last == (if isNew then Some(e.id) else sub.last)
      && s'.subs[x].sent == sub.sent + (if isNew && sub.waiting < 32 then [e] else [])
      && s'.subs[x].waiting == sub.waiting + (if isNew && sub.waiting < 32 then 1 else 0)
      && s'.subs[x].closed == sub.closed
      && s'.loops[l].stalled == (if isNew && sub.waiting >= 32 then {x} else {})
      && s'.loops[l].targets == s.loops[l].targets - {x}
  {
    hide Less;
  }

  /** A subscription that stalls is closed by the loop's next step, which is the only kind
      it has until then. */
  lemma StalledIsClosed(c: Config, s: State, l: nat, x: nat)
    requires l in s.loops && s.loops[l].stalled == {x} && x in s.subs
    ensures Enabled(c, s, LoopClose(l, x)) && Next(c, s, LoopClose(l, x)).subs[x].closed
    ensures forall a: Action :: Enabled(c, s, a) && (a.LoopRead? || a.LoopPick? || a.LoopPush? || a.LoopClose?) && a.l == l ==> a == LoopClose(l, x)
  {
    ClosedIs(WithLoop(s, l, s.loops[l].(stalled := s.loops[l].stalled - {x})), x);
  }

  // -------------------------------------------------------------------- resets

  /** The client's last id says nothing, or a time before the replay window. */
  predicate Unreplayable(c: Config, clock: nat, lastId: string) {
    !ParseId(lastId).ok || ParseId(lastId).id.ms < clock - c.window
  }

  /** A replay that cannot start, or whose read fails, tells the client so: one event more
      waits in its buffer, unless it is closed or the buffer is full, and no replay is left
      pending; what was accepted and sent, and everybody else, is untouched. A replay that
      can start queues nothing yet. */
  lemma ResetExact(c: Config, s: State, a: Action, x: nat)
    requires Enabled(c, s, a) && (a == ReplayRead(x) || a == ReplayFail(x))
    ensures var sub, s' := s.subs[x], Next(c, s, a);
      var sub' := s'.subs[x];
      && s' == WithSub(s, x, sub')
      && sub'.accepted == sub.accepted && sub'.sent == sub.sent && sub'.last == sub.last && sub'.closed == sub.closed
      && sub'.tenant == sub.tenant && sub'.user == sub.user
      && (sub'.replay.Nothing? <==> a.ReplayFail? || Unreplayable(c, s.clock, sub.replay.lastId))
      && sub'.waiting == sub.waiting + if sub'.replay.Nothing? && !sub.closed && sub.waiting < 32 then 1 else 0
  {
    hide ParseId, Newer;
  }

  // --------------------------------------------------------------- overtaking

  const Defaults := Config(5, 2000, 10000, 300000)
  const A := Entry(Id(0, 1), "*", "a")
  const B := Entry(Id(0, 2), "*", "b")
  const C := Entry(Id(0, 3), "*", "c")

  const Overtaken: seq<Action> := [
    Publish("t", "*", "a"), Publish("t", "*", "b"), Subscribe(0, 0, "t", "u", "0-1"),
    Publish("t", "*", "c"), LoopRead(0), LoopPick(0), LoopPush(0, 0),
    ReplayRead(0), ReplayPush(0), ReplayPush(0)]

  /** The states of that run once the subscription exists. */
  function At(all: seq<Entry>, loop: Loop, sub: Sub): State {
    State(0, |all|, map["t" := Log(all, 0)], map["t" := TenantSub(0, {0}, map["u" := 1])], map[0 := loop], map[0 := sub])
  }

  const Opened := Sub("t", "u", None, false, [], [], 0, Asked("0-1"))
  const Lively := Sub("t", "u", Some(C.id), false, [C], [C], 1, Asked("0-1"))

  ghost predicate Steps(s: State, a: Action, s': State) {
    Enabled(Defaults, s, a) && Next(Defaults, s, a) == s'
  }

  const S1 := State(0, 1, map["t" := Log([A], 0)], map[], map[], map[])
  const S2 := State(0, 2, map["t" := Log([A, B], 0)], map[], map[], map[])
  const S3 := At([A, B], Loop("t", B.id, [], None, {}, {}), Opened)
  const S4 := At([A, B, C], Loop("t", B.id, [], None, {}, {}), Opened)
  const S5 := At([A, B, C], Loop("t", B.id, [C], None, {}, {}), Opened)
  const S6 := At([A, B, C], Loop("t", C.id, [], Some(C), {0}, {}), Opened)
  const S7 := At([A, B, C], Loop("t", C.id, [], Some(C), {}, {}), Lively)
  const S8 := At([A, B, C], Loop("t", C.id, [], Some(C), {}, {}), Lively.(replay := Pushing([B, C])))
  const S9 := At([A, B, C], Loop("t", C.id, [], Some(C), {}, {}), Lively.(replay := Pushing([C])))
  const S10 := At([A, B, C], Loop("t", C.id, [], Some(C), {}, {}), Lively.(replay := Pushing([])))

  lemma Step1()
    ensures Steps(Init, Overtaken[0], S1)
  {
    assert [] + [A] == [A];
    assert Next(Defaults, Init, Overtaken[0]).logs == S1.logs;
  }

  lemma Step2()
    ensures Steps(S1, Overtaken[1], S2)
  {
    assert [A] + [B] == [A, B];
    assert Next(Defaults, S1, Overtaken[1]).logs == S2.logs;
  }

  lemma Step3()
    ensures Steps(S2, Overtaken[2], S3)
  {
    var s := Next(Defaults, S2, Overtaken[2]);
    assert s.tenants == S3.tenants && s.loops == S3.loops && s.subs == S3.subs;
  }

  lemma Step4()
    ensures Steps(S3, Overtaken[3], S4)
  {
    assert [A, B] + [C] == [A, B, C];
    assert Next(Defaults, S3, Overtaken[3]).logs == S4.logs;
  }

  lemma Reads(id: Id)
    requires id == A.id || id == B.id
    ensures Newer([A, B, C], id) == if id == A.id then [B, C] else [C]
  {
    assert [A, B, C][..2] == [A, B] && [A, B][..1] == [A] && [A][..0] == [];
    assert Newer([A], id) == [];
    assert Newer([A, B], id) == if id == A.id then [B] else [];
    assert [B] + [C] == [B, C];
  }

  lemma Step5()
    ensures Steps(S4, Overtaken[4], S5)
  {
    Reads(B.id);
    assert [A, B, C][0..] == [A, B, C];
    assert Next(Defaults, S4, Overtaken[4]).loops == S5.loops;
  }

  lemma Step6()
    ensures Steps(S5, Overtaken[5], S6)
  {
    var s := Next(Defaults, S5, Overtaken[5]);
    assert [C][1..] == [];
    assert s.loops[0].targets == {0};
    assert s.loops[0] == S6.loops[0];
    assert s.loops == S6.loops;
  }

  lemma Step7()
    ensures Steps(S6, Overtaken[6], S7)
  {
    var s := Next(Defaults, S6, Overtaken[6]);
    assert [] + [C] == [C] && {0} - {0} == {};
    assert s.loops[0] == S7.loops[0] && s.subs[0] == S7.subs[0];
    assert s.loops == S7.loops && s.subs == S7.subs;
  }

  lemma Step8()
    ensures Steps(S7, Overtaken[7], S8)
    ensures ParseId("0-1") == ParsedId(A.id, true)
  {
    FormatParse(A.id);
    assert FormatId(A.id) == "0-1";
    Reads(A.id);
    assert [A, B, C][0..] == [A, B, C];
    assert Next(Defaults, S7, Overtaken[7]).subs == S8.subs;
  }

  lemma Step9()
    ensures Steps(S8, Overtaken[8], S9)
    ensures Steps(S9, Overtaken[9], S10)
  {
    assert [B, C][1..] == [C] && [C][1..] == [];
    assert !Less(C.id, B.id) && !Less(C.id, C.id);
    assert Replayed(S8.subs[0]) == S9.subs[0];
    assert Replayed(S9.subs[0]) == S10.subs[0];
    assert Next(Defaults, S8, Overtaken[8]).subs == S9.subs;
    assert Next(Defaults, S9, Overtaken[9]).subs == S10.subs;
  }

  lemma OvertakenEnd()
    ensures Settled(S10, 0) && Missed(S10, 0, A.id) == [B, C]
  {
    var all := [A, B, C];
    PositionUnique(all, A.id, 1);
    PositionUnique(all, C.id, 3);
    assert all[1..] == [B, C] && [B, C][..1] == [B] && [B][..0] == [];
    assert Addressed([B], "u") == [B];
    assert Addressed([B, C], "u") == [B] + [C];
  }

  lemma RunExtends(run: seq<State>, acts: seq<Action>, a: Action, s: State)
    requires IsRun(Defaults, run, acts) && Steps(run[|acts|], a, s)
    ensures IsRun(Defaults, run + [s], acts + [a])
  {
    hide Enabled, Next;
  }

  lemma OvertakenRuns() returns (run: seq<State>)
    ensures IsRun(Defaults, run, Overtaken) && run[10] == S10
  {
    hide Enabled, Next, At;
    Step1(); Step2(); Step3(); Step4(); Step5(); Step6(); Step7(); Step8(); Step9();
    var acts: seq<Action>;
    run, acts := [Init], [];
    var states := [S1, S2, S3, S4, S5, S6, S7, S8, S9, S10];
    assert IsRun(Defaults, run, acts);
    hide IsRun;
    for i := 0 to 10
      invariant |run| == i + 1 && acts == Overtaken[..i] && IsRun(Defaults, run, acts)
      invariant run[i] == if i == 0 then Init else states[i - 1]
    {
      assert Steps(run[i], Overtaken[i], states[i]);
      RunExtends(run, acts, Overtaken[i], states[i]);
      run, acts := run + [states[i]], acts + [Overtaken[i]];
    }
    assert Overtaken[..10] == Overtaken;
  }

  /** The wait for the replay is needed: in this run the live push of the third event
      comes before the replay's push of the second, which is then refused as old. The
      replay finishes, the loop has dispatched everything, nothing was trimmed and the
      buffer has room, yet the second event is never delivered. */
  lemma OvertakingLoses()
    ensures exists run: seq<State> ::
      && IsRun(Defaults, run, Overtaken)
      && Settled(run[10], 0) && run[10].subs[0].sent == [C] && Missed(run[10], 0, A.id) == [B, C]
  {
    var run := OvertakenRuns();
    hide IsRun;
    OvertakenEnd();
  }
}
