/** The batching audit writer: records are queued without blocking and a background
    loop hands them to the store in batches (internal/audit/audit.go). */
module Audit {

  const BATCH := 200

  /** An audit row; only its identity matters to the writer. */
  datatype Row = Row(seqno: int, body: string)

  /** What the background loop is doing: waiting on its channels, emptying the queue for
      a Flush, or gone. */
  datatype Phase = Idle | Draining | Stopped

  /** The writer. handed lists the batches given to the store; accepted and valid are the
      history of queued rows and of Record calls that passed validation. */
  datatype Writer = Writer(capacity: nat, queue: seq<Row>, buffer: seq<Row>, handed: seq<seq<Row>>,
                           closed: bool, dropped: nat, phase: Phase, accepted: seq<Row>, valid: nat)

  function New(capacity: nat): Writer {
    Writer(capacity, [], [], [], false, 0, Idle, [], 0)
  }

  function Flat(batches: seq<seq<Row>>): seq<Row> {
    if batches == [] then [] else Flat(batches[..|batches| - 1]) + batches[|batches| - 1]
  }

  datatype Action = Record(row: Row, ok: bool) | Receive | Tick | FlushRequest | Drain | FlushDone | Close | Finish

  /** flush: an empty buffer is not written. */
  function Flushed(w: Writer): Writer {
    if w.buffer == [] then w else w.(handed := w.handed + [w.buffer], buffer := [])
  }

  /** Record of a row whose event did or did not validate. */
  function Recorded(w: Writer, row: Row, ok: bool): Writer {
    if !ok then w
    else if w.closed || |w.queue| >= w.capacity then w.(dropped := w.dropped + 1, valid := w.valid + 1)
    else w.(queue := w.queue + [row], accepted := w.accepted + [row], valid := w.valid + 1)
  }

  /** One row from the queue into the buffer. */
  function Moved(w: Writer): Writer
    requires w.queue != []
  {
    w.(queue := w.queue[1..], buffer := w.buffer + [w.queue[0]])
  }

  function Received(w: Writer): Writer
    requires w.queue != []
  {
    if |w.buffer| + 1 >= BATCH then Flushed(Moved(w)) else Moved(w)
  }

  predicate Enabled(w: Writer, a: Action) {
    match a
    case Record(_, _) => true
    case Receive => w.phase == Idle && w.queue != []
    case Tick => w.phase == Idle
    case FlushRequest => w.phase == Idle
    case Drain => w.phase.Draining? && w.queue != []
    case FlushDone => w.phase.Draining? && w.queue == []
    case Close => true
    case Finish => w.phase == Idle && w.closed && w.queue == []
  }

  function Next(w: Writer, a: Action): Writer
    requires Enabled(w, a)
  {
    match a
    case Record(row, ok) => Recorded(w, row, ok)
    case Receive => Received(w)
    case Tick => Flushed(w)
    case FlushRequest => w.(phase := Draining)
    case Drain => Moved(w)
    case FlushDone => Flushed(w).(phase := Idle)
    case Close => w.(closed := true)
    case Finish => Flushed(w).(phase := Stopped)
  }

  /** Nothing is lost, duplicated or reordered between the queue and the store, every
      valid record is accepted or counted as dropped, and a stopped writer holds nothing. */
  ghost predicate Conserved(w: Writer) {
    && InFlight(w) == w.accepted
    && w.valid == |w.accepted| + w.dropped
    && |w.queue| <= w.capacity
    && (!w.phase.Draining? ==> |w.buffer| < BATCH)
    && (w.phase.Stopped? ==> w.closed && w.queue == [] && w.buffer == [])
    && (forall i :: 0 <= i < |w.handed| ==> w.handed[i] != [])
  }

  /** Rows on their way to the store, oldest first. */
  function InFlight(w: Writer): seq<Row> {
    Flat(w.handed) + w.buffer + w.queue
  }

  lemma FlushedKeeps(w: Writer)
    ensures Flat(Flushed(w).handed) == Flat(w.handed) + w.buffer
    ensures Flushed(w).buffer == [] && InFlight(Flushed(w)) == InFlight(w)
    ensures (forall i :: 0 <= i < |w.handed| ==> w.handed[i] != []) ==>
      forall i :: 0 <= i < |Flushed(w).handed| ==> Flushed(w).handed[i] != []
  {
    if w.buffer != [] {
      assert Flushed(w).handed[..|w.handed|] == w.handed;
    }
  }

  lemma MovedKeeps(w: Writer)
    requires w.queue != []
    ensures InFlight(Moved(w)) == InFlight(w)
  {
    assert Flat(w.handed) + Moved(w).buffer + Moved(w).queue == Flat(w.handed) + w.buffer + w.queue;
  }

  lemma KeepsConserved(w: Writer, a: Action)
    requires Conserved(w) && Enabled(w, a)
    ensures Conserved(Next(w, a))
  {
    hide Flat;
    match a
    case Record(row, ok) =>
      assert InFlight(Recorded(w, row, ok)) == Recorded(w, row, ok).accepted;
    case Receive =>
      MovedKeeps(w);
      FlushedKeeps(Moved(w));
    case Drain => MovedKeeps(w);
    case _ => FlushedKeeps(w);
  }

  ghost predicate IsRun(run: seq<Writer>, acts: seq<Action>, capacity: nat) {
    && |run| == |acts| + 1
    && run[0] == New(capacity)
    && forall i :: 0 <= i < |acts| ==> Enabled(run[i], acts[i]) && run[i + 1] == Next(run[i], acts[i])
  }

  lemma {:induction false} RunConserved(run: seq<Writer>, acts: seq<Action>, capacity: nat, i: nat)
    requires IsRun(run, acts, capacity) && i < |run|
    ensures Conserved(run[i])
  {
    if i > 0 {
      RunConserved(run, acts, capacity, i - 1);
      KeepsConserved(run[i - 1], acts[i - 1]);
    }
  }

  /** For every schedule: the rows handed to the store, then the buffer, then the queue
      are the accepted rows in order; valid records are the accepted and the dropped. */
  lemma NothingLost(run: seq<Writer>, acts: seq<Action>, capacity: nat, i: nat)
    requires IsRun(run, acts, capacity) && i < |run|
    ensures Flat(run[i].handed) + run[i].buffer + run[i].queue == run[i].accepted
    ensures run[i].valid == |run[i].accepted| + run[i].dropped
  {
    RunConserved(run, acts, capacity, i);
  }

  /** A record that is valid is accepted exactly while the writer is open and its queue has
      room; otherwise it is dropped and counted, and one that is not valid leaves no trace. */
  lemma RecordExact(w: Writer, row: Row, ok: bool)
    ensures var w' := Next(w, Record(row, ok));
      && (w'.accepted == w.accepted + [row] && w'.queue == w.queue + [row] <==> ok && !w.closed && |w.queue| < w.capacity)
      && (w'.dropped == w.dropped + 1 <==> ok && (w.closed || |w.queue| >= w.capacity))
      && (!ok ==> w' == w)
  {
    assert |w.queue + [row]| == |w.queue| + 1;
  }

  /** Rows leave for the store at the two-hundredth of a batch, at every tick, and when a
      Flush is answered: then nothing is left in the buffer; until then a received row waits
      in it. */
  lemma HandedWhen(w: Writer, a: Action)
    requires Enabled(w, a) && (a.Receive? || a.Tick? || a.FlushDone? || a.Finish?)
    ensures var w' := Next(w, a);
      if a.Receive? && |w.buffer| + 1 < 200
      then w'.handed == w.handed && w'.buffer == w.buffer + [w.queue[0]]
      else w'.buffer == [] && Flat(w'.handed) == Flat(w.handed) + w.buffer + (if a.Receive? then [w.queue[0]] else [])
  {
    if a.Receive? {
      FlushedKeeps(Moved(w));
      assert Flat(w.handed) + (w.buffer + [w.queue[0]]) == Flat(w.handed) + w.buffer + [w.queue[0]];
    } else {
      FlushedKeeps(w);
      assert Flat(w.handed) + w.buffer + [] == Flat(w.handed) + w.buffer;
    }
  }

  /** When a Flush is answered, every row accepted before it was requested (and every one
      accepted since) has been handed to the store. */
  lemma FlushAnswered(run: seq<Writer>, acts: seq<Action>, capacity: nat, i: nat, j: nat)
    requires IsRun(run, acts, capacity) && i < j < |acts| && acts[i].FlushRequest? && acts[j].FlushDone?
    ensures Flat(run[j + 1].handed) == run[j + 1].accepted && run[i].accepted <= run[j + 1].accepted
  {
    RunConserved(run, acts, capacity, j);
    FlushedKeeps(run[j]);
    AcceptedGrows(run, acts, capacity, i, j + 1);
  }

  lemma {:induction false} AcceptedGrows(run: seq<Writer>, acts: seq<Action>, capacity: nat, i: nat, j: nat)
    requires IsRun(run, acts, capacity) && i <= j < |run|
    ensures run[i].accepted <= run[j].accepted
    ensures run[i].closed ==> run[j].closed && run[i].accepted == run[j].accepted
    decreases j
  {
    if i < j {
      AcceptedGrows(run, acts, capacity, i, j - 1);
    }
  }

  /** After Close has been called no row is accepted any more, and once the loop has
      stopped (what Close waits for) every row ever accepted is with the store and
      nothing is queued or buffered, at that moment and for good. */
  lemma CloseDrains(run: seq<Writer>, acts: seq<Action>, capacity: nat, i: nat, j: nat, k: nat)
    requires IsRun(run, acts, capacity) && i <= j <= k < |run| && run[i].closed && run[j].phase.Stopped?
    ensures run[k].phase.Stopped? && run[k].queue == [] && run[k].buffer == []
    ensures Flat(run[k].handed) == run[k].accepted == run[i].accepted
  {
    RunConserved(run, acts, capacity, k);
    AcceptedGrows(run, acts, capacity, i, k);
    StaysStopped(run, acts, capacity, j, k);
  }

  lemma {:induction false} StaysStopped(run: seq<Writer>, acts: seq<Action>, capacity: nat, i: nat, j: nat)
    requires IsRun(run, acts, capacity) && i <= j < |run| && run[i].phase.Stopped?
    ensures run[j].phase.Stopped?
    decreases j
  {
    if i < j {
      StaysStopped(run, acts, capacity, i, j - 1);
    }
  }

  /** How many more steps of its own a closed writer needs. */
  function Left(w: Writer): nat {
    2 * |w.queue| + match w.phase case Idle => 1 case Draining => 2 case Stopped => 0
  }

  /** Close ends: in a closed writer the loop always has a receive, drain, answer or
      finish step to take until it stops, each bringing it strictly closer, and no other
      step but a new Flush takes it back. */
  lemma CloseProgresses(w: Writer, a: Action)
    requires Conserved(w) && w.closed && Enabled(w, a)
    ensures !w.phase.Stopped? ==>
      Enabled(w, Receive) || Enabled(w, Drain) || Enabled(w, FlushDone) || Enabled(w, Finish)
    ensures a.Receive? || a.Drain? || a.FlushDone? || a.Finish? ==> Left(Next(w, a)) < Left(w)
    ensures a.Record? || a.Tick? || a.Close? ==> Left(Next(w, a)) == Left(w)
  {
  }

  // ------------------------------------------------------------ the object

  /** The actions lead from one writer to another. */
  ghost predicate Leads(w: Writer, acts: seq<Action>, w': Writer)
    decreases |acts|
  {
    if acts == [] then w' == w else Enabled(w, acts[0]) && Leads(Next(w, acts[0]), acts[1..], w')
  }

  lemma {:induction false} LeadsOn(w: Writer, acts: seq<Action>, mid: Writer, a: Action)
    requires Leads(w, acts, mid) && Enabled(mid, a)
    ensures Leads(w, acts + [a], Next(mid, a))
    decreases |acts|
  {
    hide Enabled, Next;
    if acts == [] {
      assert acts + [a] == [a] && [a][1..] == [];
      assert Leads(Next(w, a), [], Next(w, a));
    } else {
      LeadsOn(Next(w, acts[0]), acts[1..], mid, a);
      assert (acts + [a])[1..] == acts[1..] + [a];
    }
  }

  lemma {:induction false} LeadsThrough(w: Writer, acts: seq<Action>, mid: Writer, more: seq<Action>, w': Writer)
    requires Leads(w, acts, mid) && Leads(mid, more, w')
    ensures Leads(w, acts + more, w')
    decreases |more|
  {
    hide Enabled, Next;
    if more == [] {
      assert acts + more == acts;
    } else {
      LeadsOn(w, acts, mid, more[0]);
      LeadsThrough(w, acts + [more[0]], Next(mid, more[0]), more[1..], w');
      assert acts + [more[0]] + more[1..] == acts + more;
    }
  }

  /** The writer as it runs: every method is a step of the machine, or leads from one of
      its states to another by the steps it returns. */
  class BatchLog {
    const capacity: nat
    var queue: seq<Row>
    var buffer: seq<Row>
    var handed: seq<seq<Row>>
    var closed: bool
    var stopped: bool
    var dropped: nat
    ghost var accepted: seq<Row>
    ghost var valid: nat

    ghost function View(): Writer
      reads this
    {
      Writer(capacity, queue, buffer, handed, closed, dropped, if stopped then Stopped else Idle, accepted, valid)
    }

    ghost predicate Valid()
      reads this
    {
      Conserved(View())
    }

    constructor (n: nat)
      ensures Valid() && View() == New(n)
    {
      capacity, queue, buffer, handed, closed, stopped, dropped := n, [], [], [], false, false, 0;
      accepted, valid := [], 0;
    }

    /** Record of a row whose event did or did not validate. */
    method Record(row: Row, ok: bool) returns (refused: bool)
      requires Valid()
      modifies this`queue, this`dropped, this`accepted, this`valid
      ensures Valid() && View() == Next(old(View()), Action.Record(row, ok))
      ensures refused == (!ok || closed)
    {
      KeepsConserved(View(), Action.Record(row, ok));
      if !ok {
        return true;
      }
      valid := valid + 1;
      if closed {
        dropped := dropped + 1;
        return true;
      }
      if |queue| < capacity {
        queue, accepted := queue + [row], accepted + [row];
      } else {
        dropped := dropped + 1;
      }
      return false;
    }

    /** flush: hand over the buffer unless it is empty. */
    method Write()
      modifies this`buffer, this`handed
      ensures View() == Flushed(old(View()))
    {
      if buffer != [] {
        handed := handed + [buffer];
        buffer := [];
      }
    }

    /** One receive of the loop: full batches are written at once. */
    method Receive()
      requires Valid() && !stopped && queue != []
      modifies this`queue, this`buffer, this`handed
      ensures Valid() && View() == Next(old(View()), Action.Receive)
    {
      KeepsConserved(View(), Action.Receive);
      buffer, queue := buffer + [queue[0]], queue[1..];
      if |buffer| >= BATCH {
        Write();
      }
    }

    /** A Flush request: everything queued is written before it is answered; a closed
        writer does not take it. */
    method Flush() returns (ghost acts: seq<Action>)
      requires Valid()
      modifies this`queue, this`buffer, this`handed
      ensures Valid() && Leads(old(View()), acts, View())
      ensures closed ==> acts == []
      ensures !closed ==> queue == [] && buffer == [] && Flat(handed) == accepted
    {
      acts := [];
      if closed {
        return;
      }
      hide Leads, Flat;
      ghost var before := View();
      LeadsStart(before);
      LeadsOn(before, acts, before, FlushRequest);
      acts := acts + [FlushRequest];
      ghost var w := before.(phase := Draining);
      while |queue| > 0
        invariant w == View().(phase := Draining) && Conserved(w) && Leads(before, acts, w)
      {
        KeepsConserved(w, Drain);
        LeadsOn(before, acts, w, Drain);
        acts, w := acts + [Drain], Next(w, Drain);
        buffer, queue := buffer + [queue[0]], queue[1..];
      }
      KeepsConserved(w, FlushDone);
      LeadsOn(before, acts, w, FlushDone);
      FlushedKeeps(w);
      acts := acts + [FlushDone];
      Write();
    }

    /** The locked part of Close: from here on nothing is accepted. */
    method Shut()
      requires Valid()
      modifies this`closed
      ensures Valid() && View() == Next(old(View()), Action.Close)
    {
      KeepsConserved(View(), Action.Close);
      closed := true;
    }

    /** The loop of a closed writer: the queue is received to the end, the rest written. */
    method Finish() returns (ghost acts: seq<Action>)
      requires Valid() && closed && !stopped
      modifies this`queue, this`buffer, this`handed, this`stopped
      ensures Valid() && Leads(old(View()), acts, View())
      ensures stopped && queue == [] && buffer == [] && Flat(handed) == accepted
    {
      hide Leads, Flat;
      acts := [];
      ghost var before := View();
      LeadsStart(before);
      while queue != []
        invariant Valid() && !stopped && Leads(before, acts, View())
        decreases |queue|
      {
        LeadsOn(before, acts, View(), Action.Receive);
        acts := acts + [Action.Receive];
        Receive();
      }
      KeepsConserved(View(), Action.Finish);
      LeadsOn(before, acts, View(), Action.Finish);
      FlushedKeeps(View());
      acts := acts + [Action.Finish];
      Write();
      stopped := true;
    }

    /** Close drains and stops the writer; a second call does nothing. Records that arrive
        between its two parts are dropped and counted. */
    method Close() returns (ghost acts: seq<Action>)
      requires Valid()
      modifies this`queue, this`buffer, this`handed, this`closed, this`stopped
      ensures Valid() && Leads(old(View()), acts, View())
      ensures if old(closed) then acts == [] else stopped && queue == [] && buffer == [] && Flat(handed) == accepted
    {
      acts := [];
      if closed {
        return;
      }
      hide Leads, Flat;
      ghost var before := View();
      assert !before.phase.Stopped?;
      LeadsStart(before);
      LeadsOn(before, acts, before, Action.Close);
      Shut();
      ghost var mid := View();
      ghost var more := Finish();
      LeadsThrough(before, acts + [Action.Close], mid, more, View());
      acts := acts + [Action.Close] + more;
    }
  }

  lemma LeadsStart(w: Writer)
    ensures Leads(w, [], w)
  {
  }
}
