/** The ordered log behind the live-event hub: the in-process client
    (internal/stream/client.go). */
module StreamLog {
  import opened Common
  import opened StreamIds

  /** One stream entry: its id, its recipients text and its payload. */
  datatype Entry = Entry(id: Id, to: string, body: string)

  ghost predicate Ordered(es: seq<Entry>) {
    forall i, j :: 0 <= i < j < |es| ==> Less(es[i].id, es[j].id)
  }

  /** The entries newer than id, in stream order. */
  function Newer(es: seq<Entry>, id: Id): seq<Entry> {
    if es == [] then []
    else
      var rest := Newer(es[..|es| - 1], id);
      if Less(id, es[|es| - 1].id) then rest + [es[|es| - 1]] else rest
  }

  /** The entries not older than id, in stream order. */
  function Kept(es: seq<Entry>, id: Id): seq<Entry> {
    if es == [] then []
    else
      var rest := Kept(es[..|es| - 1], id);
      if Less(es[|es| - 1].id, id) then rest else rest + [es[|es| - 1]]
  }

  /** A page: the first count entries, or all of them for count <= 0. */
  function Cut(es: seq<Entry>, count: int): seq<Entry> {
    if 0 < count < |es| then es[..count] else es
  }

  /** The newest count entries, or all of them for count <= 0. */
  function Tail(es: seq<Entry>, count: int): seq<Entry> {
    if 0 < count < |es| then es[|es| - count..] else es
  }

  /** How many leading entries are not newer than id. */
  function Position(es: seq<Entry>, id: Id): (k: nat)
    ensures k <= |es|
    ensures forall i :: 0 <= i < k ==> !Less(id, es[i].id)
    ensures k < |es| ==> Less(id, es[k].id)
  {
    if es == [] || Less(id, es[0].id) then 0 else 1 + Position(es[1..], id)
  }

  lemma {:induction false} NewerFrom(es: seq<Entry>, id: Id, k: nat)
    requires k <= |es| && forall i :: 0 <= i < |es| ==> (Less(id, es[i].id) <==> k <= i)
    ensures Newer(es, id) == es[k..]
    decreases |es|
  {
    hide Less;
    if es != [] {
      var n := |es| - 1;
      NewerFrom(es[..n], id, if k <= n then k else n);
      assert k <= n ==> es[k..] == es[..n][k..] + [es[n]];
    }
  }

  lemma {:induction false} PositionSplits(es: seq<Entry>, id: Id)
    ensures forall i :: 0 <= i < Position(es, id) ==> !Less(id, es[i].id)
    ensures Position(es, id) < |es| ==> Less(id, es[Position(es, id)].id)
  {
    hide Less;
    if es != [] && !Less(id, es[0].id) {
      PositionSplits(es[1..], id);
      assert forall i :: 0 < i < |es| ==> es[i] == es[1..][i - 1];
    }
  }

  /** In an ordered log the entries newer than id are a suffix. */
  lemma NewerIsSuffix(es: seq<Entry>, id: Id)
    requires Ordered(es)
    ensures Newer(es, id) == es[Position(es, id)..]
    ensures forall i :: Position(es, id) <= i < |es| ==> Less(id, es[i].id)
  {
    PositionSplits(es, id);
    var k := Position(es, id);
    hide Position, Newer;
    forall i | k <= i < |es| ensures Less(id, es[i].id) {
      assert k < i ==> Less(es[k].id, es[i].id);
    }
    NewerFrom(es, id, k);
  }

  lemma {:induction false} PositionUnique(es: seq<Entry>, id: Id, k: nat)
    requires k <= |es|
    requires forall i :: 0 <= i < k ==> !Less(id, es[i].id)
    requires k < |es| ==> Less(id, es[k].id)
    ensures Position(es, id) == k
  {
    if k > 0 {
      PositionUnique(es[1..], id, k - 1);
    }
  }

  /** Trimming an ordered log drops a prefix. */
  lemma {:induction false} KeptIsSuffix(es: seq<Entry>, id: Id) returns (k: nat)
    requires Ordered(es)
    ensures k <= |es| && Kept(es, id) == es[k..]
    ensures forall i :: 0 <= i < |es| ==> (Less(es[i].id, id) <==> i < k)
  {
    if es == [] {
      k := 0;
    } else {
      var n := |es| - 1;
      k := KeptIsSuffix(es[..n], id);
      if Less(es[n].id, id) {
        assert forall i :: 0 <= i < n ==> Less(es[i].id, es[n].id);
        k := |es|;
      } else {
        assert es[k..] == es[..n][k..] + [es[n]];
      }
    }
  }

  /** Appending the next sequence number keeps the log ordered exactly when the
      clock did not go back. */
  lemma AppendOrdered(es: seq<Entry>, e: Entry)
    requires Ordered(es)
    requires forall x :: x in es ==> x.id.num < e.id.num
    ensures Ordered(es + [e]) <==> ClockKept(es, e.id.ms)
  {
    var all := es + [e];
    if es != [] {
      var last := es[|es| - 1];
      assert last in es;
      if last.id.ms <= e.id.ms {
        forall i, j | 0 <= i < j < |all| ensures Less(all[i].id, all[j].id) {
          if j == |es| && i < |es| - 1 {
            assert Less(es[i].id, last.id);
          }
        }
      } else {
        assert !Less(all[|es| - 1].id, all[|es|].id);
      }
    }
  }

  /** The clock has not gone back since the newest entry. */
  predicate ClockKept(es: seq<Entry>, now: int) {
    es == [] || es[|es| - 1].id.ms <= now
  }

  /** What the counter promises of every stream. */
  ghost predicate Stamped(es: seq<Entry>, counter: nat) {
    Ordered(es) && forall i :: 0 <= i < |es| ==> es[i].id.num <= counter
  }

  lemma AppendStamped(es: seq<Entry>, e: Entry, counter: nat, maxLen: int)
    requires Stamped(es, counter) && e.id.num == counter + 1
    requires ClockKept(es, e.id.ms)
    ensures Stamped(Tail(es + [e], maxLen), counter + 1)
  {
    AppendOrdered(es, e);
  }

  /** A capped log is its newest entries: all of them when they are no more than the cap or
      there is none, else the last count of them. */
  lemma TailNewest(es: seq<Entry>, e: Entry, count: int)
    ensures var kept := if 0 < count <= |es| then count - 1 else |es|;
      Tail(es + [e], count) == es[|es| - kept..] + [e]
  {
  }

  datatype Result<+T> = Ok(value: T) | Err

  /** The entries after an id; without one, all of them. */
  function After(es: seq<Entry>, id: Option<Id>): seq<Entry> {
    if id.None? then es else Newer(es, id.value)
  }

  /** How a blocked read ends: cancelled, timed out, or woken by an append, with the
      stream and the failure flag as they are then. */
  datatype Wait = Cancelled | TimedOut | Woken(stream: seq<Entry>, down: bool)

  function StartId(es: seq<Entry>, id: Option<Id>): Id {
    if id.Some? then id.value else LastId(es)
  }

  /** What a read of a stream that is up returns. */
  function ReadOnce(es: seq<Entry>, from: Id, count: int, block: bool, wait: Wait): Result<seq<Entry>> {
    if Newer(es, from) != [] || !block then Ok(Cut(Newer(es, from), count))
    else
      match wait
      case Cancelled => Err
      case TimedOut => Ok([])
      case Woken(later, down) => if down then Err else Ok(Cut(Newer(later, from), count))
  }

  lemma {:induction false} NewerHolds(es: seq<Entry>, id: Id, e: Entry)
    ensures e in Newer(es, id) <==> e in es && Less(id, e.id)
  {
    if es != [] {
      NewerHolds(es[..|es| - 1], id, e);
    }
  }

  /** A read returns at once, and something, when an entry is newer; without one it returns
      nothing at once, or waits: a cancelled wait and an outage found on waking are errors,
      a timeout is nothing. */
  lemma ReadExact(es: seq<Entry>, from: Id, count: int, block: bool, wait: Wait)
    ensures var r, any := ReadOnce(es, from, count, block, wait), exists e :: e in es && Less(from, e.id);
      && (any ==> r.Ok? && r.value != [] && r.value <= Newer(es, from))
      && (!any && !block ==> r == Ok([]))
      && (!any && block ==> (r.Err? <==> wait.Cancelled? || (wait.Woken? && wait.down)))
      && (!any && block && wait.TimedOut? ==> r == Ok([]))
      && (!any && block && wait.Woken? && !wait.down ==> r == Ok(Cut(Newer(wait.stream, from), count)))
  {
    if e :| e in es && Less(from, e.id) {
      NewerHolds(es, from, e);
    }
    if Newer(es, from) != [] {
      NewerHolds(es, from, Newer(es, from)[0]);
    }
  }

  /** A blocked read without an id returns what was appended while it waited, and only
      that. */
  lemma BlockedReadsNew(es: seq<Entry>, more: seq<Entry>, count: int)
    requires Ordered(es + more) && (es == [] ==> forall i :: 0 <= i < |more| ==> Less(Id(0, 0), more[i].id))
    ensures ReadOnce(es, StartId(es, None), count, true, Woken(es + more, false)) == Ok(Cut(more, count))
  {
    assert forall i :: 0 <= i < |es| ==> es[i] == (es + more)[i];
    assert es + [] == es;
    NewerSuffix(es, []);
    NewerSuffix(es, more);
  }

  /** After the newest of es, the entries of es + more that are newer are more. */
  lemma NewerSuffix(es: seq<Entry>, more: seq<Entry>)
    requires Ordered(es + more) && (es == [] ==> forall i :: 0 <= i < |more| ==> Less(Id(0, 0), more[i].id))
    ensures Newer(es + more, LastId(es)) == more
  {
    var all, k := es + more, |es|;
    forall i | 0 <= i < |all| ensures Less(LastId(es), all[i].id) <==> k <= i {
      assert 0 < k <= i ==> Less(all[k - 1].id, all[i].id);
      assert i < k - 1 ==> Less(all[i].id, all[k - 1].id);
    }
    NewerFrom(all, LastId(es), k);
  }

  /** Memory: one append-only sequence per key and one shared counter; down
      stands for the injected outage. */
  class Memory {
    var streams: map<string, seq<Entry>>
    var counter: nat
    var down: bool

    function Stream(key: string): seq<Entry>
      reads this
    {
      if key in streams then streams[key] else []
    }

    ghost predicate Valid()
      reads this
    {
      forall key :: key in streams ==> Stamped(streams[key], counter)
    }

    constructor ()
      ensures Valid() && streams == map[] && counter == 0 && !down
    {
      streams, counter, down := map[], 0, false;
    }

    /** XADD: stamp, append, keep the newest maxLen. */
    method XAdd(key: string, to: string, body: string, now: int, maxLen: int) returns (r: Result<Id>)
      modifies this
      ensures down == old(down) && r.Ok? == !down
      ensures r.Err? ==> streams == old(streams) && counter == old(counter)
      ensures r.Ok? ==>
        && counter == old(counter) + 1 && r.value == Id(now, counter)
        && streams == old(streams)[key := Tail(old(Stream(key)) + [Entry(r.value, to, body)], maxLen)]
      ensures r.Ok? && old(Valid()) && ClockKept(old(Stream(key)), now) ==> Valid()
    {
      if down {
        return Err;
      }
      counter := counter + 1;
      var e := Entry(Id(now, counter), to, body);
      var grown := Stream(key) + [e];
      ghost var before := Stream(key);
      if 0 < maxLen < |grown| {
        grown := grown[|grown| - maxLen..];
      }
      if old(Valid()) && ClockKept(before, now) {
        AppendStamped(before, e, counter - 1, maxLen);
      }
      streams := streams[key := grown];
      return Ok(e.id);
    }

    /** after: scan for newer entries, stopping once count are found. */
    static method AfterScan(es: seq<Entry>, id: Option<Id>, count: int) returns (out: seq<Entry>)
      ensures out == Cut(After(es, id), count)
      ensures id.None? ==> out == Cut(es, count)
    {
      out := [];
      var i := 0;
      while i < |es|
        invariant 0 <= i <= |es|
        invariant out == After(es[..i], id)
        invariant count > 0 ==> |out| < count
      {
        assert es[..i + 1][..i] == es[..i];
        if id.None? || Less(id.value, es[i].id) {
          out := out + [es[i]];
          if count > 0 && |out| == count {
            if id.Some? {
              NewerPrefix(es, i + 1, id.value);
            }
            return;
          }
        }
        i := i + 1;
      }
      assert es[..i] == es;
    }

    /** XREAD: without an id it starts after the newest entry. When nothing is newer and
        the caller blocks, wait says how the wait ends, and the stream is read once more
        from the same id when it was woken. */
    method XRead(key: string, id: Option<Id>, count: int, block: bool, wait: Wait) returns (r: Result<seq<Entry>>)
      ensures r == if down then Err else ReadOnce(Stream(key), StartId(Stream(key), id), count, block, wait)
    {
      if down {
        return Err;
      }
      var from := StartId(Stream(key), id);
      var out := AfterScan(Stream(key), Some(from), count);
      if |out| > 0 || !block {
        return Ok(out);
      }
      match wait {
        case Cancelled => return Err;
        case TimedOut => return Ok([]);
        case Woken(es, failed) =>
          if failed {
            return Err;
          }
          out := AfterScan(es, Some(from), count);
          return Ok(out);
      }
    }

    method XRange(key: string, id: Option<Id>, count: int) returns (r: Result<seq<Entry>>)
      ensures r == if down then Err else Ok(Cut(After(Stream(key), id), count))
    {
      if down {
        return Err;
      }
      var out := AfterScan(Stream(key), id, count);
      return Ok(out);
    }

    /** The scan of XTRIM MINID. */
    static method KeptScan(es: seq<Entry>, min: Id) returns (keep: seq<Entry>)
      ensures keep == Kept(es, min)
    {
      keep := [];
      var i := 0;
      while i < |es|
        invariant 0 <= i <= |es|
        invariant keep == Kept(es[..i], min)
      {
        assert es[..i + 1][..i] == es[..i];
        if !Less(es[i].id, min) {
          keep := keep + [es[i]];
        }
        i := i + 1;
      }
      assert es[..i] == es;
    }

    method XTrimMinId(key: string, min: Id) returns (r: Result<()>)
      modifies this
      ensures down == old(down) && counter == old(counter) && r.Err? == down
      ensures streams == if down then old(streams) else old(streams)[key := Kept(old(Stream(key)), min)]
      ensures old(Valid()) ==> Valid()
    {
      if down {
        return Err;
      }
      hide Kept, Less;
      var es := Stream(key);
      var keep := KeptScan(es, min);
      if old(Valid()) {
        ghost var k := KeptIsSuffix(es, min);
      }
      streams := streams[key := keep];
      return Ok(());
    }
  }

  /** The id reading starts after when none is given. */
  function LastId(es: seq<Entry>): Id {
    if es == [] then Id(0, 0) else es[|es| - 1].id
  }

  /** What a prefix holds of the newer entries is a prefix of all of them. */
  lemma {:induction false} NewerPrefix(es: seq<Entry>, n: nat, id: Id)
    requires n <= |es|
    ensures Newer(es[..n], id) <= Newer(es, id)
  {
    if n == |es| {
      assert es[..n] == es;
    } else {
      assert es[..|es| - 1][..n] == es[..n];
      NewerPrefix(es[..|es| - 1], n, id);
    }
  }
}
