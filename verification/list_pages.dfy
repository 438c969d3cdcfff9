/** List pages read by a deferred join: the page's keys first, then the rows of those keys
    (internal/store/pages.go). */
module ListPages {
  import opened Common
  import opened Paging

  /** A listed row: its key, the issuer it refers to, and the columns read for the page. */
  datatype Row = Row(key: nat, issuer: nat, columns: string)

  datatype Issuer = Issuer(id: nat, name: string)

  /** LIMIT and OFFSET. */
  function Window<T>(s: seq<T>, limit: nat, offset: nat): seq<T> {
    if offset >= |s| then [] else Take(s[offset..], limit)
  }

  /** The rows of the table with a key, as the join finds them. */
  function WithKey(table: seq<Row>, key: nat): seq<Row> {
    Keep(table, (r: Row) => r.key == key)
  }

  function Keys(rows: seq<Row>): seq<nat> {
    seq(|rows|, i requires 0 <= i < |rows| => rows[i].key)
  }

  function Numbered(pos: nat, rows: seq<Row>): seq<(nat, Row)> {
    seq(|rows|, i requires 0 <= i < |rows| => (pos, rows[i]))
  }

  /** The join of the numbered keys with the table: each key's position with each of its
      rows, in no order. */
  function JoinBag(table: seq<Row>, keys: seq<nat>): multiset<(nat, Row)> {
    if keys == [] then multiset{}
    else
      var n := |keys| - 1;
      JoinBag(table, keys[..n]) + multiset(Numbered(n, WithKey(table, keys[n])))
  }

  ghost predicate ByPosition(joined: seq<(nat, Row)>) {
    forall i, k :: 0 <= i < k < |joined| ==> joined[i].0 <= joined[k].0
  }

  function Rows(joined: seq<(nat, Row)>): seq<Row> {
    seq(|joined|, i requires 0 <= i < |joined| => joined[i].1)
  }

  /** joined is the join in the order of the positions, rows of one position in any order. */
  ghost predicate Ordering(table: seq<Row>, keys: seq<nat>, joined: seq<(nat, Row)>) {
    multiset(joined) == JoinBag(table, keys) && ByPosition(joined)
  }

  /** The page selected directly, out of the visible rows in their order. */
  function Direct(ordered: seq<Row>, limit: nat, offset: nat): seq<Row> {
    Window(ordered, limit, offset)
  }

  /** The page is an answer of the deferred query: the keys of the window, joined back to
      the table and ordered by position. */
  ghost predicate Deferred(table: seq<Row>, ordered: seq<Row>, limit: nat, offset: nat, page: seq<Row>) {
    exists joined :: Ordering(table, Keys(Window(ordered, limit, offset)), joined) && page == Rows(joined)
  }

  ghost predicate FromTable(table: seq<Row>, ordered: seq<Row>) {
    forall i :: 0 <= i < |ordered| ==> ordered[i] in table
  }

  /** Each of the rows is the only one of the table with its key. */
  ghost predicate KeysUnique(table: seq<Row>, rows: seq<Row>) {
    forall i :: 0 <= i < |rows| ==> |WithKey(table, rows[i].key)| == 1
  }

  lemma OnlyRow(table: seq<Row>, r: Row)
    requires r in table
    ensures r in WithKey(table, r.key)
    ensures |WithKey(table, r.key)| == 1 ==> WithKey(table, r.key) == [r]
  {
    KeepIn(table, (x: Row) => x.key == r.key, r);
  }

  /** The rows with their own positions. */
  function Positioned(rows: seq<Row>): seq<(nat, Row)> {
    seq(|rows|, i requires 0 <= i < |rows| => (i, rows[i]))
  }

  lemma KeysFront(rows: seq<Row>)
    requires rows != []
    ensures var n := |rows| - 1; |Keys(rows)| == n + 1 && Keys(rows)[..n] == Keys(rows[..n]) && Keys(rows)[n] == rows[n].key
  {
  }

  lemma PositionedFront(rows: seq<Row>)
    requires rows != []
    ensures var n := |rows| - 1; Positioned(rows) == Positioned(rows[..n]) + [(n, rows[n])]
  {
  }

  lemma {:induction false} BagUnique(table: seq<Row>, rows: seq<Row>)
    requires FromTable(table, rows) && KeysUnique(table, rows)
    ensures JoinBag(table, Keys(rows)) == multiset(Positioned(rows))
  {
    if rows != [] {
      var n := |rows| - 1;
      BagUnique(table, rows[..n]);
      KeysFront(rows);
      PositionedFront(rows);
      OnlyRow(table, rows[n]);
      hide WithKey;
      assert Numbered(n, [rows[n]]) == [(n, rows[n])];
    }
  }

  /** The highest position comes last. */
  lemma LastInOrder(rows: seq<Row>, joined: seq<(nat, Row)>)
    requires multiset(joined) == multiset(Positioned(rows)) && ByPosition(joined)
    ensures |joined| == |rows|
    ensures rows != [] ==> joined[|rows| - 1] == (|rows| - 1, rows[|rows| - 1])
  {
    var all := Positioned(rows);
    assert |joined| == |multiset(joined)| == |multiset(all)| == |rows|;
    if rows != [] {
      var n := |rows| - 1;
      assert all[n] in multiset(joined);
      assert joined[n] in multiset(all);
      var m :| 0 <= m < |all| && all[m] == joined[n];
    }
  }

  /** Positions without repetition admit one order. */
  lemma {:induction false} OneOrder(rows: seq<Row>, joined: seq<(nat, Row)>)
    requires multiset(joined) == multiset(Positioned(rows)) && ByPosition(joined)
    ensures joined == Positioned(rows)
    decreases |rows|
  {
    LastInOrder(rows, joined);
    if rows != [] {
      var n := |rows| - 1;
      PositionedFront(rows);
      hide Positioned;
      assert joined == joined[..n] + [joined[n]];
      assert multiset(joined[..n]) == multiset(joined) - multiset{joined[n]};
      OneOrder(rows[..n], joined[..n]);
    }
  }

  /** With a key, the one answer is the window itself. */
  lemma UniqueAnswer(table: seq<Row>, rows: seq<Row>, page: seq<Row>)
    requires FromTable(table, rows) && KeysUnique(table, rows)
    ensures (exists joined :: Ordering(table, Keys(rows), joined) && page == Rows(joined)) <==> page == rows
  {
    BagUnique(table, rows);
    assert Rows(Positioned(rows)) == rows;
    forall joined | Ordering(table, Keys(rows), joined) ensures Rows(joined) == rows {
      OneOrder(rows, joined);
    }
    assert Ordering(table, Keys(rows), Positioned(rows));
  }

  lemma {:induction false} BagGrows(table: seq<Row>, rows: seq<Row>)
    requires FromTable(table, rows)
    ensures |JoinBag(table, Keys(rows))| >= |rows|
    ensures |JoinBag(table, Keys(rows))| == |rows| ==> KeysUnique(table, rows)
  {
    if rows != [] {
      var n := |rows| - 1;
      BagGrows(table, rows[..n]);
      KeysFront(rows);
      OnlyRow(table, rows[n]);
      hide WithKey;
      assert |multiset(Numbered(n, WithKey(table, rows[n].key)))| == |WithKey(table, rows[n].key)|;
    }
  }

  /** The deferred query answers the direct page, and nothing else, for every limit and
      offset, exactly when the join column is a key for the listed rows. */
  lemma DeferredExact(table: seq<Row>, ordered: seq<Row>)
    requires FromTable(table, ordered)
    ensures (forall limit: nat, offset: nat, page: seq<Row> ::
               Deferred(table, ordered, limit, offset, page) <==> page == Direct(ordered, limit, offset))
      <==> KeysUnique(table, ordered)
  {
    if KeysUnique(table, ordered) {
      forall limit: nat, offset: nat, page: seq<Row>
        ensures Deferred(table, ordered, limit, offset, page) <==> page == Direct(ordered, limit, offset)
      {
        UniqueAnswer(table, Window(ordered, limit, offset), page);
      }
    } else {
      assert Window(ordered, |ordered|, 0) == ordered;
      forall joined | Ordering(table, Keys(ordered), joined) ensures Rows(joined) != ordered {
        BagGrows(table, ordered);
        assert |multiset(joined)| == |joined|;
      }
      assert !Deferred(table, ordered, |ordered|, 0, ordered);
      assert Direct(ordered, |ordered|, 0) == ordered;
    }
  }

  // -------------------------------------------------------- the sorting join

  function Named(issuers: seq<Issuer>, id: nat): seq<Issuer> {
    Keep(issuers, (i: Issuer) => i.id == id)
  }

  /** LEFT JOIN of the issuers on one row: once per issuer, or once without. */
  function JoinedRow(issuers: seq<Issuer>, r: Row): seq<(Row, Option<string>)> {
    var found := Named(issuers, r.issuer);
    if found == [] then [(r, None)] else seq(|found|, i requires 0 <= i < |found| => (r, Some(found[i].name)))
  }

  function LeftJoin(issuers: seq<Issuer>, rows: seq<Row>): seq<(Row, Option<string>)> {
    if rows == [] then [] else JoinedRow(issuers, rows[0]) + LeftJoin(issuers, rows[1..])
  }

  function Left(pairs: seq<(Row, Option<string>)>): seq<Row> {
    seq(|pairs|, i requires 0 <= i < |pairs| => pairs[i].0)
  }

  /** No row's issuer id occurs twice. */
  ghost predicate OnceEach(issuers: seq<Issuer>, rows: seq<Row>) {
    forall i :: 0 <= i < |rows| ==> |Named(issuers, rows[i].issuer)| <= 1
  }

  lemma JoinedOnce(issuers: seq<Issuer>, r: Row)
    ensures |JoinedRow(issuers, r)| >= 1 && JoinedRow(issuers, r)[0].0 == r
    ensures |JoinedRow(issuers, r)| == 1 <==> |Named(issuers, r.issuer)| <= 1
  {
  }

  lemma LeftSplits(a: seq<(Row, Option<string>)>, b: seq<(Row, Option<string>)>)
    ensures Left(a + b) == Left(a) + Left(b) && |Left(a)| == |a| && |Left(b)| == |b|
  {
  }

  lemma OnceSplits(issuers: seq<Issuer>, rows: seq<Row>)
    requires rows != []
    ensures OnceEach(issuers, rows) <==> |Named(issuers, rows[0].issuer)| <= 1 && OnceEach(issuers, rows[1..])
  {
    hide Named;
    assert forall i :: 0 < i < |rows| ==> rows[i] == rows[1..][i - 1];
  }

  /** The join that a sort by issuer name adds neither drops nor repeats a row, exactly
      when no listed row's issuer id occurs twice. */
  lemma {:induction false} SortJoinExact(issuers: seq<Issuer>, rows: seq<Row>)
    ensures |LeftJoin(issuers, rows)| >= |rows|
    ensures Left(LeftJoin(issuers, rows)) == rows <==> OnceEach(issuers, rows)
    ensures |LeftJoin(issuers, rows)| == |rows| <==> OnceEach(issuers, rows)
  {
    if rows != [] {
      var rest := rows[1..];
      SortJoinExact(issuers, rest);
      JoinedOnce(issuers, rows[0]);
      OnceSplits(issuers, rows);
      hide JoinedRow, OnceEach;
      var joined, head := LeftJoin(issuers, rest), JoinedRow(issuers, rows[0]);
      assert LeftJoin(issuers, rows) == head + joined;
      LeftSplits(head, joined);
      assert rows == [rows[0]] + rest;
      if |head| == 1 {
        assert Left(head) == [rows[0]];
      }
    }
  }

  // --------------------------------------------------------------- all pages

  function AllPages(ordered: seq<Row>, limit: nat, offset: nat): seq<Row>
    requires limit > 0
    decreases |ordered| - offset
  {
    if offset >= |ordered| then [] else Window(ordered, limit, offset) + AllPages(ordered, limit, offset + limit)
  }

  /** Pages one after the other hold every visible row once. */
  lemma {:induction false} PagesPartition(ordered: seq<Row>, limit: nat, offset: nat)
    requires limit > 0
    ensures AllPages(ordered, limit, offset) == if offset >= |ordered| then [] else ordered[offset..]
    decreases |ordered| - offset
  {
    if offset < |ordered| {
      PagesPartition(ordered, limit, offset + limit);
    }
  }

  lemma VisibleOrdered(table: seq<Row>, visible: Row -> bool, ordered: seq<Row>, r: Row)
    requires multiset(ordered) == multiset(Keep(table, visible))
    ensures FromTable(table, ordered) && (r in ordered <==> r in table && visible(r))
  {
    forall i | 0 <= i < |ordered| ensures ordered[i] in table {
      assert ordered[i] in multiset(ordered);
      KeepIn(table, visible, ordered[i]);
    }
    KeepIn(table, visible, r);
    assert r in ordered <==> r in multiset(ordered);
  }

  lemma InSomeWindow(ordered: seq<Row>, limit: nat, r: Row)
    requires limit > 0
    ensures (exists offset: nat :: r in Direct(ordered, limit, offset)) <==> r in ordered
  {
    if r in ordered {
      var i :| 0 <= i < |ordered| && ordered[i] == r;
      assert Direct(ordered, limit, i)[0] == r;
    }
  }

  /** A row is shown on some page exactly when it is a visible row of the table. */
  lemma HiddenNeverShown(table: seq<Row>, visible: Row -> bool, ordered: seq<Row>, limit: nat, r: Row)
    requires multiset(ordered) == multiset(Keep(table, visible)) && KeysUnique(table, ordered) && limit > 0
    ensures (exists offset: nat, page: seq<Row> :: Deferred(table, ordered, limit, offset, page) && r in page) <==> r in table && visible(r)
  {
    hide Deferred, KeysUnique, Keep, Direct, FromTable;
    VisibleOrdered(table, visible, ordered, r);
    DeferredExact(table, ordered);
    InSomeWindow(ordered, limit, r);
    if r in ordered {
      var offset: nat :| r in Direct(ordered, limit, offset);
      assert Deferred(table, ordered, limit, offset, Direct(ordered, limit, offset));
    }
    if offset: nat, page: seq<Row> :| Deferred(table, ordered, limit, offset, page) && r in page {
      assert page == Direct(ordered, limit, offset);
    }
  }
}
