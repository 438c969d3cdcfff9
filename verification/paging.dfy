/** Cursor listings: pages cut from a sorted table behind a readability filter, and the
    walk that follows each page's cursor (internal/issue/certificates.go,
    internal/issue/issuers.go, internal/memstore/memstore.go, internal/transfer/backup.go). */
module Paging {

  function Keep<T>(s: seq<T>, p: T -> bool): seq<T> {
    if s == [] then [] else (if p(s[0]) then [s[0]] else []) + Keep(s[1..], p)
  }

  function Take<T>(s: seq<T>, n: nat): seq<T> {
    if |s| <= n then s else s[..n]
  }

  /** As SQL LIMIT: nothing for a limit that is not positive. */
  function SqlLimit<T>(s: seq<T>, limit: int): seq<T> {
    if limit <= 0 then [] else Take(s, limit)
  }

  lemma {:induction false} KeepSplit<T>(a: seq<T>, b: seq<T>, p: T -> bool)
    ensures Keep(a + b, p) == Keep(a, p) + Keep(b, p)
  {
    if a == [] {
      assert a + b == b;
    } else {
      KeepSplit(a[1..], b, p);
      assert (a + b)[0] == a[0] && (a + b)[1..] == a[1..] + b;
      var head := if p(a[0]) then [a[0]] else [];
      assert head + (Keep(a[1..], p) + Keep(b, p)) == (head + Keep(a[1..], p)) + Keep(b, p);
    }
  }

  lemma {:induction false} KeepIn<T>(s: seq<T>, p: T -> bool, x: T)
    ensures x in Keep(s, p) <==> x in s && p(x)
  {
    if s != [] {
      KeepIn(s[1..], p, x);
    }
  }

  lemma {:induction false} KeepAll<T>(s: seq<T>, p: T -> bool)
    requires forall i :: 0 <= i < |s| ==> p(s[i])
    ensures Keep(s, p) == s
  {
    if s != [] {
      KeepAll(s[1..], p);
      assert s == [s[0]] + s[1..];
    }
  }

  lemma {:induction false} KeepNone<T>(s: seq<T>, p: T -> bool)
    requires forall i :: 0 <= i < |s| ==> !p(s[i])
    ensures Keep(s, p) == []
  {
    if s != [] {
      KeepNone(s[1..], p);
    }
  }

  /** A filter that starts to hold at k keeps the rest from k on. */
  lemma KeepSuffix<T>(s: seq<T>, p: T -> bool, k: nat)
    requires k <= |s| && (forall i :: 0 <= i < k ==> !p(s[i])) && (forall i :: k <= i < |s| ==> p(s[i]))
    ensures Keep(s, p) == s[k..]
  {
    assert s == s[..k] + s[k..];
    KeepSplit(s[..k], s[k..], p);
    KeepNone(s[..k], p);
    KeepAll(s[k..], p);
  }

  lemma KeepNext<T>(s: seq<T>, p: T -> bool, from: nat, at: nat)
    requires from <= at < |s|
    ensures Keep(s[from..at + 1], p) == Keep(s[from..at], p) + (if p(s[at]) then [s[at]] else [])
  {
    assert s[from..at + 1] == s[from..at] + [s[at]];
    KeepSplit(s[from..at], [s[at]], p);
    assert Keep([s[at]], p) == if p(s[at]) then [s[at]] else [];
  }

  /** Where a page of n visible rows that starts at `at` ends. */
  function Cut<T>(s: seq<T>, p: T -> bool, at: nat, n: nat): (to: nat)
    requires at <= |s|
    ensures at <= to <= |s|
    decreases |s| - at
  {
    if at == |s| || n == 0 then at
    else Cut(s, p, at + 1, if p(s[at]) then n - 1 else n)
  }

  lemma KeepHead<T>(s: seq<T>, p: T -> bool, at: nat, to: nat)
    requires at < to <= |s|
    ensures Keep(s[at..to], p) == (if p(s[at]) then [s[at]] else []) + Keep(s[at + 1..to], p)
  {
    assert s[at..to][1..] == s[at + 1..to];
  }

  /** What a page cut at n visible rows holds, and the row it ends with. */
  ghost predicate CutAt<T>(s: seq<T>, p: T -> bool, at: nat, n: nat, to: nat)
    requires at <= to <= |s|
  {
    && Keep(s[at..to], p) == Take(Keep(s[at..|s|], p), n)
    && (|Keep(s[at..to], p)| < n ==> to == |s|)
    && (|Keep(s[at..|s|], p)| >= n > 0 ==> to > at && p(s[to - 1]) && Keep(s[at..|s|], p)[n - 1] == s[to - 1])
  }

  lemma CutAtHead<T>(s: seq<T>, p: T -> bool, at: nat, n: nat, to: nat)
    requires at < to <= |s| && n > 0 && CutAt(s, p, at + 1, if p(s[at]) then n - 1 else n, to)
    requires p(s[at]) && n == 1 ==> to == at + 1
    ensures CutAt(s, p, at, n, to)
  {
    KeepHead(s, p, at, to);
    KeepHead(s, p, at, |s|);
    hide Keep;
  }

  lemma {:induction false} CutIsAt<T>(s: seq<T>, p: T -> bool, at: nat, n: nat)
    requires at <= |s|
    ensures CutAt(s, p, at, n, Cut(s, p, at, n))
    decreases |s| - at
  {
    if at < |s| && n > 0 {
      var m := if p(s[at]) then n - 1 else n;
      CutIsAt(s, p, at + 1, m);
      CutAtHead(s, p, at, n, Cut(s, p, at, n));
    }
  }

  lemma CutTakes<T>(s: seq<T>, p: T -> bool, at: nat, n: nat)
    requires at <= |s|
    ensures Keep(s[at..Cut(s, p, at, n)], p) == Take(Keep(s[at..], p), n)
    ensures |Keep(s[at..Cut(s, p, at, n)], p)| < n ==> Cut(s, p, at, n) == |s|
    ensures |Keep(s[at..], p)| >= n > 0 ==> Cut(s, p, at, n) > at && p(s[Cut(s, p, at, n) - 1])
    ensures |Keep(s[at..], p)| >= n > 0 ==> Keep(s[at..], p)[n - 1] == s[Cut(s, p, at, n) - 1]
  {
    hide Keep, Cut;
    CutIsAt(s, p, at, n);
    assert s[at..] == s[at..|s|];
  }

  /** after(row) is what the store lists after a row sent back as the cursor. */
  ghost predicate Resumes<T>(rows: seq<T>, after: T -> seq<T>) {
    forall k :: 0 <= k < |rows| ==> after(rows[k]) == rows[k + 1..]
  }

  /** From a suffix of the rows, a full page's last row resumes just behind it. */
  lemma NextFrom<T>(rows: seq<T>, p: T -> bool, after: T -> seq<T>, at: nat, n: nat) returns (to: nat)
    requires Resumes(rows, after) && at <= |rows| && n > 0 && |Keep(rows[at..], p)| >= n
    ensures at < to <= |rows| && after(Keep(rows[at..], p)[n - 1]) == rows[to..]
    ensures Keep(rows[at..to], p) == Take(Keep(rows[at..], p), n)
  {
    hide Keep, Cut;
    to := Cut(rows, p, at, n);
    CutTakes(rows, p, at, n);
  }

  /** What a client collects by sending each full page's last row back as the cursor,
      until a page is not full. */
  ghost function Follow<T>(rows: seq<T>, p: T -> bool, after: T -> seq<T>, at: nat, n: nat): seq<T>
    requires Resumes(rows, after) && at <= |rows| && n > 0
    decreases |rows| - at
  {
    var visible := Keep(rows[at..], p);
    if |visible| < n then visible
    else
      assert |rows| - |after(visible[n - 1])| > at by {
        var to := NextFrom(rows, p, after, at, n);
      }
      Take(visible, n) + Follow(rows, p, after, |rows| - |after(visible[n - 1])|, n)
  }

  /** The client gets every visible row once, in the table's order, whatever the page
      size, and stops. */
  lemma {:induction false} FollowComplete<T>(rows: seq<T>, p: T -> bool, after: T -> seq<T>, at: nat, n: nat)
    requires Resumes(rows, after) && at <= |rows| && n > 0
    ensures Follow(rows, p, after, at, n) == Keep(rows[at..], p)
    decreases |rows| - at
  {
    hide Keep;
    var visible := Keep(rows[at..], p);
    if |visible| >= n {
      var to := NextFrom(rows, p, after, at, n);
      FollowComplete(rows, p, after, to, n);
      assert rows[at..] == rows[at..to] + rows[to..];
      KeepSplit(rows[at..to], rows[to..], p);
    }
  }

  lemma KeepMore<T>(rows: seq<T>, p: T -> bool, start: nat, at: nat, read: nat)
    requires start <= at && at + read <= |rows|
    ensures Keep(rows[start..at + read], p) == Keep(rows[start..at], p) + Keep(rows[at..][..read], p)
  {
    assert rows[start..at + read] == rows[start..at] + rows[at..][..read];
    KeepSplit(rows[start..at], rows[at..][..read], p);
  }

  /** Rows read up to a full page, or to the end, hold the page. */
  lemma PageIsTake<T>(rows: seq<T>, p: T -> bool, start: nat, at: nat, n: nat)
    requires start <= at <= |rows| && |Keep(rows[start..at], p)| <= n
    requires |Keep(rows[start..at], p)| == n || at == |rows|
    ensures Keep(rows[start..at], p) == Take(Keep(rows[start..], p), n)
  {
    assert rows[start..] == rows[start..at] + rows[at..];
    KeepSplit(rows[start..at], rows[at..], p);
  }

  lemma KeepEmpty<T>(rows: seq<T>, p: T -> bool, at: nat)
    requires at <= |rows|
    ensures Keep(rows[at..at], p) == []
  {
  }

  /** The inner loop over the rows fetched from the store: stops at a full page. */
  method Collect<T>(fetched: seq<T>, p: T -> bool, before: seq<T>, n: nat) returns (out: seq<T>, read: nat)
    requires |before| < n && |fetched| > 0
    ensures 0 < read <= |fetched| && out == before + Keep(fetched[..read], p) && |out| <= n
    ensures |out| == n || read == |fetched|
  {
    out, read := before, 0;
    while read < |fetched|
      invariant read <= |fetched| && |out| < n
      invariant out == before + Keep(fetched[0..read], p)
    {
      var row := fetched[read];
      KeepNext(fetched, p, 0, read);
      read := read + 1;
      if !p(row) {
        continue;
      }
      out := out + [row];
      if |out| == n {
        break;
      }
    }
    assert fetched[..read] == fetched[0..read];
  }

  function PageLimit(limit: int): nat {
    if limit <= 0 || limit > 100 then 50 else limit
  }

  /** A page holds the rows asked for between one and a hundred, else fifty. */
  lemma PageLimitIs(limit: int)
    ensures 1 <= limit <= 100 ==> PageLimit(limit) == limit
    ensures limit < 1 || limit > 100 ==> PageLimit(limit) == 50
  {
  }

  /** What a client collects when each page is cut first and filtered after, and the last
      row cut is sent back while pages are cut full. */
  ghost function FollowCut<T>(rows: seq<T>, p: T -> bool, after: T -> seq<T>, at: nat, n: nat): seq<T>
    requires Resumes(rows, after) && at <= |rows| && n > 0
    decreases |rows| - at
  {
    var page := Take(rows[at..], n);
    if |page| < n then Keep(page, p)
    else Keep(page, p) + FollowCut(rows, p, after, |rows| - |after(page[n - 1])|, n)
  }

  lemma {:induction false} FollowCutComplete<T>(rows: seq<T>, p: T -> bool, after: T -> seq<T>, at: nat, n: nat)
    requires Resumes(rows, after) && at <= |rows| && n > 0
    ensures FollowCut(rows, p, after, at, n) == Keep(rows[at..], p)
    decreases |rows| - at
  {
    hide Keep;
    var page := Take(rows[at..], n);
    if |page| >= n {
      assert page[n - 1] == rows[at + n - 1];
      FollowCutComplete(rows, p, after, at + n, n);
      assert rows[at..] == page + rows[at + n..];
      KeepSplit(page, rows[at + n..], p);
    }
  }
}
