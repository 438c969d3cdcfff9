/** The DNS names of an ACME order (internal/issue/acmerequests.go, internal/issue/acme.go).
    Lower-casing and trimming of white space is a parameter, clean. */
module AcmeDomains {
  import opened Common
  import StreamIds

  const MAX_DOMAINS := 100

  predicate LabelChar(c: char) {
    'a' <= c <= 'z' || '0' <= c <= '9' || c == '-'
  }

  /** labelProblem finds nothing. */
  predicate LabelOk(l: string) {
    && 0 < |l| <= 63 && l[0] != '-' && l[|l| - 1] != '-'
    && forall i :: 0 <= i < |l| ==> LabelChar(l[i])
  }

  predicate AlphaNumeric(c: char) {
    'a' <= c <= 'z' || '0' <= c <= '9'
  }

  /** A label is one to 63 lower-case letters, digits and hyphens that begins and ends with
      a letter or digit. */
  lemma LabelExact(l: string)
    ensures LabelOk(l) <==>
      && 1 <= |l| <= 63 && AlphaNumeric(l[0]) && AlphaNumeric(l[|l| - 1])
      && forall i :: 0 <= i < |l| ==> AlphaNumeric(l[i]) || l[i] == '-'
  {
  }

  const STAR := "*."

  /** The name without a wildcard first label. */
  function Base(d: string): string {
    if STAR <= d then d[2..] else d
  }

  /** domainProblem finds nothing. */
  predicate NameOk(d: string) {
    && |d| <= 253
    && var labels := StreamIds.Split(Base(d), '.');
      |labels| >= 2 && forall i :: 0 <= i < |labels| ==> LabelOk(labels[i])
  }

  // ---------------------------------------------------------- what a name is

  /** Two or more labels joined by dots, perhaps behind a wildcard label. */
  ghost predicate Spells(labels: seq<string>, d: string) {
    && |labels| >= 2 && (forall i :: 0 <= i < |labels| ==> LabelOk(labels[i]))
    && (d == StreamIds.Join(labels, '.') || d == STAR + StreamIds.Join(labels, '.'))
  }

  lemma JoinCons(head: string, rest: seq<string>, sep: char)
    requires rest != []
    ensures StreamIds.Join([head] + rest, sep) == head + [sep] + StreamIds.Join(rest, sep)
  {
    assert ([head] + rest)[1..] == rest;
  }

  lemma {:induction false} JoinSplit(s: string, sep: char)
    ensures StreamIds.Join(StreamIds.Split(s, sep), sep) == s
    decreases |s|
  {
    var i := StreamIds.IndexOf(s, sep);
    if i == |s| {
      assert StreamIds.Split(s, sep) == [s];
    } else {
      var rest := StreamIds.Split(s[i + 1..], sep);
      assert StreamIds.Split(s, sep) == [s[..i]] + rest;
      JoinSplit(s[i + 1..], sep);
      JoinCons(s[..i], rest, sep);
      assert s == s[..i] + [sep] + s[i + 1..];
    }
  }

  lemma LabelPlain(l: string)
    requires LabelOk(l)
    ensures !StreamIds.Contains(l, '.') && l[0] != '*'
  {
  }

  /** A name is accepted exactly when it is spelled by labels. */
  lemma NameExact(d: string)
    ensures NameOk(d) <==> |d| <= 253 && exists labels :: Spells(labels, d)
  {
    if NameOk(d) {
      var labels := StreamIds.Split(Base(d), '.');
      JoinSplit(Base(d), '.');
      assert STAR <= d ==> d == STAR + d[2..];
      assert Spells(labels, d);
    }
    if |d| <= 253 && exists labels :: Spells(labels, d) {
      var labels :| Spells(labels, d);
      SpelledSplits(labels, d);
    }
  }

  lemma SpelledSplits(labels: seq<string>, d: string)
    requires Spells(labels, d)
    ensures StreamIds.Split(Base(d), '.') == labels
  {
    var joined := StreamIds.Join(labels, '.');
    forall l | l in labels ensures !StreamIds.Contains(l, '.') {
      LabelPlain(l);
    }
    StreamIds.SplitJoin(labels, '.');
    LabelPlain(labels[0]);
    assert joined[0] == labels[0][0];
    assert Base(d) == joined by {
      if d != joined {
        assert d[2..] == joined;
      }
    }
  }

  // ------------------------------------------------------------- normalising

  /** strings.TrimSuffix with a dot. */
  function TrimDot(d: string): string {
    if d != "" && d[|d| - 1] == '.' then d[..|d| - 1] else d
  }

  /** One trailing dot goes, and nothing else. */
  lemma TrimDotIs(d: string)
    ensures TrimDot(d + ".") == d
    ensures d == "" || d[|d| - 1] != '.' ==> TrimDot(d) == d
  {
  }

  function Cleaner(clean: string -> string): string -> string {
    (d: string) => TrimDot(clean(d))
  }

  /** The names a list normalises to: in order, none empty, none twice. */
  function Names(domains: seq<string>, f: string -> string): seq<string> {
    if domains == [] then []
    else
      var before := Names(domains[..|domains| - 1], f);
      var d := f(domains[|domains| - 1]);
      if d != "" && d !in before then before + [d] else before
  }

  lemma {:induction false} NamesAre(domains: seq<string>, f: string -> string)
    ensures Distinct(Names(domains, f)) && "" !in Names(domains, f)
    ensures forall d :: d in Names(domains, f) <==> d != "" && exists i :: 0 <= i < |domains| && f(domains[i]) == d
  {
    if domains != [] {
      var n := |domains| - 1;
      NamesAre(domains[..n], f);
      forall d ensures d in Names(domains, f) <==> d != "" && exists i :: 0 <= i < |domains| && f(domains[i]) == d {
        if i :| 0 <= i < |domains| && f(domains[i]) == d {
          assert i < n ==> f(domains[..n][i]) == d;
        }
        if d in Names(domains[..n], f) {
          var i :| 0 <= i < n && f(domains[..n][i]) == d;
          assert f(domains[i]) == d;
        }
      }
    }
  }

  /** Names keep the order in which they first occur: more names only add at the end. */
  lemma {:induction false} NamesGrow(domains: seq<string>, f: string -> string, n: nat)
    requires n <= |domains|
    ensures Names(domains[..n], f) <= Names(domains, f)
    decreases |domains|
  {
    if n < |domains| {
      var m := |domains| - 1;
      NamesGrow(domains[..m], f, n);
      assert domains[..m][..n] == domains[..n];
    } else {
      assert domains[..n] == domains;
    }
  }

  /** A list without empty or repeated names that f leaves alone normalises to itself. */
  lemma {:induction false} NamesFixed(s: seq<string>, f: string -> string)
    requires Distinct(s) && forall i :: 0 <= i < |s| ==> s[i] != "" && f(s[i]) == s[i]
    ensures Names(s, f) == s
  {
    if s != [] {
      var n := |s| - 1;
      NamesFixed(s[..n], f);
      assert s[n] !in s[..n];
      assert s == s[..n] + [s[n]];
    }
  }

  /** normaliseDomains, and the first loop of validateACMEDomains. */
  method Normalise(domains: seq<string>, f: string -> string) returns (out: seq<string>, seen: set<string>)
    ensures out == Names(domains, f) && seen == set d | d in out
  {
    out, seen := [], {};
    for n := 0 to |domains|
      invariant out == Names(domains[..n], f) && seen == set d | d in out
    {
      assert domains[..n + 1][..n] == domains[..n];
      var d := f(domains[n]);
      if d != "" && d !in seen {
        seen := seen + {d};
        out := out + [d];
      }
    }
    assert domains[..|domains|] == domains;
  }

  // --------------------------------------------------------------- validating

  /** A wildcard among the names covers this one: it stands for exactly one label. */
  predicate Covered(d: string, names: set<string>) {
    var i := StreamIds.IndexOf(d, '.');
    i < |d| && !(STAR <= d) && STAR + d[i + 1..] in names
  }

  ghost predicate Acceptable(names: seq<string>) {
    && 0 < |names| <= MAX_DOMAINS
    && (forall i :: 0 <= i < |names| ==> NameOk(names[i]))
    && (forall i :: 0 <= i < |names| ==> !Covered(names[i], set d | d in names))
  }

  ghost function Validated(domains: seq<string>, clean: string -> string): Option<seq<string>> {
    var names := Names(domains, Cleaner(clean));
    if Acceptable(names) then Some(names) else None
  }

  method ValidateDomains(domains: seq<string>, clean: string -> string) returns (out: Option<seq<string>>)
    ensures out == Validated(domains, clean)
  {
    hide NameOk, Covered, Names, Cleaner;
    var names, seen := Normalise(domains, Cleaner(clean));
    if |names| == 0 || |names| > MAX_DOMAINS {
      return None;
    }
    for n := 0 to |names|
      invariant forall i :: 0 <= i < n ==> NameOk(names[i])
    {
      if !NameOk(names[n]) {
        return None;
      }
    }
    for n := 0 to |names|
      invariant forall i :: 0 <= i < n ==> !Covered(names[i], seen)
    {
      if Covered(names[n], seen) {
        return None;
      }
    }
    return Some(names);
  }

  // ------------------------------------------------------- an accepted list

  predicate Plain(c: char) {
    LabelChar(c) || c == '.' || c == '*'
  }

  /** Lower-casing and trimming leave lower-case letters, digits, hyphens, dots and stars alone. */
  ghost predicate LeavesPlain(clean: string -> string) {
    forall s: string :: (forall i :: 0 <= i < |s| ==> Plain(s[i])) ==> clean(s) == s
  }

  lemma {:induction false} JoinedPlain(labels: seq<string>)
    requires labels != [] && forall i :: 0 <= i < |labels| ==> LabelOk(labels[i])
    ensures var s := StreamIds.Join(labels, '.');
      s != "" && s[|s| - 1] != '.' && forall i :: 0 <= i < |s| ==> Plain(s[i])
  {
    if |labels| > 1 {
      JoinedPlain(labels[1..]);
    }
  }

  lemma NamePlain(d: string)
    requires NameOk(d)
    ensures d != "" && d[|d| - 1] != '.' && forall i :: 0 <= i < |d| ==> Plain(d[i])
  {
    NameExact(d);
    hide NameOk, LabelOk, LabelChar;
    var labels :| Spells(labels, d);
    JoinedPlain(labels);
    hide StreamIds.Join, Plain;
    StarPlain(StreamIds.Join(labels, '.'));
  }

  lemma StarPlain(s: string)
    requires s != "" && s[|s| - 1] != '.' && forall i :: 0 <= i < |s| ==> Plain(s[i])
    ensures var d := STAR + s; d[|d| - 1] != '.' && forall i :: 0 <= i < |d| ==> Plain(d[i])
  {
    var d := STAR + s;
    assert forall i :: 2 <= i < |d| ==> d[i] == s[i - 2];
  }

  /** An accepted list is accepted again unchanged, and is the very list a renewal orders. */
  lemma AcceptedIsFixed(domains: seq<string>, clean: string -> string)
    requires LeavesPlain(clean) && Validated(domains, clean).Some?
    ensures var names := Validated(domains, clean).value;
      Validated(names, clean) == Some(names) && Names(names, clean) == names
  {
    var names := Validated(domains, clean).value;
    hide NameOk, Covered, Names, LeavesPlain, Cleaner;
    NamesAre(domains, Cleaner(clean));
    forall i | 0 <= i < |names| ensures names[i] != "" && clean(names[i]) == names[i] && Cleaner(clean)(names[i]) == names[i] {
      PlainUnchanged(names[i], clean);
    }
    NamesFixed(names, Cleaner(clean));
    NamesFixed(names, clean);
  }

  lemma PlainUnchanged(d: string, clean: string -> string)
    requires LeavesPlain(clean) && NameOk(d)
    ensures d != "" && clean(d) == d && Cleaner(clean)(d) == d
  {
    NamePlain(d);
  }

  /** No name is one label under a wildcard of the list. */
  ghost predicate NoneUnder(names: seq<string>) {
    forall first: string, parent: string :: !StreamIds.Contains(first, '.') && first != "*" && first + "." + parent in names ==>
      STAR + parent !in names
  }

  lemma FirstLabel(d: string, i: nat)
    requires i == StreamIds.IndexOf(d, '.') < |d|
    ensures d == d[..i] + "." + d[i + 1..] && !StreamIds.Contains(d[..i], '.') && (STAR <= d <==> d[..i] == "*")
  {
    hide StreamIds.IndexOf;
    StarLabel(d, i);
    CutAtDot(d, i);
  }

  lemma CutAtDot(d: string, i: nat)
    requires i < |d| && d[i] == '.' && forall j :: 0 <= j < i ==> d[j] != '.'
    ensures d == d[..i] + "." + d[i + 1..] && !StreamIds.Contains(d[..i], '.')
  {
    assert d == d[..i] + [d[i]] + d[i + 1..];
  }

  lemma StarLabel(d: string, i: nat)
    requires i < |d| && d[i] == '.' && forall j :: 0 <= j < i ==> d[j] != '.'
    ensures STAR <= d <==> d[..i] == "*"
  {
    if STAR <= d {
      assert d[1] == STAR[1] && d[0] == STAR[0];
      assert d[..1] == "*";
    }
    if d[..i] == "*" {
      assert d[0] == d[..i][0];
    }
  }

  lemma UncoveredExact(names: seq<string>)
    ensures (forall i :: 0 <= i < |names| ==> !Covered(names[i], set d | d in names)) <==> NoneUnder(names)
  {
    if NoneUnder(names) {
      forall i | 0 <= i < |names| ensures !Covered(names[i], set d | d in names) {
        var d := names[i];
        var k := StreamIds.IndexOf(d, '.');
        if k < |d| {
          FirstLabel(d, k);
          assert d in names;
        }
      }
    } else {
      var first: string, parent: string :| !StreamIds.Contains(first, '.') && first != "*" && first + "." + parent in names && STAR + parent in names;
      var d := first + "." + parent;
      var i :| 0 <= i < |names| && names[i] == d;
      assert d[|first|] == '.' && forall k :: 0 <= k < |first| ==> d[k] == first[k];
      assert StreamIds.IndexOf(d, '.') == |first| && d[|first| + 1..] == parent && d[..|first|] == first;
      FirstLabel(d, |first|);
      assert Covered(names[i], set d | d in names);
    }
  }

  /** What acceptance means: exactly the lists are accepted that clean to one to a hundred
      names, each spelled by labels within 253 characters, none one label under a wildcard
      of the list; and what is returned holds every cleaned name that is not empty, once. */
  lemma AcceptedMeans(domains: seq<string>, clean: string -> string)
    ensures var names := Names(domains, Cleaner(clean));
      && (Validated(domains, clean).Some? <==>
            && 1 <= |names| <= 100 && (forall d :: d in names ==> |d| <= 253 && exists labels :: Spells(labels, d))
            && NoneUnder(names))
      && (Validated(domains, clean).Some? ==> Validated(domains, clean).value == names)
      && Distinct(names)
      && (forall d :: d in names <==> d != "" && exists i :: 0 <= i < |domains| && TrimDot(clean(domains[i])) == d)
  {
    hide Names, TrimDot, NoneUnder, Acceptable, Spells;
    CleanedNames(domains, clean);
    AcceptableExact(Names(domains, Cleaner(clean)));
  }

  lemma CleanedNames(domains: seq<string>, clean: string -> string)
    ensures var names := Names(domains, Cleaner(clean));
      Distinct(names) && forall d :: d in names <==> d != "" && exists i :: 0 <= i < |domains| && TrimDot(clean(domains[i])) == d
  {
    hide Names, TrimDot;
    NamesAre(domains, Cleaner(clean));
    forall i | 0 <= i < |domains| ensures Cleaner(clean)(domains[i]) == TrimDot(clean(domains[i])) {
    }
  }

  lemma AcceptableExact(names: seq<string>)
    ensures Acceptable(names) <==>
      1 <= |names| <= 100 && (forall d :: d in names ==> |d| <= 253 && exists labels :: Spells(labels, d)) && NoneUnder(names)
  {
    hide Spells, Covered, NameOk, NoneUnder;
    UncoveredExact(names);
    forall i | 0 <= i < |names| ensures NameOk(names[i]) <==> |names[i]| <= 253 && exists labels :: Spells(labels, names[i]) {
      NameExact(names[i]);
    }
    assert forall d :: d in names <==> exists i :: 0 <= i < |names| && names[i] == d;
  }
}
