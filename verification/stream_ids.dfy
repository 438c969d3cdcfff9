/** Stream ids: their order, their textual form and the recipients of an entry
    (internal/stream/client.go, internal/stream/hub.go). */
module StreamIds {
  import opened Common

  /** A stream id: milliseconds and a sequence number. */
  datatype Id = Id(ms: int, num: int)

  predicate Less(a: Id, b: Id) {
    if a.ms != b.ms then a.ms < b.ms else a.num < b.num
  }

  // ---------------------------------------------------------------- text form

  const MAX_INT64 := 0x7fff_ffff_ffff_ffff
  const MAX_UINT64 := 0xffff_ffff_ffff_ffff

  predicate IsInt64(n: int) {
    -MAX_INT64 - 1 <= n <= MAX_INT64
  }

  function DigitChar(d: int): (c: char)
    requires 0 <= d < 10
  {
    (d + '0' as int) as char
  }

  predicate IsDigit(c: char) {
    '0' <= c <= '9'
  }

  function DigitValue(c: char): int
    requires IsDigit(c)
  {
    c as int - '0' as int
  }

  function Decimal(n: nat): (s: string)
    ensures s != "" && forall i :: 0 <= i < |s| ==> IsDigit(s[i])
  {
    if n < 10 then [DigitChar(n)] else Decimal(n / 10) + [DigitChar(n % 10)]
  }

  /** strconv.FormatInt in base 10. */
  function FormatInt(n: int): string {
    if n < 0 then "-" + Decimal(-n) else Decimal(n)
  }

  datatype Number = Number(value: int, ok: bool)

  /** strconv.ParseUint over the remaining digits: a bad character yields 0, an
      overflow yields the largest value, both with an error. */
  function ParseUint(s: string, n: nat): Number {
    if s == "" then Number(n, true)
    else if !IsDigit(s[0]) then Number(0, false)
    else if n * 10 + DigitValue(s[0]) > MAX_UINT64 then Number(MAX_UINT64, false)
    else ParseUint(s[1..], n * 10 + DigitValue(s[0]))
  }

  /** strconv.ParseInt in base 10: an optional sign, then digits within 64 bits. */
  function ParseInt(s: string): Number {
    var neg := s != "" && s[0] == '-';
    var rest := if s != "" && (s[0] == '+' || s[0] == '-') then s[1..] else s;
    if rest == "" then Number(0, false)
    else
      var u := ParseUint(rest, 0);
      if !u.ok && u.value == 0 then Number(0, false)
      else if !neg && u.value > MAX_INT64 then Number(MAX_INT64, false)
      else if neg && u.value > MAX_INT64 + 1 then Number(-MAX_INT64 - 1, false)
      else Number(if neg then -u.value else u.value, u.ok)
  }

  /** Position of the first occurrence of c, or |s|. */
  function IndexOf(s: string, c: char): (i: nat)
    ensures i <= |s| && (i < |s| ==> s[i] == c)
    ensures forall j :: 0 <= j < i ==> s[j] != c
  {
    if s == "" || s[0] == c then 0 else 1 + IndexOf(s[1..], c)
  }

  /** ID: the text of a stream id. */
  function FormatId(id: Id): string {
    FormatInt(id.ms) + "-" + FormatInt(id.num)
  }

  datatype ParsedId = ParsedId(id: Id, ok: bool)

  /** ParseID: both parts around the first dash. */
  function ParseId(s: string): ParsedId {
    var i := IndexOf(s, '-');
    if i == |s| then ParsedId(Id(0, 0), false)
    else
      var ms, num := ParseInt(s[..i]), ParseInt(s[i + 1..]);
      ParsedId(Id(ms.value, num.value), ms.ok && num.ok)
  }

  /** Less on the text of ids, which ignores parse failures. */
  predicate TextLess(a: string, b: string) {
    Less(ParseId(a).id, ParseId(b).id)
  }

  lemma {:induction false} ParseDecimal(n: nat, rest: string)
    requires n <= MAX_UINT64
    ensures ParseUint(Decimal(n) + rest, 0) == ParseUint(rest, n)
  {
    if n < 10 {
      assert (Decimal(n) + rest)[1..] == rest;
    } else {
      var tail := [DigitChar(n % 10)] + rest;
      assert Decimal(n) + rest == Decimal(n / 10) + tail;
      ParseDecimal(n / 10, tail);
      assert tail[1..] == rest;
    }
  }

  lemma ParseFormatInt(n: int)
    requires IsInt64(n)
    ensures ParseInt(FormatInt(n)) == Number(n, true)
  {
    var d := Decimal(if n < 0 then -n else n);
    ParseDecimal(if n < 0 then -n else n, "");
    assert d + "" == d;
    if n < 0 {
      assert FormatInt(n)[1..] == d;
    }
  }

  lemma FirstDash(id: Id)
    requires id.ms >= 0
    ensures IndexOf(FormatId(id), '-') == |FormatInt(id.ms)|
  {
    var s := FormatId(id);
    var k := |FormatInt(id.ms)|;
    assert s[k] == '-';
    assert forall j :: 0 <= j < k ==> s[j] == FormatInt(id.ms)[j];
  }

  /** The text form round-trips exactly for times at or after the epoch: the
      minus sign of an earlier time is taken for the separator. */
  lemma FormatParse(id: Id)
    requires IsInt64(id.ms) && IsInt64(id.num)
    ensures ParseId(FormatId(id)).ok <==> id.ms >= 0
    ensures id.ms >= 0 ==> ParseId(FormatId(id)).id == id
  {
    var s := FormatId(id);
    if id.ms >= 0 {
      FirstDash(id);
      var k := |FormatInt(id.ms)|;
      assert s[..k] == FormatInt(id.ms);
      assert s[k + 1..] == FormatInt(id.num);
      ParseFormatInt(id.ms);
      ParseFormatInt(id.num);
    } else {
      assert s[0] == '-';
      assert IndexOf(s, '-') == 0;
      assert s[..0] == "";
    }
  }

  /** On the ids the log hands out, comparing texts compares ids. */
  lemma TextOrder(a: Id, b: Id)
    requires IsInt64(a.ms) && IsInt64(a.num) && IsInt64(b.ms) && IsInt64(b.num)
    requires a.ms >= 0 && b.ms >= 0
    ensures TextLess(FormatId(a), FormatId(b)) <==> Less(a, b)
    ensures FormatId(a) == FormatId(b) ==> a == b
  {
    FormatParse(a);
    FormatParse(b);
  }

  // ---------------------------------------------------------- malformed texts

  /** The text without a leading sign. */
  function Unsigned(s: string): string {
    if s != "" && s[0] in ['+', '-'] then s[1..] else s
  }

  ghost predicate Digits(s: string) {
    forall i :: 0 <= i < |s| ==> '0' <= s[i] <= '9'
  }

  /** The number that digits write, least digit last. */
  ghost function Value(s: string): nat
    requires Digits(s)
  {
    if s == "" then 0 else Value(s[..|s| - 1]) * 10 + (s[|s| - 1] as int - '0' as int)
  }

  ghost function Power(n: nat): nat {
    if n == 0 then 1 else 10 * Power(n - 1)
  }

  lemma PowerPositive(n: nat)
    ensures Power(n) >= 1
  {
  }

  lemma ShiftHead(d: int, p: int, v: int, x: int)
    ensures (d * p + v) * 10 + x == d * (10 * p) + (v * 10 + x)
  {
  }

  lemma TakeDigit(n: int, d: int, p: int)
    ensures n * (10 * p) + d * p == (n * 10 + d) * p
  {
  }

  lemma {:induction false} ValueHead(s: string)
    requires Digits(s) && s != ""
    ensures Value(s) == (s[0] as int - '0' as int) * Power(|s| - 1) + Value(s[1..])
  {
    var n := |s| - 1;
    if n > 0 {
      var d, v, x := s[0] as int - '0' as int, Value(s[..n][1..]), s[n] as int - '0' as int;
      ValueHead(s[..n]);
      assert s[..n][1..] == s[1..][..n - 1] && s[1..][n - 1] == s[n];
      assert Value(s[1..]) == v * 10 + x;
      ShiftHead(d, Power(n - 1), v, x);
    } else {
      assert s[..0] == "" && s[1..] == "";
    }
  }

  lemma AtLeast(a: nat, b: nat, p: nat)
    requires a > b && p >= 1
    ensures a * p > b
  {
    assert a * p >= a * 1;
  }

  /** Digits read from n on: the number they write, or too large a one. */
  lemma {:induction false} ParseDigits(s: string, n: nat)
    requires Digits(s) && n <= MAX_UINT64
    ensures var total := n * Power(|s|) + Value(s);
      ParseUint(s, n) == if total <= MAX_UINT64 then Number(total, true) else Number(MAX_UINT64, false)
  {
    if s != "" {
      var d := s[0] as int - '0' as int;
      var m := n * 10 + d;
      ValueHead(s);
      PowerPositive(|s| - 1);
      TakeDigit(n, d, Power(|s| - 1));
      assert n * Power(|s|) + Value(s) == m * Power(|s| - 1) + Value(s[1..]);
      if m <= MAX_UINT64 {
        ParseDigits(s[1..], m);
      } else {
        AtLeast(m, MAX_UINT64, Power(|s| - 1));
      }
    }
  }

  lemma {:induction false} ParseOther(s: string, n: nat)
    requires !Digits(s)
    ensures !ParseUint(s, n).ok
  {
    if IsDigit(s[0]) && n * 10 + DigitValue(s[0]) <= MAX_UINT64 {
      assert exists i :: 0 <= i < |s[1..]| && !('0' <= s[1..][i] <= '9') by {
        var i :| 0 <= i < |s| && !('0' <= s[i] <= '9');
        assert s[1..][i - 1] == s[i];
      }
      ParseOther(s[1..], n * 10 + DigitValue(s[0]));
    }
  }

  /** A text is a number exactly when it is digits behind at most one sign, within 64 bits,
      and then it is the number the digits write. */
  lemma ParseIntExact(s: string)
    ensures ParseInt(s).ok <==>
      && Unsigned(s) != "" && Digits(Unsigned(s))
      && Value(Unsigned(s)) <= if s[0] == '-' then 0x8000_0000_0000_0000 else 0x7fff_ffff_ffff_ffff
    ensures ParseInt(s).ok ==> ParseInt(s).value == Value(Unsigned(s)) * if s[0] == '-' then -1 else 1
  {
    var rest := Unsigned(s);
    if Digits(rest) {
      ParseDigits(rest, 0);
    } else {
      ParseOther(rest, 0);
    }
  }

  /** An id is read around its first dash, and a text without one is none. */
  lemma ParseIdExact(a: string, b: string)
    requires !Contains(a, '-')
    ensures !ParseId(a).ok
    ensures ParseId(a + "-" + b) == ParsedId(Id(ParseInt(a).value, ParseInt(b).value), ParseInt(a).ok && ParseInt(b).ok)
  {
    var s := a + "-" + b;
    assert s[|a|] == '-' && s[..|a|] == a && s[|a| + 1..] == b;
    assert forall j :: 0 <= j < |a| ==> s[j] == a[j];
  }

  // --------------------------------------------------------------- recipients

  /** strings.Split on a one-character separator. */
  function Split(s: string, sep: char): (parts: seq<string>)
    ensures parts != []
    decreases |s|
  {
    var i := IndexOf(s, sep);
    if i == |s| then [s] else [s[..i]] + Split(s[i + 1..], sep)
  }

  /** strings.Join with a one-character separator. */
  function Join(parts: seq<string>, sep: char): string {
    if parts == [] then ""
    else if |parts| == 1 then parts[0]
    else parts[0] + [sep] + Join(parts[1..], sep)
  }

  predicate Contains(s: string, c: char) {
    exists i :: 0 <= i < |s| && s[i] == c
  }

  lemma SplitFirst(p: string, rest: string, sep: char)
    requires !Contains(p, sep)
    ensures Split(p + [sep] + rest, sep) == [p] + Split(rest, sep)
  {
    var s := p + [sep] + rest;
    assert s[|p|] == sep && s[..|p|] == p && s[|p| + 1..] == rest;
    assert forall j :: 0 <= j < |p| ==> s[j] == p[j];
    assert IndexOf(s, sep) == |p|;
  }

  lemma SplitLast(p: string, sep: char)
    requires !Contains(p, sep)
    ensures Split(p, sep) == [p]
  {
    assert IndexOf(p, sep) == |p|;
  }

  lemma {:induction false} SplitJoin(parts: seq<string>, sep: char)
    requires parts != [] && forall p :: p in parts ==> !Contains(p, sep)
    ensures Split(Join(parts, sep), sep) == parts
  {
    hide Split, Contains;
    var p := parts[0];
    if |parts| == 1 {
      SplitLast(p, sep);
      assert parts == [p];
    } else {
      SplitFirst(p, Join(parts[1..], sep), sep);
      SplitJoin(parts[1..], sep);
      assert [p] + parts[1..] == parts;
    }
  }

  /** targets: whether the recipients text of an entry includes the user. */
  predicate Targets(to: string, user: string) {
    to == "*" || user in Split(to, ',')
  }

  /** The recipients PublishID accepts: 1 to 1000 ids, none empty and none with a
      separator. */
  const MAX_TARGETS := 1000

  predicate ValidRecipients(to: seq<string>) {
    0 < |to| <= MAX_TARGETS &&
    forall u :: u in to ==> Addressable(u)
  }

  /** A published recipient list reaches exactly its members, except the one-user
      list ["*"], whose text is the broadcast mark. */
  lemma RecipientsExact(to: seq<string>)
    requires ValidRecipients(to)
    ensures (forall user :: Targets(Join(to, ','), user) <==> user in to) <==> to != ["*"]
  {
    SplitJoin(to, ',');
    if to == ["*"] {
      assert Targets(Join(to, ','), "a") && "a" !in to;
    }
  }

  predicate Addressable(u: string) {
    u != "" && !Contains(u, ',') && !Contains(u, ' ') && !Contains(u, '\n')
  }

  /** The recipients part of PublishID: everybody, or one to a thousand users, none empty
      and none with a comma, a space or a newline; anything else is refused. The text it
      publishes reaches everybody, or exactly the given users unless that is the one
      user "*". */
  method PublishTo(to: seq<string>, all: bool) returns (text: Option<string>)
    ensures text.Some? <==>
      if all then to == [] else 1 <= |to| <= 1000 && forall i :: 0 <= i < |to| ==> to[i] != "" && Plain(to[i])
    ensures all && text.Some? ==> forall user :: Targets(text.value, user)
    ensures !all && text.Some? && to != ["*"] ==> forall user :: Targets(text.value, user) <==> user in to
  {
    if all == (|to| > 0) || |to| > MAX_TARGETS {
      return None;
    }
    if all {
      return Some("*");
    }
    for n := 0 to |to|
      invariant forall i :: 0 <= i < n ==> Addressable(to[i])
    {
      if !Addressable(to[n]) {
        return None;
      }
    }
    assert ValidRecipients(to) by {
      forall u | u in to ensures Addressable(u) {
        var i :| 0 <= i < |to| && to[i] == u;
      }
    }
    RecipientsExact(to);
    return Some(Join(to, ','));
  }

  /** No comma, space or newline. */
  ghost predicate Plain(u: string) {
    forall i :: 0 <= i < |u| ==> u[i] !in [',', ' ', '\n']
  }
}
