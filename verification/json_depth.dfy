/** The nesting bound of a backup document, measured without building the tree
    (internal/transfer/backup.go). */
module JsonDepth {
  import opened Common

  // ---------------------------------------------------------------- JSON texts

  /** A piece of a string literal: a character, or a backslash and the character after it. */
  datatype Unit = Plain(c: char) | Escape(c: char)

  datatype Kind = Array | Object

  /** A JSON text with its layout. The items of an object are its keys and values in
      turn; before and after hold the white space, commas and colons around an item. */
  datatype Json = Scalar(text: string) | Text(units: seq<Unit>) | Nested(kind: Kind, pad: string, items: Items)
  datatype Items = End | Item(before: string, value: Json, after: string, rest: Items)

  /** No quote and no bracket: numbers, words, white space, commas, colons. */
  predicate Neutral(s: string) {
    forall i :: 0 <= i < |s| ==> s[i] !in ['"', '{', '}', '[', ']']
  }

  predicate WellFormed(v: Json) {
    match v
    case Scalar(text) => Neutral(text)
    case Text(units) => forall i :: 0 <= i < |units| ==> units[i].Plain? ==> units[i].c != '"' && units[i].c != '\\'
    case Nested(_, pad, items) => Neutral(pad) && ItemsWellFormed(items)
  }

  predicate ItemsWellFormed(items: Items) {
    match items
    case End => true
    case Item(before, value, after, rest) => Neutral(before) && WellFormed(value) && Neutral(after) && ItemsWellFormed(rest)
  }

  function Units(units: seq<Unit>): string {
    if units == [] then ""
    else (if units[0].Plain? then [units[0].c] else ['\\', units[0].c]) + Units(units[1..])
  }

  function Render(v: Json): string {
    match v
    case Scalar(text) => text
    case Text(units) => ['"'] + Units(units) + ['"']
    case Nested(kind, pad, items) =>
      (if kind == Array then ['['] else ['{']) + (pad + RenderItems(items)) + (if kind == Array then [']'] else ['}'])
  }

  function RenderItems(items: Items): string {
    match items
    case End => ""
    case Item(before, value, after, rest) => before + (Render(value) + (after + RenderItems(rest)))
  }

  /** How deep the arrays and objects of a text nest. */
  function Height(v: Json): nat {
    match v
    case Nested(_, _, items) => 1 + ItemsHeight(items)
    case _ => 0
  }

  function ItemsHeight(items: Items): nat {
    match items
    case End => 0
    case Item(_, value, _, rest) => Max(Height(value), ItemsHeight(rest))
  }

  // ------------------------------------------------------------------- the scan

  datatype State = State(d: int, max: int, inStr: bool, esc: bool)

  function Step(s: State, b: char): State {
    if s.esc then s.(esc := false)
    else if s.inStr && b == '\\' then s.(esc := true)
    else if b == '"' then s.(inStr := !s.inStr)
    else if s.inStr then s
    else if b == '{' || b == '[' then s.(d := s.d + 1, max := Max(s.max, s.d + 1))
    else if b == '}' || b == ']' then s.(d := s.d - 1)
    else s
  }

  function Scan(s: State, raw: string): State
    decreases raw
  {
    if raw == "" then s else Scan(Step(s, raw[0]), raw[1..])
  }

  lemma {:induction false} ScanAppend(s: State, a: string, b: string)
    ensures Scan(s, a + b) == Scan(Scan(s, a), b)
    decreases a
  {
    if a == "" {
      assert a + b == b;
    } else {
      assert (a + b)[0] == a[0] && (a + b)[1..] == a[1..] + b;
      ScanAppend(Step(s, a[0]), a[1..], b);
    }
  }

  lemma {:induction false} ScanNeutral(s: State, text: string)
    requires Neutral(text) && !s.inStr && !s.esc
    ensures Scan(s, text) == s
  {
    if text != "" {
      assert text[0] !in ['"', '{', '}', '[', ']'];
      assert Step(s, text[0]) == s;
      ScanNeutral(s, text[1..]);
    }
  }

  /** The inside of a string literal leaves the scan inside it. */
  lemma {:induction false} ScanUnits(s: State, units: seq<Unit>)
    requires s.inStr && !s.esc && WellFormed(Text(units))
    ensures Scan(s, Units(units)) == s
  {
    if units != [] {
      var head := if units[0].Plain? then [units[0].c] else ['\\', units[0].c];
      ScanAppend(s, head, Units(units[1..]));
      if units[0].Plain? {
        assert Scan(s, head) == Scan(Step(s, head[0]), head[1..]);
      } else {
        assert Scan(s, head) == Scan(Step(s, '\\'), [units[0].c]);
        assert Scan(Step(s, '\\'), [units[0].c]) == Scan(Step(Step(s, '\\'), units[0].c), "");
      }
      ScanUnits(s, units[1..]);
    }
  }

  lemma ScanOne(s: State, c: char)
    ensures Scan(s, [c]) == Step(s, c)
  {
    assert Scan(s, [c]) == Scan(Step(s, c), []);
  }

  /** A text, whatever its layout and its string contents, raises the maximum to its
      height above where it starts, and leaves the scan as it was. */
  lemma {:induction false} ScanRender(s: State, v: Json)
    requires WellFormed(v) && !s.inStr && !s.esc && s.d <= s.max
    ensures Scan(s, Render(v)) == s.(max := Max(s.max, s.d + Height(v)))
    decreases v, 0
  {
    match v
    case Scalar(text) => ScanNeutral(s, text);
    case Text(units) =>
      ScanAppend(s, ['"'] + Units(units), ['"']);
      ScanAppend(s, ['"'], Units(units));
      ScanOne(s, '"');
      var inside := s.(inStr := true);
      ScanUnits(inside, units);
      ScanOne(inside, '"');
    case Nested(kind, pad, items) =>
      var open, close := if kind == Array then '[' else '{', if kind == Array then ']' else '}';
      var inner := pad + RenderItems(items);
      assert Render(v) == [open] + inner + [close];
      ScanAppend(s, [open] + inner, [close]);
      ScanAppend(s, [open], inner);
      ScanOne(s, open);
      var below := Step(s, open);
      ScanAppend(below, pad, RenderItems(items));
      ScanNeutral(below, pad);
      ScanItems(below, items);
      ScanOne(Scan(below, inner), close);
  }

  lemma {:induction false} ScanItems(s: State, items: Items)
    requires ItemsWellFormed(items) && !s.inStr && !s.esc && s.d <= s.max
    ensures Scan(s, RenderItems(items)) == s.(max := Max(s.max, s.d + ItemsHeight(items)))
    decreases items, 0
  {
    match items
    case End =>
    case Item(before, value, after, rest) =>
      var tail := after + RenderItems(rest);
      ScanAppend(s, before, Render(value) + tail);
      ScanNeutral(s, before);
      ScanAppend(s, Render(value), tail);
      ScanRender(s, value);
      var mid := Scan(s, Render(value));
      ScanAppend(mid, after, RenderItems(rest));
      ScanNeutral(mid, after);
      ScanItems(mid, rest);
  }

  /** depth: one pass over the text. */
  method Depth(raw: string) returns (max: int)
    ensures max == Scan(START, raw).max
  {
    var d, inStr, esc := 0, false, false;
    max := 0;
    for n := 0 to |raw|
      invariant Scan(START, raw) == Scan(State(d, max, inStr, esc), raw[n..])
    {
      var b := raw[n];
      assert raw[n..][0] == b && raw[n..][1..] == raw[n + 1..];
      if esc {
        esc := false;
      } else if inStr && b == '\\' {
        esc := true;
      } else if b == '"' {
        inStr := !inStr;
      } else if inStr {
      } else if b == '{' || b == '[' {
        d := d + 1;
        if d > max {
          max := d;
        }
      } else if b == '}' || b == ']' {
        d := d - 1;
      }
    }
    assert raw[|raw|..] == "";
  }

  const START := State(0, 0, false, false)
  const MAX_DEPTH := 12

  /** The measured depth of every JSON text, whatever its layout, is how deep it nests; so
      exactly the texts that nest no deeper than the bound are within it. */
  lemma DepthExact(before: string, v: Json, after: string)
    requires WellFormed(v) && Neutral(before) && Neutral(after)
    ensures Scan(START, before + (Render(v) + after)).max == Height(v)
    ensures Scan(START, before + (Render(v) + after)).max > MAX_DEPTH <==> Height(v) > 12
  {
    ScanAppend(START, before, Render(v) + after);
    ScanNeutral(START, before);
    ScanAppend(START, Render(v), after);
    ScanRender(START, v);
    ScanNeutral(Scan(START, Render(v)), after);
  }
}
