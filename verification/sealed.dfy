/** Settings with credential fields: what clients see, what an update keeps
    (internal/sealed/sealed.go). */
module Sealed {

  /** A JSON value: a text, or anything else. */
  datatype Value = Text(text: string) | Other(code: nat)

  type Settings = map<string, Value>

  const MARKER := Text("__set__")

  /** A field that holds something: a text that is not empty. */
  predicate Filled(v: Value) {
    v.Text? && v.text != ""
  }

  function Redacted(s: Settings, secret: set<string>): Settings {
    map k | k in s && (k in secret ==> Filled(s[k])) :: if k in secret then MARKER else s[k]
  }

  function PublicPart(s: Settings, secret: set<string>): Settings {
    map k | k in s && k !in secret :: s[k]
  }

  /** The credential fields that are present and no empty text. */
  function Credentials(s: Settings, secret: set<string>): Settings {
    map k | k in s && k in secret && s[k] != Text("") :: s[k]
  }

  /** The update keeps the stored value of a credential field. */
  predicate KeepsStored(incoming: Settings, k: string) {
    k !in incoming || incoming[k] == MARKER
  }

  function Merged(stored: Settings, incoming: Settings, secret: set<string>): Settings {
    map k | k in stored.Keys + incoming.Keys
      && (if k !in secret then k in incoming
          else if KeepsStored(incoming, k) then k in stored
          else Filled(incoming[k]))
      :: if k in secret && KeepsStored(incoming, k) then stored[k] else incoming[k]
  }

  ghost function AsSet(fields: seq<string>): set<string> {
    set f | f in fields
  }

  method Redact(s: Settings, secretFields: seq<string>) returns (out: Settings)
    ensures out == Redacted(s, AsSet(secretFields))
  {
    out := s;
    for n := 0 to |secretFields|
      invariant out == Redacted(s, AsSet(secretFields[..n]))
    {
      var f := secretFields[n];
      assert AsSet(secretFields[..n + 1]) == AsSet(secretFields[..n]) + {f};
      if f in out {
        if Filled(out[f]) {
          out := out[f := MARKER];
        } else {
          out := out - {f};
        }
      }
    }
    assert secretFields[..|secretFields|] == secretFields;
  }

  method Public(s: Settings, secretFields: seq<string>) returns (out: Settings)
    ensures out == PublicPart(s, AsSet(secretFields))
  {
    out := s;
    for n := 0 to |secretFields|
      invariant out == PublicPart(s, AsSet(secretFields[..n]))
    {
      assert AsSet(secretFields[..n + 1]) == AsSet(secretFields[..n]) + {secretFields[n]};
      out := out - {secretFields[n]};
    }
    assert secretFields[..|secretFields|] == secretFields;
  }

  method OnlyFields(s: Settings, fields: seq<string>) returns (out: Settings)
    ensures out == Credentials(s, AsSet(fields))
  {
    out := map[];
    for n := 0 to |fields|
      invariant out == Credentials(s, AsSet(fields[..n]))
    {
      var f := fields[n];
      assert AsSet(fields[..n + 1]) == AsSet(fields[..n]) + {f};
      if f in s && s[f] != Text("") {
        out := out[f := s[f]];
      }
    }
    assert fields[..|fields|] == fields;
  }

  /** One credential field of an update. */
  function MergeField(out: Settings, stored: Settings, incoming: Settings, f: string): Settings {
    if KeepsStored(incoming, f) then (if f in stored then out[f := stored[f]] else out - {f})
    else if Filled(incoming[f]) then out
    else out - {f}
  }

  lemma MergedStep(stored: Settings, incoming: Settings, secret: set<string>, f: string)
    ensures Merged(stored, incoming, secret + {f}) == MergeField(Merged(stored, incoming, secret), stored, incoming, f)
  {
    var before, after := Merged(stored, incoming, secret), Merged(stored, incoming, secret + {f});
    assert forall k :: k != f ==> (k in before <==> k in after);
  }

  /** An update field by field: what is no credential is as sent; a filled credential other
      than the marker replaces the stored one; an empty one, or one that is no text, is
      cleared; an absent one and the marker leave exactly what was stored. */
  lemma MergedField(stored: Settings, incoming: Settings, secret: set<string>, k: string)
    ensures var out := Merged(stored, incoming, secret);
      && (k !in secret ==> (k in out <==> k in incoming) && (k in incoming ==> out[k] == incoming[k]))
      && (k in secret && k in incoming && incoming[k].Text? && incoming[k].text !in {"", "__set__"} ==> k in out && out[k] == incoming[k])
      && (k in secret && k in incoming && (incoming[k].Other? || incoming[k].text == "") ==> k !in out)
      && (k in secret && (k !in incoming || incoming[k] == Text("__set__")) ==>
            (k in out <==> k in stored) && (k in stored ==> out[k] == stored[k]))
  {
  }

  method Merge(stored: Settings, incoming: Settings, secretFields: seq<string>) returns (out: Settings)
    ensures out == Merged(stored, incoming, AsSet(secretFields))
    ensures forall f :: f in secretFields && f in incoming && incoming[f].Text? && incoming[f].text !in {"", "__set__"} ==>
      f in out && out[f] == incoming[f]
  {
    forall f | f in secretFields ensures f in AsSet(secretFields) {
    }
    forall f {
      MergedField(stored, incoming, AsSet(secretFields), f);
    }
    out := incoming;
    assert incoming == Merged(stored, incoming, {});
    assert AsSet(secretFields[..0]) == {};
    hide Merged;
    for n := 0 to |secretFields|
      invariant out == Merged(stored, incoming, AsSet(secretFields[..n]))
    {
      var f := secretFields[n];
      assert AsSet(secretFields[..n + 1]) == AsSet(secretFields[..n]) + {f};
      MergedStep(stored, incoming, AsSet(secretFields[..n]), f);
      if f !in incoming || incoming[f] == MARKER {
        if f in stored {
          out := out[f := stored[f]];
        } else {
          out := out - {f};
        }
      } else if !Filled(incoming[f]) {
        out := out - {f};
      }
    }
    assert secretFields[..|secretFields|] == secretFields;
  }

  /** Sending back what a client was shown changes nothing, whatever is stored. */
  lemma RedactThenMerge(stored: Settings, secret: set<string>)
    ensures Merged(stored, Redacted(stored, secret), secret) == stored
    ensures Merged(stored, PublicPart(stored, secret), secret) == stored
  {
  }

  /** What a client is shown, field by field: a filled credential as the marker, any other
      credential not at all, the rest as stored. What is public holds no credential field,
      and what is kept as credentials is every one that is no empty text. */
  lemma ShownField(s: Settings, secret: set<string>, k: string)
    ensures k in Redacted(s, secret) <==> k in s && (k in secret ==> s[k].Text? && s[k].text != "")
    ensures k in Redacted(s, secret) ==> Redacted(s, secret)[k] == if k in secret then Text("__set__") else s[k]
    ensures k in PublicPart(s, secret) <==> k in s && k !in secret
    ensures k in Credentials(s, secret) <==> k in s && k in secret && s[k] != Text("")
    ensures k in PublicPart(s, secret) ==> PublicPart(s, secret)[k] == s[k]
    ensures k in Credentials(s, secret) ==> Credentials(s, secret)[k] == s[k]
  {
  }

  /** What a client is shown holds no credential: a credential field is the marker or
      absent, so stores that differ only in filled credentials look the same. */
  lemma NothingShown(a: Settings, b: Settings, secret: set<string>)
    requires PublicPart(a, secret) == PublicPart(b, secret)
    requires forall k :: k in secret ==> ((k in a && Filled(a[k])) <==> (k in b && Filled(b[k])))
    ensures Redacted(a, secret) == Redacted(b, secret)
  {
    forall k | k !in secret ensures (k in a <==> k in b) && (k in a ==> a[k] == b[k]) {
      assert k in PublicPart(a, secret) <==> k in PublicPart(b, secret);
      assert k in a ==> PublicPart(a, secret)[k] == a[k];
      assert k in b ==> PublicPart(b, secret)[k] == b[k];
    }
  }

  /** Settings split into their public part and their credentials join to themselves,
      exactly when no credential field holds the empty text. */
  lemma SplitJoin(s: Settings, secret: set<string>)
    ensures PublicPart(s, secret) + Credentials(s, secret) == s <==> forall k :: k in s && k in secret ==> s[k] != Text("")
  {
    var joined := PublicPart(s, secret) + Credentials(s, secret);
    if forall k :: k in s && k in secret ==> s[k] != Text("") {
      assert joined == s;
    } else {
      var k :| k in s && k in secret && s[k] == Text("");
      assert k !in joined;
    }
  }

  /** What a restored issuer shows and opens to: the public part and the credentials it
      was joined from. */
  lemma JoinSplits(public: Settings, credentials: Settings, secret: set<string>)
    requires forall k :: k in public ==> k !in secret
    requires forall k :: k in credentials ==> k in secret && credentials[k] != Text("")
    ensures PublicPart(Redacted(public + credentials, secret), secret) == public
    ensures Credentials(public + credentials, secret) == credentials
  {
  }
}
