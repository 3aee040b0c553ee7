/** On which payloads the template loop stops for every template, when their strings are themselves written as templates. */
module TemplateStops {
  import opened Wrappers
  import opened Strings
  import opened JsonDocument
  import opened Template
  import Chains

  /** Template text as its author reads it. */
  datatype Piece = Text(text: string) | Ref(reference: string)

  ghost function Written(t: seq<Piece>): string
    decreases |t|
  {
    if |t| == 0 then "" else WrittenPiece(t[0]) + Written(t[1..])
  }

  ghost function WrittenPiece(p: Piece): string {
    match p
    case Text(text) => text
    case Ref(reference) => "{{" + reference + "}}"
  }

  /** What each reference is replaced by, as its author reads it. */
  type Settings = string -> seq<Piece>

  /** No brace. */
  ghost predicate Dull(s: string) {
    '{' !in s && '}' !in s
  }

  ghost predicate Tidy(t: seq<Piece>) {
    forall i :: 0 <= i < |t| ==> if t[i].Text? then Dull(t[i].text) else Dull(t[i].reference)
  }

  /** `f` replaces every reference by the written form of its setting, one of the finitely many `values`. */
  ghost predicate Sets(f: Lookup, settings: Settings, values: set<seq<Piece>>) {
    && (forall p :: f(p) == Written(settings(p)) && settings(p) in values)
    && (forall t | t in values :: Tidy(t))
  }

  ghost predicate StopsOn(f: Lookup, t: string) {
    exists n: nat, r: string :: StopsWith(f, t, n, r)
  }

  /** Following the reference, one comes to an end after at most `n` values. */
  ghost predicate RefEnds(settings: Settings, reference: string, n: nat)
    decreases n, 0
  {
    n > 0 && Ends(settings, settings(reference), n - 1)
  }

  /** So does following any reference of the text. */
  ghost predicate Ends(settings: Settings, t: seq<Piece>, n: nat)
    decreases n, 1
  {
    forall i :: 0 <= i < |t| && t[i].Ref? ==> RefEnds(settings, t[i].reference, n)
  }

  lemma {:induction false} EndsMore(settings: Settings, t: seq<Piece>, n: nat)
    requires Ends(settings, t, n)
    ensures Ends(settings, t, n + 1)
    decreases n
  {
    forall i | 0 <= i < |t| && t[i].Ref?
      ensures RefEnds(settings, t[i].reference, n + 1)
    {
      assert RefEnds(settings, t[i].reference, n);
      EndsMore(settings, settings(t[i].reference), n - 1);
    }
  }

  // ---- One round -----------------------------------------------------------

  lemma DullIsInert(s: string)
    requires Dull(s)
    ensures Inert(s)
  {
  }

  lemma RoundRef(f: Lookup, a: string, reference: string, b: string)
    requires Inert(a) && Dull(reference)
    ensures Round(f, a + ("{{" + reference + "}}") + b) == Some(a + f(reference) + b)
  {
    var rest := "{{" + reference + "}}" + b;
    RefFound(reference, b);
    RefSettles(f, a, reference, b);
    RoundAfter(f, a, rest);
    RefGroups(a, "{{" + reference + "}}", b);
  }

  lemma RefGroups(a: string, m: string, b: string)
    ensures a + m + b == a + (m + b)
  {
  }

  lemma RefSettles(f: Lookup, a: string, reference: string, b: string)
    requires Marker("{{" + reference + "}}" + b) == Some((0, |reference| + 2))
    ensures
      var rest := "{{" + reference + "}}" + b;
      Settled(f, a, rest) == a + f(reference) && rest[0 + (|reference| + 2) + 2..] == b
  {
    RefParts(reference, b);
    assert ("{{" + reference + "}}" + b)[..0] == "";
  }

  lemma RefFound(reference: string, b: string)
    requires Dull(reference)
    ensures Marker("{{" + reference + "}}" + b) == Some((0, |reference| + 2))
  {
    var rest := "{{" + reference + "}}" + b;
    FirstPair(rest, "{{", 0);
    assert rest[0..] == rest;
    FoundAfter("{{" + reference, "}}", b);
  }

  lemma RefParts(reference: string, b: string)
    ensures
      var rest := "{{" + reference + "}}" + b;
      rest[2..|reference| + 2] == reference && rest[|reference| + 4..] == b
  {
  }

  lemma {:induction false} WrittenConcat(t: seq<Piece>, u: seq<Piece>)
    ensures Written(t + u) == Written(t) + Written(u)
    decreases |t|
  {
    if |t| == 0 {
      assert t + u == u;
    } else {
      assert (t + u)[1..] == t[1..] + u;
      WrittenConcat(t[1..], u);
    }
  }

  lemma Grouped(a: string, x: string, y: string, b: string)
    ensures a + (x + y) + b == a + x + (y + b) == (a + x) + y + b
  {
  }

  lemma UnfoldFirst(f: Lookup, settings: Settings, a: string, t: seq<Piece>, b: string)
    requires Inert(a) && |t| > 0 && t[0].Ref? && Dull(t[0].reference) && f(t[0].reference) == Written(settings(t[0].reference))
    ensures Round(f, a + Written(t) + b) == Some(a + Written(settings(t[0].reference) + t[1..]) + b)
  {
    var rest := Written(t[1..]);
    Grouped(a, WrittenPiece(t[0]), rest, b);
    RoundRef(f, a, t[0].reference, rest + b);
    WrittenConcat(settings(t[0].reference), t[1..]);
    Grouped(a, Written(settings(t[0].reference)), rest, b);
  }

  // ---- Stopping needs an end of references ---------------------------------

  lemma {:induction false} StoppedTextEnds(f: Lookup, settings: Settings, values: set<seq<Piece>>,
                                           a: string, t: seq<Piece>, b: string, k: nat, r: string)
    requires Sets(f, settings, values) && Inert(a) && Tidy(t)
    requires StopsWith(f, a + Written(t) + b, k, r)
    ensures Ends(settings, t, k)
    decreases k, |t|, 1
  {
    if |t| == 0 {
    } else if t[0].Ref? {
      StoppedRefEnds(f, settings, values, a, t, b, k, r);
    } else {
      var rest := TextThenRest(f, a, t, b, k, r);
      StoppedTextEnds(f, settings, values, a + t[0].text, rest, b, k, r);
      FirstAndRest(settings, t, k);
    }
  }

  lemma {:induction false} StoppedRefEnds(f: Lookup, settings: Settings, values: set<seq<Piece>>,
                                          a: string, t: seq<Piece>, b: string, k: nat, r: string)
    requires Sets(f, settings, values) && Inert(a) && Tidy(t) && |t| > 0 && t[0].Ref?
    requires StopsWith(f, a + Written(t) + b, k, r)
    ensures Ends(settings, t, k)
    decreases k, |t|, 0
  {
    var u := UnfoldStops(f, settings, values, a, t, b, k, r);
    StoppedTextEnds(f, settings, values, a, u, b, k - 1, r);
    UnfoldedEnds(settings, t, u, k);
  }

  lemma UnfoldStops(f: Lookup, settings: Settings, values: set<seq<Piece>>,
                    a: string, t: seq<Piece>, b: string, k: nat, r: string) returns (u: seq<Piece>)
    requires Sets(f, settings, values) && Inert(a) && Tidy(t) && |t| > 0 && t[0].Ref?
    requires StopsWith(f, a + Written(t) + b, k, r)
    ensures k > 0 && StopsWith(f, a + Written(u) + b, k - 1, r)
    ensures u == settings(t[0].reference) + t[1..] && Tidy(u)
  {
    u := settings(t[0].reference) + t[1..];
    UnfoldFirst(f, settings, a, t, b);
    TidyConcat(settings(t[0].reference), t[1..]);
  }

  lemma TidyConcat(t: seq<Piece>, u: seq<Piece>)
    requires Tidy(t) && Tidy(u)
    ensures Tidy(t + u)
  {
  }

  lemma TextThenRest(f: Lookup, a: string, t: seq<Piece>, b: string, k: nat, r: string) returns (rest: seq<Piece>)
    requires Inert(a) && Tidy(t) && |t| > 0 && t[0].Text? && StopsWith(f, a + Written(t) + b, k, r)
    ensures rest == t[1..] && Tidy(rest) && Inert(a + t[0].text) && StopsWith(f, (a + t[0].text) + Written(rest) + b, k, r)
  {
    rest := t[1..];
    Grouped(a, t[0].text, Written(rest), b);
    DullIsInert(t[0].text);
    InertConcat(a, t[0].text);
  }

  lemma UnfoldedEnds(settings: Settings, t: seq<Piece>, u: seq<Piece>, k: nat)
    requires |t| > 0 && t[0].Ref? && u == settings(t[0].reference) + t[1..] && k > 0 && Ends(settings, u, k - 1)
    ensures Ends(settings, t, k)
  {
    BothParts(settings, settings(t[0].reference), t[1..], k - 1);
    FirstAndRest(settings, t, k);
  }

  lemma FirstAndRest(settings: Settings, t: seq<Piece>, k: nat)
    requires |t| > 0 && Ends(settings, t[1..], k)
    requires t[0].Ref? ==> RefEnds(settings, t[0].reference, k)
    ensures Ends(settings, t, k)
  {
    assert forall i :: 0 < i < |t| ==> t[i] == t[1..][i - 1];
  }

  lemma BothParts(settings: Settings, u: seq<Piece>, rest: seq<Piece>, k: nat)
    requires Ends(settings, u + rest, k)
    ensures Ends(settings, u, k) && Ends(settings, rest, k + 1)
  {
    assert Ends(settings, u, k) by {
      assert forall i :: 0 <= i < |u| ==> (u + rest)[i] == u[i];
    }
    assert Ends(settings, rest, k) by {
      assert forall i :: 0 <= i < |rest| ==> (u + rest)[|u| + i] == rest[i];
    }
    EndsMore(settings, rest, k);
  }

  // ---- And an end of references is enough ----------------------------------

  lemma RestEnds(settings: Settings, t: seq<Piece>, n: nat)
    requires |t| > 0 && Ends(settings, t, n)
    ensures Ends(settings, t[1..], n)
  {
    assert forall i :: 0 <= i < |t| - 1 ==> t[1..][i] == t[i + 1];
  }

  /** What is left of a text when all its references are gone. */
  ghost function Left(settings: Settings, t: seq<Piece>, n: nat): string
    requires Ends(settings, t, n)
    decreases n, |t|
  {
    if |t| == 0 then ""
    else
      RestEnds(settings, t, n);
      LeftPiece(settings, t, n) + Left(settings, t[1..], n)
  }

  ghost function LeftPiece(settings: Settings, t: seq<Piece>, n: nat): string
    requires Ends(settings, t, n) && |t| > 0
    decreases n, |t|, 0
  {
    match t[0]
    case Text(text) => text
    case Ref(p) =>
      assert RefEnds(settings, p, n);
      Left(settings, settings(p), n - 1)
  }

  lemma {:induction false} LeftIsDull(f: Lookup, settings: Settings, values: set<seq<Piece>>, t: seq<Piece>, n: nat)
    requires Sets(f, settings, values) && Tidy(t) && Ends(settings, t, n)
    ensures Dull(Left(settings, t, n))
    ensures |t| > 0 ==> Dull(LeftPiece(settings, t, n))
    decreases n, |t|
  {
    if |t| > 0 {
      RestEnds(settings, t, n);
      LeftIsDull(f, settings, values, t[1..], n);
      if t[0].Ref? {
        assert RefEnds(settings, t[0].reference, n);
        LeftIsDull(f, settings, values, settings(t[0].reference), n - 1);
      }
    }
  }

  lemma StepBack(f: Lookup, t: string, next: string)
    requires Round(f, t) == Some(next) && StopsOn(f, next)
    ensures StopsOn(f, t)
  {
    var n: nat, r: string :| StopsWith(f, next, n, r);
    OneRoundMore(f, t, next, n, r);
  }

  /** A text of the syntax can be replaced by what is left of it, wherever it stands. */
  lemma {:induction false} LeftStops(f: Lookup, settings: Settings, values: set<seq<Piece>>, a: string, t: seq<Piece>, b: string, n: nat)
    requires Sets(f, settings, values) && Inert(a) && Tidy(t) && Ends(settings, t, n)
    requires StopsOn(f, a + Left(settings, t, n) + b)
    ensures StopsOn(f, a + Written(t) + b)
    decreases n, |t|
  {
    if |t| > 0 {
      var first := LeftPiece(settings, t, n);
      RestEnds(settings, t, n);
      LeftIsDull(f, settings, values, t, n);
      DullIsInert(first);
      InertConcat(a, first);
      Grouped(a, first, Left(settings, t[1..], n), b);
      LeftStops(f, settings, values, a + first, t[1..], b, n);
      Grouped(a, first, Written(t[1..]), b);
      FirstStops(f, settings, values, a, t, Written(t[1..]) + b, n);
      Grouped(a, WrittenPiece(t[0]), Written(t[1..]), b);
    }
  }

  lemma {:induction false} FirstStops(f: Lookup, settings: Settings, values: set<seq<Piece>>, a: string, t: seq<Piece>, b: string, n: nat)
    requires Sets(f, settings, values) && Inert(a) && Tidy(t) && Ends(settings, t, n) && |t| > 0
    requires StopsOn(f, a + LeftPiece(settings, t, n) + b)
    ensures StopsOn(f, a + WrittenPiece(t[0]) + b)
    decreases n, |t|, 0
  {
    if t[0].Ref? {
      var u := settings(t[0].reference);
      assert RefEnds(settings, t[0].reference, n);
      LeftStops(f, settings, values, a, u, b, n - 1);
      RoundRef(f, a, t[0].reference, b);
      StepBack(f, a + WrittenPiece(t[0]) + b, a + Written(u) + b);
    }
  }

  lemma {:induction false} AllEndStops(f: Lookup, settings: Settings, values: set<seq<Piece>>, n: nat, s: string)
    requires Sets(f, settings, values) && forall t | t in values :: Ends(settings, t, n)
    ensures StopsOn(f, s)
    decreases Count(s, '}')
  {
    if Round(f, s).None? {
      assert StopsWith(f, s, 0, s);
    } else {
      var a, m, b, v := RoundParts(f, s);
      var p :| f(p) == v;
      var t := settings(p);
      var left := Left(settings, t, n);
      LeftIsDull(f, settings, values, t, n);
      BracesUsed(a, m, b, left);
      AllEndStops(f, settings, values, n, a + left + b);
      LeftStops(f, settings, values, a, t, b, n);
      StepBack(f, s, a + v + b);
    }
  }

  // ---- Finitely many values ------------------------------------------------

  ghost function Level(settings: Settings, values: set<seq<Piece>>, n: nat): set<seq<Piece>> {
    set t | t in values && Ends(settings, t, n)
  }

  lemma {:induction false} LevelStays(settings: Settings, values: set<seq<Piece>>, n: nat, m: nat, t: seq<Piece>)
    requires (forall p :: settings(p) in values) && Level(settings, values, n) == Level(settings, values, n + 1)
    requires n <= m && t in values && Ends(settings, t, m)
    ensures Ends(settings, t, n)
    decreases m
  {
    if m > n {
      forall i | 0 <= i < |t| && t[i].Ref?
        ensures RefEnds(settings, t[i].reference, n + 1)
      {
        assert RefEnds(settings, t[i].reference, m);
        LevelStays(settings, values, n, m - 1, settings(t[i].reference));
      }
      assert Ends(settings, t, n + 1);
      assert t in Level(settings, values, n + 1);
    }
  }

  lemma {:induction false} EndsLater(settings: Settings, t: seq<Piece>, n: nat, m: nat)
    requires n <= m && Ends(settings, t, n)
    ensures Ends(settings, t, m)
    decreases m - n
  {
    if n < m {
      EndsMore(settings, t, n);
      EndsLater(settings, t, n + 1, m);
    }
  }

  lemma LevelGrows(settings: Settings, values: set<seq<Piece>>, n: nat)
    ensures Level(settings, values, n) <= Level(settings, values, n + 1)
  {
    forall t | t in Level(settings, values, n)
      ensures Ends(settings, t, n + 1)
    {
      EndsMore(settings, t, n);
    }
  }

  /** One follows references at most once through each value. */
  lemma EndsWithinAll(settings: Settings, values: set<seq<Piece>>, t: seq<Piece>, m: nat)
    requires (forall p :: settings(p) in values) && t in values && Ends(settings, t, m)
    ensures Ends(settings, t, |values|)
  {
    if m <= |values| {
      EndsLater(settings, t, m, |values|);
    } else {
      var level := (n: nat) => Level(settings, values, n);
      forall n: nat
        ensures level(n) <= level(n + 1) && level(n) <= values
      {
        LevelGrows(settings, values, n);
      }
      var k := Chains.StandsStill(level, values);
      LevelStays(settings, values, k, m, t);
      EndsLater(settings, t, k, |values|);
    }
  }

  /**
   * For replacements written as templates, of which there are finitely many: the loop stops on every
   * template, if and only if from no replacement one can follow more references than there are
   * replacements, that is, none leads into a cycle.
   */
  lemma StopsIffNoCycle(f: Lookup, settings: Settings, values: set<seq<Piece>>)
    requires Sets(f, settings, values)
    ensures (forall s :: StopsOn(f, s)) <==> (forall t | t in values :: Ends(settings, t, |values|))
  {
    if forall s :: StopsOn(f, s) {
      forall t | t in values
        ensures Ends(settings, t, |values|)
      {
        assert StopsOn(f, Written(t));
        var k: nat, r: string :| StopsWith(f, Written(t), k, r);
        assert "" + Written(t) + "" == Written(t);
        StoppedTextEnds(f, settings, values, "", t, "", k, r);
        EndsWithinAll(settings, values, t, k);
      }
    }
    if forall t | t in values :: Ends(settings, t, |values|) {
      forall s
        ensures StopsOn(f, s)
      {
        AllEndStops(f, settings, values, |values|, s);
      }
    }
  }

  // ---- Payloads ------------------------------------------------------------

  /** A member of the payload: a string that is itself a template, or a scalar. */
  datatype Field = TextField(key: string, text: seq<Piece>) | OtherField(key: string, value: Json)

  ghost predicate FieldOk(field: Field) {
    match field
    case TextField(_, text) => Tidy(text)
    case OtherField(_, value) => value.Null? || value.Bool? || value.Num?
  }

  ghost function ValueOf(field: Field): Json {
    match field
    case TextField(_, text) => Str(Written(text))
    case OtherField(_, value) => value
  }

  ghost function Payload(fields: seq<Field>): Json {
    Obj(seq(|fields|, k requires 0 <= k < |fields| => Member(fields[k].key, ValueOf(fields[k]))))
  }

  /** Strings are escaped when they are put in, references included. */
  ghost function Escaped(t: seq<Piece>): seq<Piece>
    decreases |t|
  {
    if |t| == 0 then []
    else [match t[0] case Text(text) => Text(Escape(text)) case Ref(p) => Ref(Escape(p))] + Escaped(t[1..])
  }

  const NULL: seq<Piece> := [Text("null")]

  ghost function SettingOf(field: Field): seq<Piece> {
    match field
    case TextField(_, text) => Escaped(text)
    case OtherField(_, value) => [Text(Print(value))]
  }

  ghost function FieldSetting(fields: seq<Field>, key: string): seq<Piece>
    decreases |fields|
  {
    if |fields| == 0 then NULL
    else if fields[0].key == key then SettingOf(fields[0])
    else FieldSetting(fields[1..], key)
  }

  ghost function SettingAt(fields: seq<Field>, reference: string): seq<Piece> {
    var parts := PathParts(Trim(reference));
    if |parts| == 1 then FieldSetting(fields, parts[0]) else NULL
  }

  ghost function PayloadSettings(fields: seq<Field>): Settings {
    reference => SettingAt(fields, reference)
  }

  ghost function Replacements(fields: seq<Field>): set<seq<Piece>> {
    (set k | 0 <= k < |fields| :: SettingOf(fields[k])) + {NULL}
  }

  lemma {:induction false} EscapeConcat(a: string, b: string)
    ensures Escape(a + b) == Escape(a) + Escape(b)
    decreases |a|
  {
    if |a| == 0 {
      assert a + b == b;
    } else {
      assert (a + b)[1..] == a[1..] + b;
      EscapeConcat(a[1..], b);
    }
  }

  lemma {:induction false} EscapeDull(s: string)
    requires Dull(s)
    ensures Dull(Escape(s))
  {
    if |s| > 0 {
      EscapeDull(s[1..]);
      EscapeCharDull(s[0]);
    }
  }

  lemma EscapeCharDull(c: char)
    requires c != '{' && c != '}'
    ensures Dull(EscapeChar(c))
  {
  }

  lemma EscapeRef(reference: string)
    ensures Escape("{{" + reference + "}}") == "{{" + Escape(reference) + "}}"
  {
    EscapeConcat("{{" + reference, "}}");
    EscapeConcat("{{", reference);
    EscapesNothing("{{");
    EscapesNothing("}}");
  }

  lemma {:induction false} EscapedWritten(t: seq<Piece>)
    requires Tidy(t)
    ensures Escape(Written(t)) == Written(Escaped(t)) && Tidy(Escaped(t))
    decreases |t|
  {
    if |t| > 0 {
      EscapedWritten(t[1..]);
      EscapeConcat(WrittenPiece(t[0]), Written(t[1..]));
      match t[0] {
        case Text(text) => EscapeDull(text);
        case Ref(p) =>
          EscapeDull(p);
          EscapeRef(p);
      }
      assert Escaped(t)[1..] == Escaped(t[1..]);
    }
  }

  lemma SettingIsTidy(field: Field)
    requires FieldOk(field)
    ensures Tidy(SettingOf(field))
    ensures Written(SettingOf(field)) == (if field.TextField? then Escape(Written(field.text)) else Print(field.value))
  {
    match field
    case TextField(_, text) => EscapedWritten(text);
    case OtherField(_, value) =>
      var setting := SettingOf(field);
      assert setting[1..] == [] && Written(setting) == Print(value) + "";
  }

  /** The text that a resolved value is put in as. */
  ghost function PutIn(found: Option<Json>): string {
    match found
    case None => "null"
    case Some(Str(s)) => Escape(s)
    case Some(v) => Print(v)
  }

  lemma {:induction false} FieldIsReplacement(fields: seq<Field>, key: string)
    ensures FieldSetting(fields, key) in Replacements(fields)
    decreases |fields|
  {
    if |fields| > 0 {
      var rest := fields[1..];
      FieldIsReplacement(rest, key);
      assert forall k :: 0 <= k < |rest| ==> rest[k] == fields[k + 1];
      assert SettingOf(fields[0]) in Replacements(fields);
    }
  }

  lemma PayloadTail(fields: seq<Field>)
    requires |fields| > 0
    ensures
      var members := Payload(fields).members;
      |members| > 0 && members[0] == Member(fields[0].key, ValueOf(fields[0])) && members[1..] == Payload(fields[1..]).members
  {
  }

  lemma FieldPutIn(field: Field)
    requires FieldOk(field)
    ensures Written(SettingOf(field)) == PutIn(Some(ValueOf(field)))
  {
    SettingIsTidy(field);
  }

  lemma {:induction false} FieldFound(fields: seq<Field>, key: string)
    requires forall k :: 0 <= k < |fields| ==> FieldOk(fields[k])
    ensures Written(FieldSetting(fields, key)) == PutIn(Get(Payload(fields).members, key))
    decreases |fields|
  {
    if |fields| == 0 {
      NullWritten();
    } else {
      FieldFound(fields[1..], key);
      PayloadTail(fields);
      FieldPutIn(fields[0]);
    }
  }

  lemma FlatWalk(fields: seq<Field>, parts: seq<string>)
    requires |parts| > 0 && forall k :: 0 <= k < |fields| ==> FieldOk(fields[k])
    ensures Walk(Payload(fields), parts) == if |parts| == 1 then Get(Payload(fields).members, parts[0]) else None
  {
    var found := Get(Payload(fields).members, parts[0]);
    if found.Some? {
      var k :| 0 <= k < |fields| && Payload(fields).members[k] == Member(parts[0], found.value);
      assert FieldOk(fields[k]) && !found.value.Obj?;
    }
  }

  lemma ValuePutIn(json: Json, reference: string, found: Option<Json>)
    requires ResolvePath(json, Trim(reference)) == found
    ensures Value(json, reference) == PutIn(found)
  {
  }

  lemma ReferenceSet(fields: seq<Field>, reference: string)
    requires forall k :: 0 <= k < |fields| ==> FieldOk(fields[k])
    ensures Value(Payload(fields), reference) == Written(SettingAt(fields, reference))
    ensures SettingAt(fields, reference) in Replacements(fields)
  {
    var parts := PathParts(Trim(reference));
    var found := if |parts| == 1 then Get(Payload(fields).members, parts[0]) else None;
    FlatWalk(fields, parts);
    ValuePutIn(Payload(fields), reference, found);
    if |parts| == 1 {
      FieldFound(fields, parts[0]);
      FieldIsReplacement(fields, parts[0]);
    } else {
      NullWritten();
    }
  }

  lemma NullWritten()
    ensures Written(NULL) == "null"
  {
    assert NULL[1..] == [];
  }

  lemma ReplacementIsTidy(fields: seq<Field>, t: seq<Piece>)
    requires (forall k :: 0 <= k < |fields| ==> FieldOk(fields[k])) && t in Replacements(fields)
    ensures Tidy(t)
  {
    if k :| 0 <= k < |fields| && t == SettingOf(fields[k]) {
      SettingIsTidy(fields[k]);
    }
  }

  lemma PayloadSets(fields: seq<Field>, f: Lookup, settings: Settings, values: set<seq<Piece>>)
    requires forall k :: 0 <= k < |fields| ==> FieldOk(fields[k])
    requires f == Values(Payload(fields)) && settings == PayloadSettings(fields) && values == Replacements(fields)
    ensures Sets(f, settings, values)
  {
    forall p
      ensures f(p) == Written(settings(p)) && settings(p) in values
    {
      ValuesAt(Payload(fields), p);
      ReferenceSet(fields, p);
    }
    forall t | t in values
      ensures Tidy(t)
    {
      ReplacementIsTidy(fields, t);
    }
  }

  /** Null refers to nothing, so only the fields matter. */
  lemma FieldsMatter(fields: seq<Field>, settings: Settings, n: nat)
    ensures (forall t | t in Replacements(fields) :: Ends(settings, t, n))
       <==> (forall k :: 0 <= k < |fields| ==> Ends(settings, SettingOf(fields[k]), n))
  {
    assert Ends(settings, NULL, n);
    assert forall k :: 0 <= k < |fields| ==> SettingOf(fields[k]) in Replacements(fields);
  }

  /**
   * A payload of scalars and of strings that are themselves written as templates: the loop stops on
   * every template, if and only if no string refers back to itself through others.
   */
  lemma PayloadStopsIffNoCycle(fields: seq<Field>)
    requires forall k :: 0 <= k < |fields| ==> FieldOk(fields[k])
    ensures (forall s :: StopsOn(Values(Payload(fields)), s)) <==>
      (forall k :: 0 <= k < |fields| ==> Ends(PayloadSettings(fields), SettingOf(fields[k]), |Replacements(fields)|))
  {
    var f, settings, values := Values(Payload(fields)), PayloadSettings(fields), Replacements(fields);
    PayloadSets(fields, f, settings, values);
    StopsIffNoCycle(f, settings, values);
    FieldsMatter(fields, settings, |values|);
  }
}
