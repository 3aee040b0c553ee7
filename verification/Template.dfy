/**
 * Payload templates (src/api.rs): the loop replaces the leftmost complete `{{path}}` and starts
 * over from the left, until there is none.
 */
module Template {
  import opened Wrappers
  import opened Strings
  import opened JsonDocument

  /** The text that a reference is replaced by; a string loses its quotes, the template has its own. */
  function Value(json: Json, reference: string): string {
    match ResolvePath(json, Trim(reference))
    case Some(Str(s)) => Escape(s)
    case Some(v) => Print(v)
    case None => "null"
  }

  type Lookup = string -> string

  ghost function Values(json: Json): Lookup {
    reference => Value(json, reference)
  }

  /** Where the leftmost `{{` is, and how far behind it the next `}}` is. */
  function Marker(s: string): (m: Option<(nat, nat)>)
    ensures m.Some? ==> m.value.1 >= 2 && m.value.0 + m.value.1 + 2 <= |s|
  {
    match Find(s, "{{")
    case None => None
    case Some(start) =>
      match Find(s[start..], "}}")
      case None => None
      case Some(end) =>
        assert end >= 2 by {
          FindPair(s, "{{");
          FindPair(s[start..], "}}");
        }
        Some((start, end))
  }

  /** One round of the loop; None when the loop stops. */
  ghost function Round(f: Lookup, s: string): Option<string> {
    match Marker(s)
    case None => None
    case Some((i, j)) => Some(s[..i] + f(s[i + 2..i + j]) + s[i + j + 2..])
  }

  /** The independent reading: one pass over the template, never looking at replaced text again. */
  ghost function Render(f: Lookup, t: string): string
    decreases |t|
  {
    match Marker(t)
    case None => t
    case Some((i, j)) => t[..i] + f(t[i + 2..i + j]) + Render(f, t[i + j + 2..])
  }

  // ---- Which replacements are safe ----------------------------------------

  /** Text that neither contains a marker's opening nor can be the first half of one. */
  ghost predicate Inert(s: string) {
    NoPair(s) && !EndsOpen(s)
  }

  /** What can stand between the leftmost `{{` and the `}}` behind it. */
  ghost predicate Reference(p: string) {
    Find("{{" + p + "}}", "}}") == Some(|p| + 2)
  }

  /** No replacement is mistaken for template text. */
  ghost predicate Safe(f: Lookup) {
    forall p :: Reference(p) ==> Inert(f(p))
  }

  lemma PrefixInert(s: string)
    requires Marker(s).Some?
    ensures Inert(s[..Marker(s).value.0])
  {
    FindPair(s, "{{");
    var (i, _) := Marker(s).value;
    forall k ensures !PairAt(s[..i], "{{", k) {
      assert k < i ==> !PairAt(s, "{{", k);
    }
    assert !PairAt(s, "{{", i - 1);
  }

  lemma ReferenceFound(s: string)
    requires Marker(s).Some?
    ensures var (i, j) := Marker(s).value; Reference(s[i + 2..i + j])
  {
    var (i, j) := Marker(s).value;
    var rest, m := s[i..], "{{" + s[i + 2..i + j] + "}}";
    FindPair(s, "{{");
    FindPair(rest, "}}");
    assert |m| == j + 2 && forall k :: 0 <= k < j + 2 ==> m[k] == rest[k];
    forall k | 0 <= k <= j ensures PairAt(m, "}}", k) == PairAt(rest, "}}", k) {
    }
    FirstPair(m, "}}", j);
  }

  // ---- The loop is the single pass ----------------------------------------

  lemma InertConcat(a: string, b: string)
    requires Inert(a) && Inert(b)
    ensures Inert(a + b)
  {
    NoPairConcat(a, b);
  }

  /** Behind inert text the leftmost marker is that of the rest. */
  lemma MarkerAfter(done: string, rest: string)
    requires Inert(done)
    ensures Marker(done + rest) ==
      match Marker(rest) case None => None case Some((i, j)) => Some((|done| + i, j))
  {
    var s := done + rest;
    FindPair(rest, "{{");
    match Find(rest, "{{") {
      case None =>
        NoPairConcat(done, rest);
        NoSuchPair(s, "{{");
      case Some(i) =>
        forall k | 0 <= k <= |done| + i ensures PairAt(s, "{{", k) <==> k == |done| + i {
          assert !PairAt(done, "{{", k);
          assert PairAt(rest, "{{", k - |done|) <==> k == |done| + i;
        }
        FirstPair(s, "{{", |done| + i);
        assert s[|done| + i..] == rest[i..];
    }
  }

  lemma RoundPieces(done: string, rest: string, i: nat, j: nat)
    requires j >= 2 && i + j + 2 <= |rest|
    ensures
      var s := done + rest;
      && s[..|done| + i] == done + rest[..i]
      && s[|done| + i + 2..|done| + i + j] == rest[i + 2..i + j]
      && s[|done| + i + j + 2..] == rest[i + j + 2..]
  {
  }

  /** The text that a round behind `done` leaves up to the end of its replacement. */
  ghost function Settled(f: Lookup, done: string, rest: string): string
    requires Marker(rest).Some?
  {
    var (i, j) := Marker(rest).value;
    done + rest[..i] + f(rest[i + 2..i + j])
  }

  /** A round behind inert text works on the rest. */
  lemma RoundAfter(f: Lookup, done: string, rest: string)
    requires Inert(done)
    ensures Round(f, done + rest) ==
      match Marker(rest) case None => None case Some((i, j)) => Some(Settled(f, done, rest) + rest[i + j + 2..])
  {
    MarkerAfter(done, rest);
    if Marker(rest).Some? {
      var (i, j) := Marker(rest).value;
      RoundPieces(done, rest, i, j);
    }
  }

  /** When the replacement is inert too, that text is final. */
  lemma RoundSettles(f: Lookup, done: string, rest: string)
    requires Safe(f) && Inert(done) && Marker(rest).Some?
    ensures Inert(Settled(f, done, rest))
  {
    var (i, j) := Marker(rest).value;
    PrefixInert(rest);
    ReferenceFound(rest);
    InertConcat(done, rest[..i]);
    InertConcat(done + rest[..i], f(rest[i + 2..i + j]));
  }

  lemma RenderOnce(f: Lookup, done: string, rest: string)
    requires Marker(rest).Some?
    ensures var (i, j) := Marker(rest).value; done + Render(f, rest) == Settled(f, done, rest) + Render(f, rest[i + j + 2..])
  {
    var (i, j) := Marker(rest).value;
    var kept, value, last := rest[..i], f(rest[i + 2..i + j]), Render(f, rest[i + j + 2..]);
    assert done + (kept + value + last) == done + kept + value + last;
  }

  /** One round, seen from behind the final text: there is more final text and less of the rest. */
  lemma OneRound(f: Lookup, done: string, rest: string) returns (done': string, rest': string)
    requires Safe(f) && Inert(done) && Marker(rest).Some?
    ensures Inert(done') && |rest'| < |rest|
    ensures Round(f, done + rest) == Some(done' + rest')
    ensures done + Render(f, rest) == done' + Render(f, rest')
  {
    var (i, j) := Marker(rest).value;
    RoundAfter(f, done, rest);
    RoundSettles(f, done, rest);
    RenderOnce(f, done, rest);
    done', rest' := Settled(f, done, rest), rest[i + j + 2..];
  }

  lemma NoRound(f: Lookup, done: string, rest: string)
    requires Inert(done)
    ensures Round(f, done + rest).None? <==> Marker(rest).None?
    ensures Marker(rest).None? ==> Render(f, rest) == rest
  {
    MarkerAfter(done, rest);
  }

  lemma RoundAt(f: Lookup, s: string, i: nat, j: nat, value: string)
    requires Marker(s) == Some((i, j)) && f(s[i + 2..i + j]) == value
    ensures Round(f, s) == Some(s[..i] + value + s[i + j + 2..])
  {
  }

  lemma ValuesAt(json: Json, reference: string)
    ensures Values(json)(reference) == Value(json, reference)
  {
  }

  /** The replacement of one marker. */
  method Substitute(json: Json, s: string, start: nat, end: nat) returns (next: string)
    requires Find(s, "{{") == Some(start) && Find(s[start..], "}}") == Some(end)
    ensures Round(Values(json), s) == Some(next)
  {
    assert Marker(s) == Some((start, end));
    var reference := s[start + 2..start + end];
    var value := Value(json, reference);
    ValuesAt(json, reference);
    RoundAt(Values(json), s, start, end, value);
    next := s[..start] + value + s[start + end + 2..];
  }

  /**
   * The rewriting loop. On a safe payload it stops, for every template, and what it returns is the
   * single left-to-right pass: the text to the left of the current marker is final.
   */
  method ApplyTransform(payload: string, parsed: Option<Json>, template: string) returns (result: string)
    requires parsed.Some? ==> Safe(Values(parsed.value))
    ensures result == match parsed case None => payload case Some(json) => Render(Values(json), template)
  {
    if parsed.None? {
      return payload;
    }
    var json := parsed.value;
    result := template;
    ghost var f := Values(json);
    ghost var done, rest := "", template;
    while true
      invariant result == done + rest && Inert(done)
      invariant Render(f, template) == done + Render(f, rest)
      decreases |rest|
    {
      NoRound(f, done, rest);
      var start := Find(result, "{{");
      if start.None? {
        break;
      }
      var end := Find(result[start.value..], "}}");
      if end.None? {
        break;
      }
      var next := Substitute(json, result, start.value, end.value);
      done, rest := OneRound(f, done, rest);
      result := next;
    }
  }

  // ---- When it is not ------------------------------------------------------

  /** The loop stops on `t` with result `r`, after `n` rounds. */
  ghost predicate StopsWith(f: Lookup, t: string, n: nat, r: string)
    decreases n
  {
    match Round(f, t)
    case None => n == 0 && r == t
    case Some(next) => n > 0 && StopsWith(f, next, n - 1, r)
  }

  /** The loop halts on the template, with the single pass's result. */
  ghost predicate AgreesOn(f: Lookup, t: string) {
    exists n :: StopsWith(f, t, n, Render(f, t))
  }

  ghost predicate Agrees(f: Lookup) {
    forall t :: AgreesOn(f, t)
  }

  lemma {:induction false} StoppedHasNoMarker(f: Lookup, t: string, n: nat, r: string)
    requires StopsWith(f, t, n, r)
    ensures Marker(r) == None
    decreases n
  {
    if n > 0 {
      StoppedHasNoMarker(f, Round(f, t).value, n - 1, r);
    }
  }

  lemma OneRoundMore(f: Lookup, t: string, next: string, n: nat, r: string)
    requires Round(f, t) == Some(next) && StopsWith(f, next, n, r)
    ensures StopsWith(f, t, n + 1, r)
  {
  }

  lemma {:induction false} SafeStops(f: Lookup, done: string, rest: string) returns (n: nat)
    requires Safe(f) && Inert(done)
    ensures StopsWith(f, done + rest, n, done + Render(f, rest))
    decreases |rest|
  {
    NoRound(f, done, rest);
    if Marker(rest).None? {
      n := 0;
    } else {
      var done', rest' := OneRound(f, done, rest);
      var m := SafeStops(f, done', rest');
      OneRoundMore(f, done + rest, done' + rest', m, done + Render(f, rest));
      n := m + 1;
    }
  }

  /** The template that exposes a reference whose replacement is not inert. */
  ghost function Probe(p: string): string {
    "{{" + p + "}}{}}"
  }

  lemma ProbeMarker(p: string)
    requires Reference(p)
    ensures Marker(Probe(p)) == Some((0, |p| + 2))
  {
    var t, m := Probe(p), "{{" + p + "}}";
    FindPair(m, "}}");
    FirstPair(t, "{{", 0);
    assert t[0..] == t;
    assert forall k :: 0 <= k < |m| ==> t[k] == m[k];
    forall k | 0 <= k <= |p| + 2 ensures PairAt(t, "}}", k) == PairAt(m, "}}", k) {
    }
    FirstPair(t, "}}", |p| + 2);
  }

  lemma MarkerBefore(v: string)
    requires !Inert(v)
    ensures Marker(v + "{}}").Some?
  {
    var s := v + "{}}";
    if EndsOpen(v) {
      assert PairAt(s, "{{", |v| - 1);
    } else {
      var i :| PairAt(v, "{{", i);
      assert PairAt(s, "{{", i);
    }
    FindPair(s, "{{");
    var rest := s[Find(s, "{{").value..];
    FindPair(rest, "}}");
    assert PairAt(rest, "}}", |rest| - 2);
  }

  lemma ProbeFails(f: Lookup, p: string)
    requires Reference(p) && !Inert(f(p))
    ensures Marker(Render(f, Probe(p))).Some?
  {
    var t := Probe(p);
    ProbeMarker(p);
    assert t[2..2 + |p|] == p && t[|p| + 4..] == "{}}";
    assert Render(f, "{}}") == "{}}" by {
      NoSuchPair("{}}", "{{");
    }
    assert Render(f, t) == f(p) + "{}}";
    MarkerBefore(f(p));
  }

  lemma SafeAgrees(f: Lookup)
    requires Safe(f)
    ensures Agrees(f)
  {
    forall t ensures AgreesOn(f, t) {
      var n := SafeStops(f, "", t);
      assert "" + t == t && "" + Render(f, t) == Render(f, t);
    }
  }

  lemma UnsafeDisagrees(f: Lookup, p: string)
    requires Reference(p) && !Inert(f(p))
    ensures !Agrees(f)
  {
    var t := Probe(p);
    var r := Render(f, t);
    ProbeFails(f, p);
    forall n ensures !StopsWith(f, t, n, r) {
      if StopsWith(f, t, n, r) {
        StoppedHasNoMarker(f, t, n, r);
      }
    }
    assert !AgreesOn(f, t);
  }

  /**
   * The loop is the single pass on every template if and only if no reference resolves to text that
   * contains `{{` or ends in `{`.
   */
  lemma AgreesIffSafe(f: Lookup)
    ensures Agrees(f) <==> Safe(f)
  {
    if Safe(f) {
      SafeAgrees(f);
    } else {
      var p :| Reference(p) && !Inert(f(p));
      UnsafeDisagrees(f, p);
    }
  }

  // ---- Stopping without agreeing -------------------------------------------

  lemma BracesUsed(a: string, m: string, b: string, v: string)
    requires '}' !in v
    ensures Count(a + v + b, '}') == Count(a, '}') + Count(b, '}')
    ensures Count(a, '}') + Count(b, '}') < Count(a + (m + ("}}" + b)), '}')
  {
    CountConcat(a + v, b, '}');
    CountConcat(a, v, '}');
    CountZero(v, '}');
    CountConcat(a, m + ("}}" + b), '}');
    CountConcat(m, "}}" + b, '}');
    CountConcat("}}", b, '}');
    assert "}}"[1..] == "}";
  }

  lemma CutAt(s: string, i: nat, j: nat)
    requires i + j + 2 <= |s| && PairAt(s, "}}", i + j)
    ensures s == s[..i] + (s[i..i + j] + ("}}" + s[i + j + 2..]))
  {
  }

  lemma RoundParts(f: Lookup, s: string) returns (a: string, m: string, b: string, v: string)
    requires Round(f, s).Some?
    ensures s == a + (m + ("}}" + b)) && Inert(a)
    ensures (exists p :: f(p) == v) && Round(f, s) == Some(a + v + b)
  {
    var (i, j) := Marker(s).value;
    FindPair(s[i..], "}}");
    PrefixInert(s);
    CutAt(s, i, j);
    a, m, b, v := s[..i], s[i..i + j], s[i + j + 2..], f(s[i + 2..i + j]);
  }

  lemma RoundFewer(f: Lookup, s: string) returns (next: string)
    requires Round(f, s).Some? && forall p :: '}' !in f(p)
    ensures Round(f, s) == Some(next) && Count(next, '}') < Count(s, '}')
  {
    var a, m, b, v := RoundParts(f, s);
    BracesUsed(a, m, b, v);
    next := a + v + b;
  }

  /** When no replacement contains a closing brace the loop stops on every template, safe or not. */
  lemma {:induction false} StopsWithoutBrace(f: Lookup, t: string) returns (n: nat, r: string)
    requires forall p :: '}' !in f(p)
    ensures StopsWith(f, t, n, r)
    decreases Count(t, '}')
  {
    if Round(f, t).None? {
      n, r := 0, t;
    } else {
      var next := RoundFewer(f, t);
      n, r := StopsWithoutBrace(f, next);
      OneRoundMore(f, t, next, n, r);
      n := n + 1;
    }
  }

  // ---- A condition on the payload ------------------------------------------

  /** No string or key has `{{` in it, and no string ends in `{`. */
  ghost predicate PlainPayload(v: Json)
    decreases v
  {
    && NoPairInside(v)
    && match v
       case Str(s) => !EndsOpen(s)
       case Obj(members) => forall i :: 0 <= i < |members| ==> PlainPayload(members[i].value)
       case _ => true
  }

  lemma {:induction false} WalkPlain(v: Json, parts: seq<string>)
    requires PlainPayload(v)
    ensures Walk(v, parts).Some? ==> PlainPayload(Walk(v, parts).value)
    decreases |parts|
  {
    if |parts| > 0 && v.Obj? {
      var found := Get(v.members, parts[0]);
      if found.Some? {
        var i :| 0 <= i < |v.members| && v.members[i] == Member(parts[0], found.value);
        WalkPlain(v.members[i].value, parts[1..]);
      }
    }
  }

  /** Such a payload is safe for every template; in particular one without any opening brace. */
  lemma PlainIsSafe(json: Json)
    requires PlainPayload(json)
    ensures Safe(Values(json))
  {
    forall p | Reference(p) ensures Inert(Values(json)(p)) {
      WalkPlain(json, PathParts(Trim(p)));
      match ResolvePath(json, Trim(p)) {
        case None =>
        case Some(v) =>
          PrintNoPair(v);
          if v.Str? {
            EscapeNoPair(v.s);
            EscapeEnds(v.s);
          }
      }
    }
  }

  const SELF := "{{$.a}}"
  const SELF_PAYLOAD := Obj([Member("a", Str(SELF))])

  lemma {:induction false} EscapesNothing(s: string)
    requires forall i :: 0 <= i < |s| ==> s[i] >= ' ' && s[i] != '"' && s[i] != '\\'
    ensures Escape(s) == s
  {
    if |s| > 0 {
      EscapesNothing(s[1..]);
      assert s == [s[0]] + s[1..];
    }
  }

  lemma SelfReferenceValue()
    ensures Value(SELF_PAYLOAD, "$.a") == SELF
  {
    TrimKeeps("$.a");
    assert PathParts("$.a") == ["a"] by {
      assert "$." <= "$.a" && "$.a"[2..] == "a";
      SplitSingle("a", '.');
    }
    assert ["a"][1..] == [];
    assert Walk(SELF_PAYLOAD, ["a"]) == Some(Str(SELF));
    EscapesNothing(SELF);
  }

  lemma SelfReferenceRound(f: Lookup)
    requires f("$.a") == SELF
    ensures Round(f, SELF) == Some(SELF)
  {
    FirstPair(SELF, "{{", 0);
    assert SELF[0..] == SELF;
    FirstPair(SELF, "}}", 5);
    assert SELF[2..5] == "$.a";
    assert |SELF| == 7 && SELF[..0] == "" && SELF[7..] == "";
    assert "" + SELF + "" == SELF;
  }

  /** A string that refers to itself is replaced by itself for ever. */
  lemma {:induction false} SelfReferenceNeverStops(n: nat, r: string)
    ensures !StopsWith(Values(SELF_PAYLOAD), SELF, n, r)
    decreases n
  {
    SelfReferenceValue();
    SelfReferenceRound(Values(SELF_PAYLOAD));
    if n > 0 {
      SelfReferenceNeverStops(n - 1, r);
    }
  }
}
