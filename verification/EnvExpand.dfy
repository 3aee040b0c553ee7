/**
 * Environment references in the configuration text (src/config.rs): `${NAME}` and
 * `${NAME:-default}`, rewritten leftmost first with a restart from the left after each one.
 */
module EnvExpand {
  import opened Wrappers
  import opened Strings

  type Env = string -> Option<string>

  /** What the text between `${` and the next `}` stands for; only the form with a default treats an empty value as unset. */
  function Lookup(env: Env, expr: string): string {
    match SplitOnce(expr, ":-")
    case Some((name, default)) =>
      (match env(name)
       case Some(value) => if value != "" then value else default
       case None => default)
    case None =>
      (match env(expr)
       case Some(value) => value
       case None => "")
  }

  function Marker(s: string): (m: Option<(nat, nat)>)
    ensures m.Some? ==> m.value.1 >= 2 && m.value.0 + m.value.1 + 1 <= |s|
  {
    match Find(s, "${")
    case None => None
    case Some(start) =>
      match Find(s[start..], "}")
      case None => None
      case Some(end) =>
        assert end >= 2 by {
          FindPair(s, "${");
          FindSingle(s[start..], "}");
        }
        Some((start, end))
  }

  ghost function Round(env: Env, s: string): Option<string> {
    match Marker(s)
    case None => None
    case Some((i, j)) => Some(s[..i] + Lookup(env, s[i + 2..i + j]) + s[i + j + 1..])
  }

  // ---- Reference characters ----------------------------------------------

  /** No value contains `c`. */
  ghost predicate Lacks(env: Env, c: char) {
    forall name :: env(name).Some? ==> c !in env(name).value
  }

  /** No value brings a new reference in. */
  ghost predicate NoDollar(env: Env) {
    Lacks(env, '$')
  }

  /** A value comes from the environment or is a part of the expression. */
  lemma LookupCounts(env: Env, expr: string, c: char)
    requires Lacks(env, c)
    ensures Count(Lookup(env, expr), c) <= Count(expr, c)
  {
    var v := Lookup(env, expr);
    match SplitOnce(expr, ":-") {
      case Some((name, default)) =>
        if v == default {
          var k := |expr| - |default|;
          assert expr == expr[..k] + default;
          CountConcat(expr[..k], default, c);
        } else {
          CountZero(v, c);
        }
      case None => CountZero(v, c);
    }
  }

  lemma BraceAt(rest: string, j: nat)
    requires Find(rest, "}") == Some(j) && j >= 2
    ensures j < |rest| && rest[j] == '}' && '}' !in rest[2..j]
  {
    FindSingle(rest, "}");
  }

  lemma Cut(s: string, i: nat, j: nat)
    requires j >= 2 && i + j < |s| && PairAt(s, "${", i) && s[i + j] == '}'
    ensures s == s[..i] + "${" + s[i + 2..i + j] + "}" + s[i + j + 1..]
  {
  }

  /** A round splits the text like this. */
  lemma MarkerSplits(s: string) returns (a: string, expr: string, b: string)
    requires Marker(s).Some?
    ensures s == a + "${" + expr + "}" + b && '}' !in expr
    ensures forall env :: Round(env, s) == Some(a + Lookup(env, expr) + b)
  {
    var (i, j) := Marker(s).value;
    assert PairAt(s, "${", i) by {
      FindPair(s, "${");
    }
    BraceAt(s[i..], j);
    a, expr, b := s[..i], s[i + 2..i + j], s[i + j + 1..];
    assert expr == s[i..][2..j];
    Cut(s, i, j);
  }

  /**
   * Every round uses up one of the characters that make a reference, if no value brings it back: a
   * dollar sign, an opening brace, or exactly one closing brace.
   */
  lemma RoundUses(env: Env, s: string, c: char)
    requires Lacks(env, c) && c in "${}" && Round(env, s).Some?
    ensures Count(Round(env, s).value, c) < Count(s, c)
    ensures c == '}' ==> Count(Round(env, s).value, c) == Count(s, c) - 1
  {
    var a, expr, b := MarkerSplits(s);
    var v := Lookup(env, expr);
    LookupCounts(env, expr, c);
    CountZero(expr, '}');
    CountPieces(a, expr, b, c);
    CountConcat(a + v, b, c);
    CountConcat(a, v, c);
  }

  lemma CountPieces(a: string, expr: string, b: string, c: char)
    ensures Count(a + "${" + expr + "}" + b, c) == Count(a, c) + Count("${", c) + Count(expr, c) + Count("}", c) + Count(b, c)
    ensures Count("${", '$') == Count("${", '{') == 1 && Count("${", '}') == 0
    ensures Count("}", '$') == Count("}", '{') == 0 && Count("}", '}') == 1
  {
    CountConcat(a + "${" + expr + "}", b, c);
    CountConcat(a + "${" + expr, "}", c);
    CountConcat(a + "${", expr, c);
    CountConcat(a, "${", c);
    assert "${"[1..] == "{" && "{"[1..] == "";
    assert "}"[1..] == "";
  }

  // ---- The loop ------------------------------------------------------------

  /** No reference is left after at most `n` rounds. */
  ghost predicate StopsIn(env: Env, s: string, n: nat)
    decreases n
  {
    match Round(env, s)
    case None => true
    case Some(next) => n > 0 && StopsIn(env, next, n - 1)
  }

  ghost predicate Stops(env: Env, s: string) {
    exists n: nat :: StopsIn(env, s, n)
  }

  ghost function After(env: Env, s: string, n: nat): string
    requires StopsIn(env, s, n)
    decreases n
  {
    match Round(env, s)
    case None => s
    case Some(next) => After(env, next, n - 1)
  }

  /** The text when no reference is left. */
  ghost function Final(env: Env, s: string): string
    requires Stops(env, s)
  {
    var n: nat :| StopsIn(env, s, n);
    After(env, s, n)
  }

  lemma {:induction false} SameAfter(env: Env, s: string, m: nat, n: nat)
    requires StopsIn(env, s, m) && StopsIn(env, s, n)
    ensures After(env, s, m) == After(env, s, n)
    decreases m
  {
    if Round(env, s).Some? {
      SameAfter(env, Round(env, s).value, m - 1, n - 1);
    }
  }

  lemma FinalIs(env: Env, s: string, n: nat)
    requires StopsIn(env, s, n)
    ensures Final(env, s) == After(env, s, n)
  {
    forall k: nat | StopsIn(env, s, k)
      ensures After(env, s, k) == After(env, s, n)
    {
      SameAfter(env, s, k, n);
    }
  }

  lemma StepBack(env: Env, s: string)
    requires Round(env, s).Some? ==> Stops(env, Round(env, s).value)
    ensures Stops(env, s)
  {
    match Round(env, s) {
      case None => assert StopsIn(env, s, 0);
      case Some(next) =>
        var n: nat :| StopsIn(env, next, n);
        assert StopsIn(env, s, n + 1);
    }
  }

  lemma StepOn(env: Env, s: string)
    requires Stops(env, s)
    ensures
      match Round(env, s)
      case None => Final(env, s) == s
      case Some(next) => Stops(env, next) && Final(env, next) == Final(env, s)
  {
    var n: nat :| StopsIn(env, s, n);
    FinalIs(env, s, n);
    if Round(env, s).Some? {
      FinalIs(env, Round(env, s).value, n - 1);
    }
  }

  /** The same where no value contains a dollar sign: there the loop stops on every text. */
  ghost function Expand(env: Env, s: string): string
    requires NoDollar(env)
    decreases Count(s, '$')
  {
    match Round(env, s)
    case None => s
    case Some(next) =>
      RoundUses(env, s, '$');
      Expand(env, next)
  }

  lemma {:induction false} ExpandIsFinal(env: Env, s: string)
    requires NoDollar(env)
    ensures Stops(env, s) && Expand(env, s) == Final(env, s)
    decreases Count(s, '$')
  {
    if Round(env, s).Some? {
      RoundUses(env, s, '$');
      ExpandIsFinal(env, Round(env, s).value);
    }
    StepBack(env, s);
    StepOn(env, s);
  }

  lemma RoundAt(env: Env, s: string, i: nat, j: nat, value: string)
    requires Marker(s) == Some((i, j)) && Lookup(env, s[i + 2..i + j]) == value
    ensures Round(env, s) == Some(s[..i] + value + s[i + j + 1..])
  {
  }

  /** The loop, on every text on which it stops. */
  method ExpandEnvVars(env: Env, input: string) returns (result: string)
    requires Stops(env, input)
    ensures result == Final(env, input)
  {
    result := input;
    ghost var n: nat :| StopsIn(env, input, n);
    while true
      invariant StopsIn(env, result, n) && Final(env, result) == Final(env, input)
      decreases n
    {
      StepOn(env, result);
      var start := Find(result, "${");
      if start.None? {
        break;
      }
      var end := Find(result[start.value..], "}");
      if end.None? {
        break;
      }
      var i, j := start.value, end.value;
      assert Marker(result) == Some((i, j));
      var value := Lookup(env, result[i + 2..i + j]);
      var next := result[..i] + value + result[i + j + 1..];
      RoundAt(env, result, i, j, value);
      result := next;
      n := n - 1;
    }
  }

  /** With a value that refers to its own variable the loop goes round for ever. */
  lemma SelfReferenceLoops(env: Env)
    requires env("A") == Some("${A}")
    ensures Round(env, "${A}") == Some("${A}")
  {
    var s := "${A}";
    FirstPair(s, "${", 0);
    assert s[0..] == s;
    FoundAfter("${A", "}", "");
    assert "${A" + "}" + "" == s;
    assert s[2..3] == "A";
    NotFoundWithout("A", ":-", 0);
    assert s[..0] + s + s[4..] == s;
  }

  // ---- What references mean ------------------------------------------------

  /** Configuration text as its author reads it. */
  datatype Piece = Text(text: string) | Var(name: string) | VarOr(name: string, default: seq<Piece>)

  ghost function PrintPiece(p: Piece): string
    decreases p
  {
    match p
    case Text(text) => text
    case Var(name) => "${" + name + "}"
    case VarOr(name, default) => "${" + name + ":-" + Print(default) + "}"
  }

  ghost function Print(t: seq<Piece>): string
    decreases t
  {
    if |t| == 0 then "" else PrintPiece(t[0]) + Print(t[1..])
  }

  ghost predicate Plain(s: string) {
    '$' !in s && '}' !in s
  }

  ghost predicate PieceOk(p: Piece)
    decreases p
  {
    match p
    case Text(text) => Plain(text)
    case Var(name) => Plain(name) && ':' !in name
    case VarOr(name, default) => Plain(name) && ':' !in name && WellFormed(default)
  }

  ghost predicate WellFormed(t: seq<Piece>)
    decreases t
  {
    forall i :: 0 <= i < |t| ==> PieceOk(t[i])
  }

  ghost function PieceMeaning(env: Env, p: Piece): string
    decreases p
  {
    match p
    case Text(text) => text
    case Var(name) => (match env(name) case Some(v) => v case None => "")
    case VarOr(name, default) => (match env(name) case Some(v) => if v != "" then v else Meaning(env, default)
                                                  case None => Meaning(env, default))
  }

  ghost function Meaning(env: Env, t: seq<Piece>): string
    decreases t
  {
    if |t| == 0 then "" else PieceMeaning(env, t[0]) + Meaning(env, t[1..])
  }

  /** No default contains a reference. */
  ghost predicate Flat(t: seq<Piece>) {
    forall i :: 0 <= i < |t| && t[i].VarOr? ==> AllText(t[i].default)
  }

  ghost predicate AllText(t: seq<Piece>) {
    forall i :: 0 <= i < |t| ==> t[i].Text?
  }

  lemma MarkerAfter(done: string, rest: string)
    requires '$' !in done
    ensures Marker(done + rest) ==
      match Marker(rest) case None => None case Some((i, j)) => Some((|done| + i, j))
  {
    var s := done + rest;
    FindPair(rest, "${");
    match Find(rest, "${") {
      case None =>
        forall k ensures !PairAt(s, "${", k) {
          assert !PairAt(rest, "${", k - |done|);
          assert 0 <= k < |done| ==> s[k] == done[k];
        }
        NoSuchPair(s, "${");
      case Some(i) =>
        forall k | 0 <= k <= |done| + i ensures PairAt(s, "${", k) <==> k == |done| + i {
          assert PairAt(rest, "${", k - |done|) <==> k == |done| + i;
          assert k < |done| ==> s[k] == done[k];
        }
        FirstPair(s, "${", |done| + i);
        assert s[|done| + i..] == rest[i..];
    }
  }

  lemma RoundAfter(env: Env, done: string, rest: string)
    requires '$' !in done
    ensures Round(env, done + rest) == match Round(env, rest) case None => None case Some(next) => Some(done + next)
  {
    MarkerAfter(done, rest);
    if Marker(rest).Some? {
      var (i, j) := Marker(rest).value;
      RoundShifted(env, done, rest, i, j, Lookup(env, rest[i + 2..i + j]));
    }
  }

  lemma RoundShifted(env: Env, done: string, rest: string, i: nat, j: nat, v: string)
    requires Marker(rest) == Some((i, j)) && Marker(done + rest) == Some((|done| + i, j))
    requires v == Lookup(env, rest[i + 2..i + j])
    ensures Round(env, rest).Some? && Round(env, done + rest) == Some(done + Round(env, rest).value)
  {
    RoundPieces(done, rest, i, j);
    RoundAt(env, rest, i, j, v);
    RoundAt(env, done + rest, |done| + i, j, v);
    Regroup(done, rest[..i], v, rest[i + j + 1..]);
  }

  lemma Associates(a: string, b: string, c: string)
    ensures a + b + c == a + (b + c)
  {
  }

  lemma Regroup(a: string, b: string, c: string, d: string)
    ensures a + (b + c + d) == a + b + c + d
  {
  }

  lemma RoundPieces(done: string, rest: string, i: nat, j: nat)
    requires j >= 2 && i + j + 1 <= |rest|
    ensures
      var s := done + rest;
      && s[..|done| + i] == done + rest[..i]
      && s[|done| + i + 2..|done| + i + j] == rest[i + 2..i + j]
      && s[|done| + i + j + 1..] == rest[i + j + 1..]
  {
  }

  /** Text without a dollar sign in front is passed through. */
  lemma {:induction false} ExpandAfter(env: Env, done: string, rest: string)
    requires NoDollar(env) && '$' !in done
    ensures Expand(env, done + rest) == done + Expand(env, rest)
    decreases Count(rest, '$')
  {
    RoundAfter(env, done, rest);
    if Round(env, rest).Some? {
      RoundUses(env, rest, '$');
      ExpandAfter(env, done, Round(env, rest).value);
    }
  }

  /** The reference at the very left. */
  lemma ExpandReference(env: Env, expr: string, after: string)
    requires NoDollar(env) && '}' !in expr
    ensures Round(env, "${" + expr + "}" + after) == Some(Lookup(env, expr) + after)
    ensures Expand(env, "${" + expr + "}" + after) == Expand(env, Lookup(env, expr) + after)
  {
    var s := "${" + expr + "}" + after;
    FirstPair(s, "${", 0);
    assert s[0..] == s;
    FoundAfter("${" + expr, "}", after);
    assert s[2..2 + |expr|] == expr && s[|expr| + 3..] == after;
    assert s[..0] + Lookup(env, expr) + after == Lookup(env, expr) + after;
  }

  lemma {:induction false} AllTextPrints(env: Env, t: seq<Piece>)
    requires WellFormed(t) && AllText(t)
    ensures Plain(Print(t)) && Meaning(env, t) == Print(t)
    decreases |t|
  {
    if |t| > 0 {
      AllTextPrints(env, t[1..]);
    }
  }

  lemma LookupDefault(env: Env, name: string, default: string)
    requires ':' !in name
    ensures Lookup(env, name + ":-" + default) ==
      if env(name).Some? && env(name).value != "" then env(name).value else default
  {
    FoundAfter(name, ":-", default);
  }

  lemma LookupPlain(env: Env, name: string)
    requires ':' !in name
    ensures Lookup(env, name) == if env(name).Some? then env(name).value else ""
  {
    NotFoundWithout(name, ":-", 0);
  }

  lemma PieceExpands(env: Env, p: Piece, after: string)
    requires NoDollar(env) && PieceOk(p) && (p.VarOr? ==> AllText(p.default))
    ensures Expand(env, PrintPiece(p) + after) == PieceMeaning(env, p) + Expand(env, after)
  {
    match p
    case Text(text) => ExpandAfter(env, text, after);
    case Var(name) =>
      LookupPlain(env, name);
      ExpandReference(env, name, after);
      ExpandAfter(env, Lookup(env, name), after);
    case VarOr(name, default) =>
      AllTextPrints(env, default);
      DefaultExpands(env, name, Print(default), after);
  }

  lemma DefaultExpands(env: Env, name: string, default: string, after: string)
    requires NoDollar(env) && Plain(name) && ':' !in name && Plain(default)
    ensures Expand(env, "${" + name + ":-" + default + "}" + after) ==
      (if env(name).Some? && env(name).value != "" then env(name).value else default) + Expand(env, after)
  {
    var expr := name + ":-" + default;
    LookupDefault(env, name, default);
    assert "${" + name + ":-" + default + "}" + after == "${" + expr + "}" + after;
    ExpandReference(env, expr, after);
    ExpandAfter(env, Lookup(env, expr), after);
  }

  lemma {:induction false} FlatRewrites(env: Env, t: seq<Piece>, after: string)
    requires NoDollar(env) && WellFormed(t) && Flat(t)
    ensures Expand(env, Print(t) + after) == Meaning(env, t) + Expand(env, after)
    decreases |t|
  {
    if |t| == 0 {
      assert "" + after == after && "" + Expand(env, after) == Expand(env, after);
    } else {
      var tail := t[1..];
      FlatRewrites(env, tail, after);
      PieceExpands(env, t[0], Print(tail) + after);
      Associates(PrintPiece(t[0]), Print(tail), after);
      Associates(PieceMeaning(env, t[0]), Meaning(env, tail), Expand(env, after));
    }
  }

  /** Text without nested defaults is rewritten to its meaning, in front of whatever follows. */
  lemma FlatExpands(env: Env, t: seq<Piece>, after: string)
    requires NoDollar(env) && WellFormed(t) && Flat(t)
    ensures Stops(env, Print(t) + after) && Stops(env, after)
    ensures Final(env, Print(t) + after) == Meaning(env, t) + Final(env, after)
  {
    FlatRewrites(env, t, after);
    ExpandIsFinal(env, Print(t) + after);
    ExpandIsFinal(env, after);
  }

  // ---- Nested defaults -----------------------------------------------------

  /** Values bring no new reference in, nor the end of one. */
  ghost predicate Clean(env: Env) {
    Lacks(env, '$') && Lacks(env, '}')
  }

  lemma {:induction false} SurplusGrows(env: Env, s: string)
    requires Clean(env)
    ensures Count(Expand(env, s), '}') - Count(Expand(env, s), '$') >= Count(s, '}') - Count(s, '$')
    decreases Count(s, '$')
  {
    if Round(env, s).Some? {
      RoundUses(env, s, '$');
      RoundUses(env, s, '}');
      SurplusGrows(env, Round(env, s).value);
    }
  }

  lemma {:induction false} PrintBalanced(t: seq<Piece>)
    requires WellFormed(t)
    ensures Count(Print(t), '$') == Count(Print(t), '}')
    decreases t
  {
    if |t| > 0 {
      var p := t[0];
      PieceBalanced(p);
      PrintBalanced(t[1..]);
      CountConcat(PrintPiece(p), Print(t[1..]), '$');
      CountConcat(PrintPiece(p), Print(t[1..]), '}');
    }
  }

  lemma {:induction false} PieceBalanced(p: Piece)
    requires PieceOk(p)
    ensures Count(PrintPiece(p), '$') == Count(PrintPiece(p), '}')
    decreases p
  {
    match p
    case Text(text) =>
      CountZero(text, '$');
      CountZero(text, '}');
    case Var(name) =>
      ReferenceCounts(name);
      CountZero(name, '$');
      CountZero(name, '}');
    case VarOr(name, default) =>
      PrintBalanced(default);
      var d := Print(default);
      assert PrintPiece(p) == "${" + (name + ":-" + d) + "}";
      ReferenceCounts(name + ":-" + d);
      NameCounts(name, d);
  }

  lemma ReferenceCounts(expr: string)
    ensures Count("${" + expr + "}", '$') == Count(expr, '$') + 1
    ensures Count("${" + expr + "}", '}') == Count(expr, '}') + 1
  {
    var s := "${" + expr + "}";
    assert "" + s + "" == s && "" + "${" + expr + "}" + "" == s;
    CountPieces("", expr, "", '$');
    CountPieces("", expr, "", '}');
  }

  lemma NameCounts(name: string, d: string)
    requires Plain(name)
    ensures Count(name + ":-" + d, '$') == Count(d, '$') && Count(name + ":-" + d, '}') == Count(d, '}')
  {
    assert Plain(name + ":-");
    CountZero(name + ":-", '$');
    CountZero(name + ":-", '}');
    CountConcat(name + ":-", d, '$');
    CountConcat(name + ":-", d, '}');
  }

  /** Up to the first reference there is only text. */
  lemma {:induction false} FirstReference(t: seq<Piece>) returns (before: string, after: string)
    requires WellFormed(t) && !AllText(t)
    ensures Print(t) == before + "${" + after && Plain(before)
    decreases |t|
  {
    match t[0]
    case Text(text) =>
      var b, a := FirstReference(t[1..]);
      before, after := text + b, a;
      assert text + (b + "${" + a) == text + b + "${" + a;
    case Var(name) =>
      before, after := "", name + "}" + Print(t[1..]);
    case VarOr(name, default) =>
      before, after := "", name + ":-" + Print(default) + "}" + Print(t[1..]);
  }

  /** Every variable is set. */
  ghost function AllSet(): (env: Env)
    ensures Clean(env)
  {
    _ => Some("x")
  }

  lemma {:induction false} SplitAtBrace(s: string) returns (a: string, b: string)
    requires '}' in s
    ensures s == a + "}" + b && '}' !in a
  {
    if s[0] == '}' {
      a, b := "", s[1..];
    } else {
      a, b := SplitAtBrace(s[1..]);
      a := [s[0]] + a;
    }
  }

  /** When the variable is set, a reference inside its default is cut off after its first brace. */
  lemma NestedLeavesBrace(name: string, default: seq<Piece>, after: string)
    requires Plain(name) && ':' !in name && WellFormed(default) && !AllText(default)
    requires Count(after, '$') == Count(after, '}')
    ensures '}' in Expand(AllSet(), "${" + name + ":-" + Print(default) + "}" + after)
  {
    var s := "${" + name + ":-" + Print(default) + "}" + after;
    var before, behind := FirstReference(default);
    var inside, left := SplitAtBrace(behind + "}" + after);
    var cut := before + "${" + inside;
    assert s == "${" + (name + ":-" + cut) + "}" + left by {
      assert s == "${" + name + ":-" + before + "${" + (behind + "}" + after);
    }
    CutSurplus(name, default, after, name + ":-" + cut, left);
    CutLeavesBrace(name, cut, left);
  }

  lemma CutLeavesBrace(name: string, cut: string, left: string)
    requires Plain(name) && ':' !in name && '}' !in cut
    requires Count("x" + left, '}') > Count("x" + left, '$')
    ensures '}' in Expand(AllSet(), "${" + (name + ":-" + cut) + "}" + left)
  {
    LookupDefault(AllSet(), name, cut);
    ExpandReference(AllSet(), name + ":-" + cut, left);
    SurplusGrows(AllSet(), "x" + left);
    CountZero(Expand(AllSet(), "x" + left), '}');
  }

  lemma CutSurplus(name: string, default: seq<Piece>, after: string, expr: string, left: string)
    requires Plain(name) && WellFormed(default) && Count(after, '$') == Count(after, '}')
    requires "${" + name + ":-" + Print(default) + "}" + after == "${" + expr + "}" + left
    requires '}' !in expr && '$' in expr
    ensures Count("x" + left, '}') > Count("x" + left, '$')
  {
    var d := Print(default);
    var s := "${" + expr + "}" + left;
    assert s == "${" + (name + ":-" + d) + "}" + after;
    PrintBalanced(default);
    NameCounts(name, d);
    ReferenceCounts(name + ":-" + d);
    ReferenceCounts(expr);
    CountConcat("${" + (name + ":-" + d) + "}", after, '$');
    CountConcat("${" + (name + ":-" + d) + "}", after, '}');
    CountConcat("${" + expr + "}", left, '$');
    CountConcat("${" + expr + "}", left, '}');
    CountZero(expr, '$');
    CountZero(expr, '}');
    assert ("x" + left)[1..] == left;
  }

  lemma {:induction false} MeaningHasNoBrace(env: Env, t: seq<Piece>)
    requires Clean(env) && WellFormed(t)
    ensures '}' !in Meaning(env, t)
    decreases t
  {
    if |t| > 0 {
      if t[0].VarOr? {
        MeaningHasNoBrace(env, t[0].default);
      }
      MeaningHasNoBrace(env, t[1..]);
    }
  }

  lemma {:induction false} PrintConcat(a: seq<Piece>, b: seq<Piece>)
    ensures Print(a + b) == Print(a) + Print(b)
    decreases |a|
  {
    if |a| == 0 {
      assert a + b == b;
    } else {
      assert (a + b)[1..] == a[1..] + b;
      PrintConcat(a[1..], b);
    }
  }

  lemma FirstNested(t: seq<Piece>) returns (i: nat)
    requires !Flat(t)
    ensures i < |t| && t[i].VarOr? && !AllText(t[i].default) && Flat(t[..i])
  {
    i := 0;
    while !(t[i].VarOr? && !AllText(t[i].default))
      invariant i < |t| && Flat(t[..i])
      invariant exists k :: i <= k < |t| && t[k].VarOr? && !AllText(t[k].default)
      decreases |t| - i
    {
      i := i + 1;
    }
  }

  lemma NestedFails(t: seq<Piece>)
    requires WellFormed(t) && !Flat(t)
    ensures Expand(AllSet(), Print(t)) != Meaning(AllSet(), t)
  {
    var env := AllSet();
    var i := FirstNested(t);
    var before, p, behind := t[..i], t[i], t[i + 1..];
    assert t == before + ([p] + behind);
    PrintConcat(before, [p] + behind);
    assert ([p] + behind)[1..] == behind;
    var tail := "${" + p.name + ":-" + Print(p.default) + "}" + Print(behind);
    assert Print([p] + behind) == tail;
    PrintBalanced(behind);
    NestedLeavesBrace(p.name, p.default, Print(behind));
    FlatRewrites(env, before, tail);
    MeaningHasNoBrace(env, t);
  }

  /** The expansion gives every author's text its meaning in this environment. */
  ghost predicate Faithful(env: Env, t: seq<Piece>) {
    Stops(env, Print(t)) && Final(env, Print(t)) == Meaning(env, t)
  }

  /**
   * Expansion means what it says in every environment without dollar signs if and only if no default
   * contains a reference: a set variable whose default does leaves the default's last part, with its brace,
   * in the text.
   */
  lemma FaithfulIffFlat(t: seq<Piece>)
    requires WellFormed(t)
    ensures (forall env :: NoDollar(env) ==> Faithful(env, t)) <==> Flat(t)
  {
    if Flat(t) {
      forall env | NoDollar(env) ensures Faithful(env, t) {
        FlatExpands(env, t, "");
        StepOn(env, "");
        assert Print(t) + "" == Print(t) && Meaning(env, t) + "" == Meaning(env, t);
      }
    } else {
      NestedFails(t);
      ExpandIsFinal(AllSet(), Print(t));
      assert !Faithful(AllSet(), t);
    }
  }

  /** The nested form itself: right when the outer variable is unset or empty, one brace too many when it is set. */
  lemma NestedDefault(env: Env, a: string, b: string)
    requires NoDollar(env) && Plain(a) && Plain(b) && ':' !in a && ':' !in b
    ensures Stops(env, "${" + a + ":-${" + b + "}}")
    ensures Final(env, "${" + a + ":-${" + b + "}}") ==
      if env(a).Some? && env(a).value != "" then env(a).value + "}"
      else if env(b).Some? then env(b).value else ""
  {
    var expr := a + ":-" + ("${" + b);
    ExpandIsFinal(env, "${" + a + ":-${" + b + "}}");
    assert "${" + a + ":-${" + b + "}}" == "${" + expr + "}" + "}";
    ExpandReference(env, expr, "}");
    LookupDefault(env, a, "${" + b);
    var v := Lookup(env, expr);
    NoReference(env, "}");
    if env(a).Some? && env(a).value != "" {
      ExpandAfter(env, v, "}");
    } else {
      assert v + "}" == "${" + b + "}" + "";
      ExpandReference(env, b, "");
      LookupPlain(env, b);
      NoReference(env, "");
      ExpandAfter(env, Lookup(env, b), "");
    }
  }

  lemma NoReference(env: Env, s: string)
    requires NoDollar(env) && '$' !in s
    ensures Expand(env, s) == s
  {
    NotFoundWithout(s, "${", 0);
  }
}
