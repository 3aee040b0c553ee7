/**
 * On which environments the expansion loop stops for every text: three conditions on the characters
 * of the values, and, for values written in the reference syntax, an exact one.
 */
module EnvStops {
  import opened Wrappers
  import opened Strings
  import opened EnvExpand
  import Chains

  lemma {:induction false} StopsWithout(env: Env, s: string, c: char)
    requires Lacks(env, c) && c in "${}"
    ensures Stops(env, s)
    decreases Count(s, c)
  {
    if Round(env, s).Some? {
      RoundUses(env, s, c);
      StopsWithout(env, Round(env, s).value, c);
    }
    StepBack(env, s);
  }

  /** The loop stops on every text when no value contains a dollar sign, or none an opening, or none a closing brace. */
  lemma StopsOnEveryText(env: Env, s: string)
    requires Lacks(env, '$') || Lacks(env, '{') || Lacks(env, '}')
    ensures Stops(env, s)
  {
    StopsWithout(env, s, if Lacks(env, '$') then '$' else if Lacks(env, '{') then '{' else '}');
  }

  // ---- Values in the reference syntax --------------------------------------

  /** The values of an environment as their author reads them. */
  type Settings = string -> Option<seq<Piece>>

  ghost function Printed(settings: Settings): Env {
    name => match settings(name) case Some(t) => Some(Print(t)) case None => None
  }

  /** No character of a reference. */
  ghost predicate Dull(s: string) {
    '$' !in s && '{' !in s && '}' !in s
  }

  ghost predicate TidyPiece(p: Piece) {
    match p
    case Text(text) => Dull(text)
    case Var(name) => Plain(name) && ':' !in name
    case VarOr(name, default) =>
      Plain(name) && ':' !in name && forall i :: 0 <= i < |default| ==> default[i].Text? && Dull(default[i].text)
  }

  ghost predicate TidyText(t: seq<Piece>) {
    forall i :: 0 <= i < |t| ==> TidyPiece(t[i])
  }

  ghost predicate Tidy(settings: Settings) {
    forall name :: settings(name).Some? ==> TidyText(settings(name).value)
  }

  /** Following references from variable `name`, one comes to an end after at most `n` values. */
  ghost predicate Within(settings: Settings, name: string, n: nat)
    decreases n, 0
  {
    match settings(name)
    case None => true
    case Some(t) => n > 0 && TextWithin(settings, t, n - 1)
  }

  ghost predicate TextWithin(settings: Settings, t: seq<Piece>, n: nat)
    decreases n, 1
  {
    forall i :: 0 <= i < |t| && !t[i].Text? ==> Within(settings, t[i].name, n)
  }

  lemma {:induction false} WithinMore(settings: Settings, name: string, n: nat)
    requires Within(settings, name, n)
    ensures Within(settings, name, n + 1)
    decreases n
  {
    if settings(name).Some? {
      var t := settings(name).value;
      forall i | 0 <= i < |t| && !t[i].Text?
        ensures Within(settings, t[i].name, n)
      {
        WithinMore(settings, t[i].name, n - 1);
      }
    }
  }

  // ---- One round -----------------------------------------------------------

  /** No reference begins in `a`. */
  ghost predicate Dead(a: string) {
    forall i :: !PairAt(a, "${", i)
  }

  lemma DeadThenDull(a: string, text: string)
    requires Dead(a) && Dull(text)
    ensures Dead(a + text)
  {
    var s := a + text;
    forall i
      ensures !PairAt(s, "${", i)
    {
      assert !PairAt(a, "${", i);
      assert 0 <= i < |s| - 1 && i + 1 >= |a| ==> s[i + 1] in text;
    }
  }

  lemma ReferenceAfter(env: Env, a: string, expr: string, b: string)
    requires Dead(a) && '}' !in expr
    ensures Round(env, a + ("${" + expr + "}") + b) == Some(a + Lookup(env, expr) + b)
  {
    var s := a + ("${" + expr + "}") + b;
    forall i | 0 <= i < |a|
      ensures !PairAt(s, "${", i)
    {
      assert !PairAt(a, "${", i);
      assert s[i] == a[i] && (i + 1 < |a| ==> s[i + 1] == a[i + 1]);
    }
    FirstPair(s, "${", |a|);
    assert s[|a|..] == ("${" + expr) + "}" + b;
    FoundAfter("${" + expr, "}", b);
    ReferenceParts(a, expr, b);
    RoundAt(env, s, |a|, |expr| + 2, Lookup(env, expr));
  }

  lemma ReferenceParts(a: string, expr: string, b: string)
    ensures
      var s := a + ("${" + expr + "}") + b;
      && s[..|a|] == a
      && s[|a| + 2..|a| + (|expr| + 2)] == expr
      && s[|a| + (|expr| + 2) + 1..] == b
  {
  }

  /** What a round puts in the place of a reference. */
  ghost function Unfolded(settings: Settings, p: Piece): seq<Piece>
    requires !p.Text?
  {
    match p
    case Var(name) => (match settings(name) case Some(t) => t case None => [])
    case VarOr(name, default) =>
      match settings(name)
      case Some(t) => if Print(t) != "" then t else default
      case None => default
  }

  lemma {:induction false} PlainDefault(default: seq<Piece>)
    requires forall i :: 0 <= i < |default| ==> default[i].Text? && Dull(default[i].text)
    ensures Dull(Print(default))
    decreases |default|
  {
    if |default| > 0 {
      PlainDefault(default[1..]);
    }
  }

  lemma UnfoldPiece(settings: Settings, a: string, p: Piece, b: string)
    requires Dead(a) && TidyPiece(p) && !p.Text?
    ensures Round(Printed(settings), a + PrintPiece(p) + b) == Some(a + Print(Unfolded(settings, p)) + b)
  {
    var env := Printed(settings);
    match p
    case Var(name) =>
      LookupPlain(env, name);
      ReferenceAfter(env, a, name, b);
    case VarOr(name, default) =>
      PlainDefault(default);
      LookupDefault(env, name, Print(default));
      var expr := name + ":-" + Print(default);
      assert PrintPiece(p) == "${" + expr + "}";
      ReferenceAfter(env, a, expr, b);
  }

  lemma Grouped(a: string, x: string, y: string, b: string)
    ensures a + (x + y) + b == a + x + (y + b) == (a + x) + y + b
  {
  }

  lemma UnfoldFirst(settings: Settings, a: string, t: seq<Piece>, b: string)
    requires Dead(a) && |t| > 0 && TidyPiece(t[0]) && !t[0].Text?
    ensures Round(Printed(settings), a + Print(t) + b) == Some(a + Print(Unfolded(settings, t[0]) + t[1..]) + b)
  {
    var rest := Print(t[1..]);
    Grouped(a, PrintPiece(t[0]), rest, b);
    UnfoldPiece(settings, a, t[0], rest + b);
    PrintConcat(Unfolded(settings, t[0]), t[1..]);
    Grouped(a, Print(Unfolded(settings, t[0])), rest, b);
  }

  // ---- Stopping needs an end of references ---------------------------------

  lemma {:induction false} PrintsNothing(t: seq<Piece>)
    requires Print(t) == ""
    ensures forall i :: 0 <= i < |t| ==> t[i].Text?
    decreases |t|
  {
    if |t| > 0 {
      assert |PrintPiece(t[0])| == 0;
      PrintsNothing(t[1..]);
    }
  }

  lemma UnfoldedEnds(settings: Settings, p: Piece, k: nat)
    requires !p.Text? && TextWithin(settings, Unfolded(settings, p), k)
    ensures Within(settings, p.name, k + 1)
  {
    if settings(p.name).Some? && Print(settings(p.name).value) == "" {
      PrintsNothing(settings(p.name).value);
    }
  }

  lemma {:induction false} StoppedTextEnds(settings: Settings, a: string, t: seq<Piece>, b: string, k: nat)
    requires Tidy(settings) && Dead(a) && TidyText(t)
    requires StopsIn(Printed(settings), a + Print(t) + b, k)
    ensures TextWithin(settings, t, k)
    decreases k, |t|
  {
    if |t| == 0 {
    } else if t[0].Text? {
      assert Print(t) == t[0].text + Print(t[1..]);
      Grouped(a, t[0].text, Print(t[1..]), b);
      DeadThenDull(a, t[0].text);
      StoppedTextEnds(settings, a + t[0].text, t[1..], b, k);
      FirstAndRest(settings, t, k);
    } else {
      var u := Unfolded(settings, t[0]);
      UnfoldFirst(settings, a, t, b);
      UnfoldedIsTidy(settings, t[0]);
      StoppedTextEnds(settings, a, u + t[1..], b, k - 1);
      BothParts(settings, u, t[1..], k - 1);
      UnfoldedEnds(settings, t[0], k - 1);
      FirstAndRest(settings, t, k);
    }
  }

  lemma UnfoldedIsTidy(settings: Settings, p: Piece)
    requires Tidy(settings) && TidyPiece(p) && !p.Text?
    ensures TidyText(Unfolded(settings, p))
  {
  }

  lemma FirstAndRest(settings: Settings, t: seq<Piece>, k: nat)
    requires |t| > 0 && (!t[0].Text? ==> Within(settings, t[0].name, k)) && TextWithin(settings, t[1..], k)
    ensures TextWithin(settings, t, k)
  {
    forall i | 0 <= i < |t| && !t[i].Text?
      ensures Within(settings, t[i].name, k)
    {
      assert i > 0 ==> t[i] == t[1..][i - 1];
    }
  }

  lemma BothParts(settings: Settings, u: seq<Piece>, rest: seq<Piece>, k: nat)
    requires TextWithin(settings, u + rest, k)
    ensures TextWithin(settings, u, k) && TextWithin(settings, rest, k + 1)
  {
    forall i | 0 <= i < |u| && !u[i].Text?
      ensures Within(settings, u[i].name, k)
    {
      assert (u + rest)[i] == u[i];
    }
    forall i | 0 <= i < |rest| && !rest[i].Text?
      ensures Within(settings, rest[i].name, k + 1)
    {
      assert (u + rest)[|u| + i] == rest[i];
      WithinMore(settings, rest[i].name, k);
    }
  }

  // ---- And an end of references is enough ----------------------------------

  /** What is left of a text when all its references are gone. */
  ghost function Settled(settings: Settings, t: seq<Piece>, n: nat): (text: string)
    requires TextWithin(settings, t, n)
    decreases n, |t|
  {
    if |t| == 0 then ""
    else SettledPiece(settings, t, n) + Settled(settings, t[1..], n)
  }

  ghost function SettledPiece(settings: Settings, t: seq<Piece>, n: nat): (text: string)
    requires TextWithin(settings, t, n) && |t| > 0
    decreases n, |t|, 0
  {
    match t[0]
    case Text(text) => text
    case _ =>
      assert Within(settings, t[0].name, n);
      if settings(t[0].name).Some? && Unfolded(settings, t[0]) == settings(t[0].name).value
      then Settled(settings, settings(t[0].name).value, n - 1)
      else Print(Unfolded(settings, t[0]))
  }

  lemma {:induction false} SettledIsDull(settings: Settings, t: seq<Piece>, n: nat)
    requires Tidy(settings) && TidyText(t) && TextWithin(settings, t, n)
    ensures Dull(Settled(settings, t, n))
    ensures |t| > 0 ==> Dull(SettledPiece(settings, t, n))
    decreases n, |t|
  {
    if |t| > 0 {
      SettledIsDull(settings, t[1..], n);
      if !t[0].Text? {
        if settings(t[0].name).Some? && Unfolded(settings, t[0]) == settings(t[0].name).value {
          SettledIsDull(settings, settings(t[0].name).value, n - 1);
        } else if t[0].VarOr? {
          PlainDefault(t[0].default);
        }
      }
    }
  }

  /** A text of the syntax can be replaced by what is left of it, wherever it stands. */
  lemma {:induction false} SettledStops(settings: Settings, a: string, t: seq<Piece>, b: string, n: nat)
    requires Tidy(settings) && Dead(a) && TidyText(t) && TextWithin(settings, t, n)
    requires Stops(Printed(settings), a + Settled(settings, t, n) + b)
    ensures Stops(Printed(settings), a + Print(t) + b)
    decreases n, |t|
  {
    if |t| > 0 {
      var first := SettledPiece(settings, t, n);
      SettledIsDull(settings, t, n);
      DeadThenDull(a, first);
      Grouped(a, first, Settled(settings, t[1..], n), b);
      SettledStops(settings, a + first, t[1..], b, n);
      Grouped(a, first, Print(t[1..]), b);
      FirstStops(settings, a, t, Print(t[1..]) + b, n);
      Grouped(a, PrintPiece(t[0]), Print(t[1..]), b);
    }
  }

  lemma {:induction false} FirstStops(settings: Settings, a: string, t: seq<Piece>, b: string, n: nat)
    requires Tidy(settings) && Dead(a) && TidyText(t) && TextWithin(settings, t, n) && |t| > 0
    requires Stops(Printed(settings), a + SettledPiece(settings, t, n) + b)
    ensures Stops(Printed(settings), a + PrintPiece(t[0]) + b)
    decreases n, |t|, 0
  {
    if !t[0].Text? {
      if settings(t[0].name).Some? && Unfolded(settings, t[0]) == settings(t[0].name).value {
        SettledStops(settings, a, settings(t[0].name).value, b, n - 1);
      }
      UnfoldPiece(settings, a, t[0], b);
      StepBack(Printed(settings), a + PrintPiece(t[0]) + b);
    }
  }

  ghost predicate Ends(settings: Settings, name: string) {
    exists n: nat :: Within(settings, name, n)
  }

  /** A round on any text looks up a variable, or keeps a part of the text. */
  lemma FirstRound(env: Env, s: string) returns (a: string, v: string, b: string)
    requires Round(env, s).Some?
    ensures Dead(a) && Round(env, s) == Some(a + v + b)
    ensures Count(a, '$') + Count(b, '$') < Count(s, '$')
    ensures (exists name :: env(name) == Some(v)) || Count(a + v + b, '$') < Count(s, '$')
  {
    var (i, j) := Marker(s).value;
    var c, expr, d := MarkerSplits(s);
    FindPair(s, "${");
    a, v, b := s[..i], Lookup(env, s[i + 2..i + j]), s[i + j + 1..];
    forall k
      ensures !PairAt(a, "${", k)
    {
      assert !PairAt(s, "${", k) || k >= i;
    }
    RoundCounts(env, s, i, j);
  }

  lemma RoundCounts(env: Env, s: string, i: nat, j: nat)
    requires Marker(s) == Some((i, j))
    ensures
      var a, v, b := s[..i], Lookup(env, s[i + 2..i + j]), s[i + j + 1..];
      && Count(a, '$') + Count(b, '$') < Count(s, '$')
      && ((exists name :: env(name) == Some(v)) || Count(a + v + b, '$') < Count(s, '$'))
  {
    var a, expr, b := s[..i], s[i + 2..i + j], s[i + j + 1..];
    var v := Lookup(env, expr);
    FindPair(s, "${");
    BraceAt(s[i..], j);
    Cut(s, i, j);
    CountPieces(a, expr, b, '$');
    CountConcat(a + v, b, '$');
    CountConcat(a, v, '$');
    LookupOrPart(env, expr);
  }

  lemma LookupOrPart(env: Env, expr: string)
    ensures (exists name :: env(name) == Some(Lookup(env, expr))) || Count(Lookup(env, expr), '$') <= Count(expr, '$')
  {
    var v := Lookup(env, expr);
    match SplitOnce(expr, ":-") {
      case Some((name, default)) =>
        if env(name) != Some(v) {
          var k := |expr| - |default|;
          assert expr == expr[..k] + default;
          CountConcat(expr[..k], default, '$');
        }
      case None =>
        assert env(expr) == Some(v) || v == "";
    }
  }

  lemma {:induction false} AllEndStops(settings: Settings, s: string)
    requires Tidy(settings) && forall name :: Ends(settings, name)
    ensures Stops(Printed(settings), s)
    decreases Count(s, '$')
  {
    var env := Printed(settings);
    if Round(env, s).Some? {
      var a, v, b := FirstRound(env, s);
      if name :| env(name) == Some(v) {
        assert Ends(settings, name);
        var n: nat :| Within(settings, name, n);
        var t := settings(name).value;
        var left := Settled(settings, t, n - 1);
        SettledIsDull(settings, t, n - 1);
        CountZero(left, '$');
        CountConcat(a + left, b, '$');
        CountConcat(a, left, '$');
        AllEndStops(settings, a + left + b);
        SettledStops(settings, a, t, b, n - 1);
      } else {
        AllEndStops(settings, a + v + b);
      }
    }
    StepBack(env, s);
  }

  lemma StopsThenEnds(settings: Settings, name: string)
    requires Tidy(settings) && (forall s :: Stops(Printed(settings), s))
    ensures Ends(settings, name)
  {
    match settings(name) {
      case None => assert Within(settings, name, 0);
      case Some(t) =>
        assert Stops(Printed(settings), Print(t));
        var k: nat :| StopsIn(Printed(settings), Print(t), k);
        assert "" + Print(t) + "" == Print(t);
        StoppedTextEnds(settings, "", t, "", k);
        assert Within(settings, name, k + 1);
    }
  }

  // ---- Finitely many variables ---------------------------------------------

  ghost predicate OnlySets(settings: Settings, names: set<string>) {
    forall name :: settings(name).Some? ==> name in names
  }

  ghost function Level(settings: Settings, names: set<string>, n: nat): set<string> {
    set name | name in names && Within(settings, name, n)
  }

  lemma {:induction false} LevelStays(settings: Settings, names: set<string>, n: nat, m: nat, name: string)
    requires OnlySets(settings, names) && Level(settings, names, n) == Level(settings, names, n + 1)
    requires n <= m && Within(settings, name, m)
    ensures Within(settings, name, n)
    decreases m
  {
    if m > n && settings(name).Some? {
      var t := settings(name).value;
      forall i | 0 <= i < |t| && !t[i].Text?
        ensures Within(settings, t[i].name, n)
      {
        LevelStays(settings, names, n, m - 1, t[i].name);
      }
      assert Within(settings, name, n + 1);
      assert name in Level(settings, names, n + 1);
    }
  }

  lemma LevelGrows(settings: Settings, names: set<string>, n: nat)
    ensures Level(settings, names, n) <= Level(settings, names, n + 1)
  {
    forall name | name in Level(settings, names, n)
      ensures Within(settings, name, n + 1)
    {
      WithinMore(settings, name, n);
    }
  }

  lemma {:induction false} WithinLater(settings: Settings, name: string, n: nat, m: nat)
    requires n <= m && Within(settings, name, n)
    ensures Within(settings, name, m)
    decreases m - n
  {
    if n < m {
      WithinMore(settings, name, n);
      WithinLater(settings, name, n + 1, m);
    }
  }

  /** With finitely many variables one follows references at most once through each of them. */
  lemma EndsWithinAll(settings: Settings, names: set<string>, name: string, m: nat)
    requires OnlySets(settings, names) && Within(settings, name, m)
    ensures Within(settings, name, |names|)
  {
    if m <= |names| {
      WithinLater(settings, name, m, |names|);
    } else {
      var level := (n: nat) => Level(settings, names, n);
      forall n: nat
        ensures level(n) <= level(n + 1) && level(n) <= names
      {
        LevelGrows(settings, names, n);
      }
      var k := Chains.StandsStill(level, names);
      LevelStays(settings, names, k, m, name);
      WithinLater(settings, name, k, |names|);
    }
  }

  /**
   * For values written in the reference syntax, and only the variables of `names` set: the loop stops on
   * every text, if and only if from no variable one can follow more references than there are
   * variables, that is, none leads into a cycle.
   */
  lemma StopsIffNoCycle(settings: Settings, names: set<string>)
    requires Tidy(settings) && OnlySets(settings, names)
    ensures (forall s :: Stops(Printed(settings), s)) <==> (forall name :: name in names ==> Within(settings, name, |names|))
  {
    if forall s :: Stops(Printed(settings), s) {
      forall name | name in names
        ensures Within(settings, name, |names|)
      {
        StopsThenEnds(settings, name);
        var n: nat :| Within(settings, name, n);
        EndsWithinAll(settings, names, name, n);
      }
    }
    if forall name :: name in names ==> Within(settings, name, |names|) {
      forall name
        ensures Ends(settings, name)
      {
        assert name in names || Within(settings, name, 0);
      }
      forall s
        ensures Stops(Printed(settings), s)
      {
        AllEndStops(settings, s);
      }
    }
  }
}
