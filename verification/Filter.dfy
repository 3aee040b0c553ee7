/**
 * The filter language (src/api.rs): an expression is recognised by an ordered search for operator
 * text, not by a parser. Numbers compare as reals, and both the reading of numbers and regular
 * expressions are parameters of the model.
 */
module Filter {
  import opened Wrappers
  import opened Strings
  import opened JsonDocument

  /** What the numeric and regular-expression libraries answer. */
  datatype Library = Library(parse: string -> Option<real>, matches: (string, string) -> bool)

  /** The payload, None when it is not JSON. */
  type Payload = Option<Json>

  function Extract(payload: Payload, path: string): Option<Json> {
    match payload
    case None => None
    case Some(json) => ResolvePath(json, path)
  }

  datatype Order = Ge | Le | Gt | Lt

  predicate Holds(o: Order, a: real, b: real) {
    match o
    case Ge => a >= b
    case Le => a <= b
    case Gt => a > b
    case Lt => a < b
  }

  function Symbol(o: Order): string {
    match o
    case Ge => ">="
    case Le => "<="
    case Gt => ">"
    case Lt => "<"
  }

  // ---- Meaning of the operators on a value ---------------------------------

  predicate Compare(lib: Library, v: Option<Json>, o: Order, expected: string) {
    match lib.parse(expected)
    case None => false
    case Some(b) =>
      match v
      case Some(Num(n)) => (match lib.parse(n) case Some(a) => Holds(o, a, b) case None => false)
      case _ => false
  }

  predicate Equals(v: Option<Json>, expected: string) {
    match v
    case Some(Str(s)) => s == expected
    case Some(Num(n)) => n == expected
    case Some(Bool(b)) => (if b then "true" else "false") == expected
    case _ => false
  }

  predicate NotEquals(v: Option<Json>, expected: string) {
    match v
    case Some(Str(s)) => s != expected
    case Some(Num(n)) => n != expected
    case Some(Bool(b)) => (if b then "true" else "false") != expected
    case Some(Null) => true
    case None => true
    case _ => true
  }

  predicate Contains(v: Option<Json>, needle: string) {
    match v
    case Some(Str(s)) => Find(s, needle).Some?
    case Some(Arr(items)) => Str(needle) in items || exists i :: 0 <= i < |items| && items[i].Num? && items[i].n == needle
    case _ => false
  }

  predicate StartsWith(v: Option<Json>, prefix: string) {
    v.Some? && v.value.Str? && prefix <= v.value.s
  }

  predicate EndsWith(v: Option<Json>, suffix: string) {
    v.Some? && v.value.Str? && StripSuffix(v.value.s, suffix).Some?
  }

  predicate Matches(lib: Library, v: Option<Json>, pattern: string) {
    v.Some? && v.value.Str? && lib.matches(pattern, v.value.s)
  }

  predicate In(v: Option<Json>, values: seq<string>) {
    match v
    case Some(Str(s)) => s in values
    case Some(Num(n)) => n in values
    case _ => false
  }

  predicate Truthy(lib: Library, v: Option<Json>) {
    match v
    case None => false
    case Some(Null) => false
    case Some(Bool(b)) => b
    case Some(Str(s)) => s != ""
    case Some(Num(n)) => (match lib.parse(n) case Some(f) => f != 0.0 case None => false)
    case _ => true
  }

  // ---- The evaluator -------------------------------------------------------

  function Literal(value: string): string {
    TrimMatches(Trim(value), '"')
  }

  function Literals(texts: seq<string>): (values: seq<string>)
    ensures |values| == |texts|
    ensures forall i :: 0 <= i < |texts| ==> values[i] == Literal(texts[i])
  {
    if |texts| == 0 then [] else [Literal(texts[0])] + Literals(texts[1..])
  }

  /** The text of a list, without its brackets. */
  function Bracketed(text: string): Option<string> {
    match StripPrefix(text, "[")
    case None => None
    case Some(rest) => StripSuffix(rest, "]")
  }

  lemma {:induction false} TrimShortens(s: string)
    ensures |Trim(s)| <= |s|
  {
    TrimStartShortens(s);
    TrimEndShortens(TrimStart(s));
  }

  lemma {:induction false} TrimStartShortens(s: string)
    ensures |TrimStart(s)| <= |s|
  {
    if |s| > 0 && IsSpace(s[0]) {
      TrimStartShortens(s[1..]);
    }
  }

  lemma {:induction false} TrimEndShortens(s: string)
    ensures |TrimEnd(s)| <= |s|
  {
    if |s| > 0 && IsSpace(s[|s| - 1]) {
      TrimEndShortens(s[..|s| - 1]);
    }
  }

  predicate EvaluateFilter(lib: Library, payload: Payload, text: string)
    decreases |text|
  {
    var filter := Trim(text);
    TrimShortens(text);
    match StripPrefix(filter, "not ")
    case Some(inner) =>
      TrimShortens(inner);
      !EvaluateFilter(lib, payload, Trim(inner))
    case None => EvaluateExists(lib, payload, filter)
  }

  predicate EvaluateExists(lib: Library, payload: Payload, filter: string) {
    match StripSuffix(filter, " exists")
    case Some(path) => Extract(payload, Trim(path)).Some?
    case None => EvaluateOrder(lib, payload, filter)
  }

  predicate EvaluateOrder(lib: Library, payload: Payload, filter: string) {
    match SplitOnce(filter, ">=")
    case Some((path, value)) => Compare(lib, Extract(payload, Trim(path)), Ge, Literal(value))
    case None =>
      match SplitOnce(filter, "<=")
      case Some((path, value)) => Compare(lib, Extract(payload, Trim(path)), Le, Literal(value))
      case None =>
        match SplitOnce(filter, ">")
        case Some((path, value)) => Compare(lib, Extract(payload, Trim(path)), Gt, Literal(value))
        case None =>
          match SplitOnce(filter, "<")
          case Some((path, value)) => Compare(lib, Extract(payload, Trim(path)), Lt, Literal(value))
          case None => EvaluateEquality(lib, payload, filter)
  }

  predicate EvaluateEquality(lib: Library, payload: Payload, filter: string) {
    match SplitOnce(filter, "==")
    case Some((path, value)) => Equals(Extract(payload, Trim(path)), Literal(value))
    case None =>
      match SplitOnce(filter, "!=")
      case Some((path, value)) => NotEquals(Extract(payload, Trim(path)), Literal(value))
      case None => EvaluateText(lib, payload, filter)
  }

  predicate EvaluateText(lib: Library, payload: Payload, filter: string) {
    match SplitOnce(filter, " contains ")
    case Some((path, value)) => Contains(Extract(payload, Trim(path)), Literal(value))
    case None =>
      match SplitOnce(filter, " starts_with ")
      case Some((path, value)) => StartsWith(Extract(payload, Trim(path)), Literal(value))
      case None =>
        match SplitOnce(filter, " ends_with ")
        case Some((path, value)) => EndsWith(Extract(payload, Trim(path)), Literal(value))
        case None =>
          match SplitOnce(filter, " matches ")
          case Some((path, pattern)) => Matches(lib, Extract(payload, Trim(path)), Trim(pattern))
          case None => EvaluateIn(lib, payload, filter)
  }

  predicate EvaluateIn(lib: Library, payload: Payload, filter: string) {
    match SplitOnce(filter, " in ")
    case Some((path, list)) =>
      (match Bracketed(Trim(list))
       case Some(inner) => In(Extract(payload, Trim(path)), Literals(Split(inner, ',')))
       case None => Truthy(lib, Extract(payload, filter)))
    case None => Truthy(lib, Extract(payload, filter))
  }

  // ---- Filters as trees ----------------------------------------------------

  datatype Test =
    | Exists
    | Ordered(o: Order, literal: string)
    | Eq(literal: string)
    | Ne(literal: string)
    | Includes(literal: string)
    | Starts(literal: string)
    | Ends(literal: string)
    | Like(pattern: string)
    | OneOf(literals: seq<string>)
    | True

  datatype Expr = Not(inner: Expr) | On(path: string, test: Test)

  ghost predicate Meaning(lib: Library, payload: Payload, f: Expr) {
    match f
    case Not(inner) => !Meaning(lib, payload, inner)
    case On(path, test) => TestMeaning(lib, Extract(payload, path), test)
  }

  // ---- What the tests mean, apart from the evaluator -----------------------

  ghost predicate HasPart(s: string, part: string) {
    exists i, k :: 0 <= i <= k <= |s| && s[i..k] == part
  }

  ghost predicate BeginsWith(s: string, part: string) {
    exists rest :: s == part + rest
  }

  ghost predicate FinishesWith(s: string, part: string) {
    exists rest :: s == rest + part
  }

  /** The text that a scalar is compared as; null, arrays and objects equal no text. */
  ghost predicate ReadsAs(v: Json, text: string) {
    || v == Str(text)
    || (v.Num? && v.n == text)
    || (v == Bool(true) && text == "true")
    || (v == Bool(false) && text == "false")
  }

  ghost predicate TestMeaning(lib: Library, v: Option<Json>, test: Test) {
    match test
    case Exists => v != None
    case Ordered(o, literal) =>
      && v.Some? && v.value.Num?
      && lib.parse(v.value.n).Some? && lib.parse(literal).Some?
      && var a, b := lib.parse(v.value.n).value, lib.parse(literal).value;
         (match o case Ge => a >= b case Le => a <= b case Gt => a > b case Lt => a < b)
    case Eq(literal) => v.Some? && ReadsAs(v.value, literal)
    case Ne(literal) => v.None? || !ReadsAs(v.value, literal)
    case Includes(literal) =>
      && v.Some?
      && if v.value.Str? then HasPart(v.value.s, literal)
         else v.value.Arr? && exists item | item in v.value.items :: !item.Bool? && ReadsAs(item, literal)
    case Starts(literal) => v.Some? && v.value.Str? && BeginsWith(v.value.s, literal)
    case Ends(literal) => v.Some? && v.value.Str? && FinishesWith(v.value.s, literal)
    case Like(pattern) => v.Some? && v.value.Str? && lib.matches(pattern, v.value.s)
    case OneOf(literals) => v.Some? && !v.value.Bool? && exists literal | literal in literals :: ReadsAs(v.value, literal)
    case True =>
      && v != None && v != Some(Null) && v != Some(Bool(false)) && v != Some(Str(""))
      && (v.value.Num? ==> lib.parse(v.value.n) != None && lib.parse(v.value.n) != Some(0.0))
  }

  /** What the evaluator's branch for the test answers. */
  ghost predicate TestAnswer(lib: Library, v: Option<Json>, test: Test) {
    match test
    case Exists => v.Some?
    case Ordered(o, literal) => Compare(lib, v, o, literal)
    case Eq(literal) => Equals(v, literal)
    case Ne(literal) => !Equals(v, literal)
    case Includes(literal) => Contains(v, literal)
    case Starts(literal) => StartsWith(v, literal)
    case Ends(literal) => EndsWith(v, literal)
    case Like(pattern) => Matches(lib, v, pattern)
    case OneOf(literals) => In(v, literals)
    case True => Truthy(lib, v)
  }

  lemma FindsPart(s: string, part: string)
    ensures Find(s, part).Some? <==> HasPart(s, part)
  {
    FindIsLeftmost(s, part);
    if HasPart(s, part) {
      var i, k :| 0 <= i <= k <= |s| && s[i..k] == part;
      assert k == i + |part|;
      assert Occurs(s, part, i);
    }
    if Find(s, part).Some? {
      var i := Find(s, part).value;
      assert s[i..i + |part|] == part;
    }
  }

  lemma PrefixBegins(s: string, part: string)
    ensures part <= s <==> BeginsWith(s, part)
  {
    if part <= s {
      assert s == part + s[|part|..];
    }
  }

  lemma SuffixFinishes(s: string, part: string)
    ensures StripSuffix(s, part).Some? <==> FinishesWith(s, part)
  {
    if StripSuffix(s, part).Some? {
      assert s == s[..|s| - |part|] + part;
    }
    if FinishesWith(s, part) {
      var rest :| s == rest + part;
      assert s[|s| - |part|..] == part;
    }
  }

  lemma ContainsMeans(v: Option<Json>, literal: string)
    ensures Contains(v, literal) <==> TestMeaning(NEVER, v, Includes(literal))
  {
    if v.Some? && v.value.Str? {
      FindsPart(v.value.s, literal);
    } else if v.Some? && v.value.Arr? {
      var items := v.value.items;
      if i :| 0 <= i < |items| && items[i].Num? && items[i].n == literal {
        assert items[i] in items && ReadsAs(items[i], literal);
      }
      if item :| item in items && !item.Bool? && ReadsAs(item, literal) {
        var i :| 0 <= i < |items| && items[i] == item;
      }
    }
  }

  lemma InMeans(v: Option<Json>, literals: seq<string>)
    ensures In(v, literals) <==> TestMeaning(NEVER, v, OneOf(literals))
  {
    if v.Some? && v.value.Str? && v.value.s in literals {
      assert ReadsAs(v.value, v.value.s);
    } else if v.Some? && v.value.Num? && v.value.n in literals {
      assert ReadsAs(v.value, v.value.n);
    }
  }

  /** The evaluator's predicates on a value are what the tests mean. */
  lemma AnswerIsMeaning(lib: Library, v: Option<Json>, test: Test)
    ensures TestAnswer(lib, v, test) <==> TestMeaning(lib, v, test)
  {
    match test
    case Includes(literal) => ContainsMeans(v, literal);
    case Starts(literal) =>
      if v.Some? && v.value.Str? {
        PrefixBegins(v.value.s, literal);
      }
    case Ends(literal) =>
      if v.Some? && v.value.Str? {
        SuffixFinishes(v.value.s, literal);
      }
    case OneOf(literals) => InMeans(v, literals);
    case _ =>
  }

  ghost function Quoted(literal: string): string {
    "\"" + literal + "\""
  }

  ghost function PrintList(literals: seq<string>): string {
    if |literals| == 0 then ""
    else if |literals| == 1 then Quoted(literals[0])
    else Quoted(literals[0]) + ", " + PrintList(literals[1..])
  }

  /** What follows the path: the operator between spaces, and its operand. */
  ghost function Keyword(test: Test): string {
    match test
    case Exists => "exists"
    case Ordered(o, _) => Symbol(o)
    case Eq(_) => "=="
    case Ne(_) => "!="
    case Includes(_) => "contains"
    case Starts(_) => "starts_with"
    case Ends(_) => "ends_with"
    case Like(_) => "matches"
    case OneOf(_) => "in"
    case True => ""
  }

  ghost function Operand(test: Test): string {
    match test
    case Exists => ""
    case Like(pattern) => pattern
    case OneOf(literals) => "[" + PrintList(literals) + "]"
    case True => ""
    case _ => Quoted(test.literal)
  }

  ghost function PrintTest(path: string, test: Test): string {
    if test.True? then path
    else if test.Exists? then path + " exists"
    else path + (" " + Keyword(test) + " ") + Operand(test)
  }

  ghost function Print(f: Expr): string {
    match f
    case Not(inner) => "not " + Print(inner)
    case On(path, test) => PrintTest(path, test)
  }

  ghost predicate PlainChar(c: char) {
    !IsSpace(c) && c !in "\",[]<>=!"
  }

  ghost predicate PlainText(s: string) {
    forall i :: 0 <= i < |s| ==> PlainChar(s[i])
  }

  ghost predicate WrittenPlainly(test: Test) {
    match test
    case Exists => true
    case Like(pattern) => PlainText(pattern) && pattern != ""
    case OneOf(literals) => forall i :: 0 <= i < |literals| ==> PlainText(literals[i])
    case True => true
    case _ => PlainText(test.literal)
  }

  /** The two tests that the evaluator misreads: a pattern that is the keyword, and an empty list. */
  ghost predicate Readable(test: Test) {
    test != Like("exists") && test != OneOf([])
  }

  ghost predicate PlainTest(test: Test) {
    WrittenPlainly(test) && Readable(test)
  }

  ghost predicate PlainFilter(f: Expr) {
    match f
    case Not(inner) => PlainFilter(inner)
    case On(path, test) => PlainText(path) && |path| >= 2 && path[..2] == "$." && WrittenPlainly(test)
  }

  ghost predicate ReadableFilter(f: Expr) {
    match f
    case Not(inner) => ReadableFilter(inner)
    case On(_, test) => Readable(test)
  }

  // ---- Searching printed filters -------------------------------------------

  lemma PlainLacks(s: string, c: char)
    requires PlainText(s) && !PlainChar(c)
    ensures c !in s
  {
  }

  lemma PathTrims(path: string)
    requires PlainText(path) && |path| > 0
    ensures Trim(path) == path && Trim(path + " ") == path
  {
    TrimKeeps(path);
    TrimOneSpace(path);
  }

  lemma LiteralQuoted(literal: string)
    requires PlainText(literal)
    ensures Literal(Quoted(literal)) == literal && Literal(" " + Quoted(literal)) == literal
  {
    var q := Quoted(literal);
    PlainLacks(literal, '"');
    TrimKeeps(q);
    TrimOneSpace(q);
    Unquoted(literal);
  }

  /** An operand that cannot be mistaken for an operator word: it has no space, or only list spaces. */
  ghost predicate NoWord(operand: string) {
    && (' ' !in operand || operand[0] in "\"[")
    && forall m :: 0 <= m < |operand| && operand[m] == ' ' ==> m + 1 < |operand| && operand[m + 1] == '"'
  }

  /** Of the words between spaces only the operator's own is found. */
  lemma NoOtherKeyword(path: string, k: string, operand: string, w: string)
    requires ' ' !in path && ' ' !in k && ' ' !in w && |w| > 0 && k != w && w[0] !in "\"[" && NoWord(operand)
    ensures Find(path + (" " + k + " ") + operand, " " + w + " ") == None
  {
    var s, pattern := path + (" " + k + " ") + operand, " " + w + " ";
    FindIsLeftmost(s, pattern);
    if i :| Occurs(s, pattern, i) {
      NotOccursWord(path, k, operand, w, i);
    }
  }

  lemma NotOccursWord(path: string, k: string, operand: string, w: string, i: int)
    requires ' ' !in path && ' ' !in k && ' ' !in w && |w| > 0 && k != w && w[0] !in "\"[" && NoWord(operand)
    ensures !Occurs(path + (" " + k + " ") + operand, " " + w + " ", i)
  {
    var s, pattern := path + (" " + k + " ") + operand, " " + w + " ";
    if Occurs(s, pattern, i) {
      Spelled(s, w, i);
      WordPosition(path, k, operand, w, i);
    }
  }

  lemma Spelled(s: string, w: string, i: int)
    requires Occurs(s, " " + w + " ", i)
    ensures s[i] == ' ' && s[i + |w| + 1] == ' ' && forall j :: 0 <= j < |w| ==> s[i + 1 + j] == w[j]
  {
    var t := s[i..i + |w| + 2];
    assert t == " " + w + " ";
    assert t[0] == ' ' && t[|w| + 1] == ' ';
    forall j | 0 <= j < |w|
      ensures s[i + 1 + j] == w[j]
    {
      assert t[1 + j] == w[j];
    }
  }

  lemma Layout(path: string, k: string, operand: string)
    ensures
      var s := path + (" " + k + " ") + operand;
      var second := |path| + |k| + 1;
      && s[|path|] == ' ' && s[second] == ' '
      && (forall j :: 0 <= j < |path| ==> s[j] == path[j])
      && (forall j :: |path| < j < second ==> s[j] == k[j - |path| - 1])
      && (forall j :: second < j < |s| ==> s[j] == operand[j - second - 1])
  {
  }

  lemma WordWithoutSpace(s: string, w: string, i: nat)
    requires i + |w| + 2 <= |s| && ' ' !in w && forall j :: 0 <= j < |w| ==> s[i + 1 + j] == w[j]
    ensures forall j :: i < j <= i + |w| ==> s[j] == w[j - i - 1] && s[j] != ' '
  {
    forall j | i < j <= i + |w| ensures s[j] == w[j - i - 1] {
      assert s[i + 1 + (j - i - 1)] == w[j - i - 1];
    }
  }

  lemma WordPosition(path: string, k: string, operand: string, w: string, i: int)
    requires ' ' !in path && ' ' !in k && ' ' !in w && |w| > 0 && w[0] !in "\"[" && NoWord(operand)
    requires
      var s := path + (" " + k + " ") + operand;
      && 0 <= i && i + |w| + 2 <= |s|
      && s[i] == ' ' && s[i + |w| + 1] == ' '
      && forall j :: 0 <= j < |w| ==> s[i + 1 + j] == w[j]
    ensures k == w
  {
    var s := path + (" " + k + " ") + operand;
    var second := |path| + |k| + 1;
    Layout(path, k, operand);
    WordWithoutSpace(s, w, i);
    assert s[second] == ' ' && s[i + 1] == w[0];
    assert i <= second;
    assert i != second;
    assert i == |path|;
    assert |w| == |k|;
    assert forall j :: 0 <= j < |w| ==> s[i + 1 + j] == k[j];
  }

  // ---- Operators -----------------------------------------------------------

  lemma ExistsEvaluates(lib: Library, payload: Payload, path: string)
    requires PlainText(path) && |path| > 0
    ensures EvaluateExists(lib, payload, path + " exists") == Extract(payload, path).Some?
  {
    PathTrims(path);
    ExistsOf(lib, payload, path);
  }

  lemma ExistsOf(lib: Library, payload: Payload, field: string)
    requires Trim(field) == field
    ensures EvaluateExists(lib, payload, field + " exists") == Extract(payload, field).Some?
  {
    var s := field + " exists";
    assert s[|s| - 7..] == " exists" && s[..|s| - 7] == field;
  }

  /** The operators made of symbols, found with a space on either side. */
  lemma SymbolFound(path: string, symbol: string, literal: string)
    requires PlainText(path) && |path| > 0 && PlainText(literal)
    requires |symbol| > 0 && symbol[0] != ' ' && !PlainChar(symbol[0])
    ensures SplitOnce(path + (" " + symbol + " ") + Quoted(literal), symbol) == Some((path + " ", " " + Quoted(literal)))
  {
    PlainLacks(path, symbol[0]);
    FoundAfter(path + " ", symbol, " " + Quoted(literal));
    assert path + (" " + symbol + " ") + Quoted(literal) == (path + " ") + symbol + (" " + Quoted(literal));
  }

  lemma SymbolLacks(path: string, symbol: string, literal: string, c: char)
    requires PlainText(path) && PlainText(literal) && !PlainChar(c) && c !in " \"" && c !in symbol
    ensures c !in path + (" " + symbol + " ") + Quoted(literal)
  {
    PlainLacks(path, c);
    PlainLacks(literal, c);
  }

  lemma OrderEvaluates(lib: Library, payload: Payload, path: string, o: Order, literal: string)
    requires PlainText(path) && |path| > 0 && PlainText(literal)
    ensures EvaluateOrder(lib, payload, PrintTest(path, Ordered(o, literal))) == Compare(lib, Extract(payload, path), o, literal)
  {
    var s := PrintTest(path, Ordered(o, literal));
    PathTrims(path);
    LiteralQuoted(literal);
    SymbolFound(path, Symbol(o), literal);
    match o {
      case Ge =>
      case Le =>
        SymbolLacks(path, "<=", literal, '>');
        NotFoundWithout(s, ">=", 0);
      case Gt =>
        SymbolLacks(path, ">", literal, '=');
        NotFoundWithout(s, ">=", 1);
        NotFoundWithout(s, "<=", 1);
      case Lt =>
        SymbolLacks(path, "<", literal, '=');
        SymbolLacks(path, "<", literal, '>');
        NotFoundWithout(s, ">=", 1);
        NotFoundWithout(s, "<=", 1);
        NotFoundWithout(s, ">", 0);
    }
  }

  lemma NoOrder(lib: Library, payload: Payload, s: string)
    requires '<' !in s && '>' !in s
    ensures EvaluateOrder(lib, payload, s) == EvaluateEquality(lib, payload, s)
  {
    NotFoundWithout(s, ">=", 0);
    NotFoundWithout(s, "<=", 0);
    NotFoundWithout(s, ">", 0);
    NotFoundWithout(s, "<", 0);
  }

  lemma EqualsEvaluates(lib: Library, payload: Payload, path: string, literal: string)
    requires PlainText(path) && |path| > 0 && PlainText(literal)
    ensures EvaluateOrder(lib, payload, PrintTest(path, Eq(literal))) == Equals(Extract(payload, path), literal)
  {
    PathTrims(path);
    LiteralQuoted(literal);
    SymbolFound(path, "==", literal);
    SymbolLacks(path, "==", literal, '<');
    SymbolLacks(path, "==", literal, '>');
    NoOrder(lib, payload, PrintTest(path, Eq(literal)));
  }

  lemma NotEqualsEvaluates(lib: Library, payload: Payload, path: string, literal: string)
    requires PlainText(path) && |path| > 0 && PlainText(literal)
    ensures EvaluateOrder(lib, payload, PrintTest(path, Ne(literal))) == !Equals(Extract(payload, path), literal)
  {
    var s := path + (" " + "!=" + " ") + Quoted(literal);
    assert Find(s, "==") == None by {
      PlainLacks(path, '=');
      PlainLacks(literal, '=');
      assert s == path + " != " + Quoted(literal);
      NoDoubleEquals(path, Quoted(literal));
    }
    assert '<' !in s && '>' !in s by {
      SymbolLacks(path, "!=", literal, '<');
      SymbolLacks(path, "!=", literal, '>');
    }
    SymbolFound(path, "!=", literal);
    NotEqualsSplit(lib, payload, s, path, literal);
  }

  lemma NotEqualsSplit(lib: Library, payload: Payload, s: string, path: string, literal: string)
    requires PlainText(path) && |path| > 0 && PlainText(literal)
    requires '<' !in s && '>' !in s && Find(s, "==") == None
    requires SplitOnce(s, "!=") == Some((path + " ", " " + Quoted(literal)))
    ensures EvaluateOrder(lib, payload, s) == !Equals(Extract(payload, path), literal)
  {
    NoOrder(lib, payload, s);
    EqualityFallsThrough(lib, payload, s, path + " ", " " + Quoted(literal));
    PathTrims(path);
    LiteralQuoted(literal);
    NotEqualsNegates(Extract(payload, path), literal);
  }

  lemma EqualityFallsThrough(lib: Library, payload: Payload, s: string, path: string, value: string)
    requires Find(s, "==") == None && SplitOnce(s, "!=") == Some((path, value))
    ensures EvaluateEquality(lib, payload, s) == NotEquals(Extract(payload, Trim(path)), Literal(value))
  {
  }

  lemma NotEqualsNegates(v: Option<Json>, literal: string)
    ensures NotEquals(v, literal) == !Equals(v, literal)
  {
  }

  lemma NoDoubleEquals(path: string, operand: string)
    requires '=' !in path && '=' !in operand
    ensures Find(path + " != " + operand, "==") == None
  {
    var s := path + " != " + operand;
    assert forall j :: 0 <= j < |path| ==> s[j] == path[j];
    assert forall j :: |path| + 4 <= j < |s| ==> s[j] == operand[j - |path| - 4];
    NoSuchPair(s, "==");
  }

  lemma NoSymbol(lib: Library, payload: Payload, s: string)
    requires '<' !in s && '>' !in s && '=' !in s
    ensures EvaluateOrder(lib, payload, s) == EvaluateText(lib, payload, s)
  {
    NoOrder(lib, payload, s);
    NotFoundWithout(s, "==", 0);
    NotFoundWithout(s, "!=", 1);
  }

  // ---- Words ---------------------------------------------------------------

  ghost predicate IsWord(test: Test) {
    test.Includes? || test.Starts? || test.Ends? || test.Like? || test.OneOf?
  }

  /** The characters of a printed list. */
  lemma {:induction false} ListCharacters(literals: seq<string>)
    requires forall i :: 0 <= i < |literals| ==> PlainText(literals[i])
    ensures forall c :: c in PrintList(literals) ==> PlainChar(c) || c in "\", "
    ensures NoWord("[" + PrintList(literals) + "]")
    ensures |literals| > 0 ==> |PrintList(literals)| > 0 && PrintList(literals)[0] == '"'
    decreases |literals|
  {
    if |literals| > 0 {
      var first := Quoted(literals[0]);
      forall m | 0 <= m < |first| ensures first[m] != ' ' && (PlainChar(first[m]) || first[m] == '"') {
        assert 0 < m < |first| - 1 ==> first[m] == literals[0][m - 1];
      }
      if |literals| > 1 {
        ListCharacters(literals[1..]);
        ListSpaces(first, PrintList(literals[1..]));
      }
    }
  }

  lemma ListSpaces(first: string, rest: string)
    requires ' ' !in first && |rest| > 0 && rest[0] == '"' && NoWord("[" + rest + "]")
    ensures NoWord("[" + (first + ", " + rest) + "]")
  {
    var inner, s := "[" + rest + "]", "[" + (first + ", " + rest) + "]";
    var shift := |first| + 2;
    assert forall m :: 0 < m <= |first| ==> s[m] == first[m - 1];
    assert forall m :: shift < m < |s| ==> s[m] == inner[m - shift];
    forall m | 0 <= m < |s| && s[m] == ' ' ensures m + 1 < |s| && s[m + 1] == '"' {
    }
  }

  lemma OperandNoWord(test: Test)
    requires WrittenPlainly(test) && IsWord(test)
    ensures NoWord(Operand(test))
    ensures forall c :: c in Operand(test) ==> c !in "<>="
  {
    if test.OneOf? {
      ListNoWord(test.literals);
    } else if test.Like? {
      PlainNoWord(test.pattern);
    } else {
      QuotedNoWord(test.literal);
    }
  }

  lemma ListNoWord(literals: seq<string>)
    requires forall i :: 0 <= i < |literals| ==> PlainText(literals[i])
    ensures
      var list := "[" + PrintList(literals) + "]";
      NoWord(list) && forall c :: c in list ==> c !in "<>="
  {
    ListCharacters(literals);
    InBrackets(PrintList(literals));
  }

  lemma InBrackets(inner: string)
    requires forall c :: c in inner ==> PlainChar(c) || c in "\", "
    ensures forall c :: c in "[" + inner + "]" ==> c !in "<>="
  {
    forall c | c in "[" + inner + "]"
      ensures c !in "<>="
    {
      assert c == '[' || c == ']' || c in inner;
    }
  }

  lemma PlainNoWord(s: string)
    requires PlainText(s)
    ensures NoWord(s) && forall c :: c in s ==> c !in "<>="
  {
    PlainLacks(s, ' ');
  }

  lemma QuotedNoWord(literal: string)
    requires PlainText(literal)
    ensures NoWord(Quoted(literal)) && forall c :: c in Quoted(literal) ==> c !in "<>="
  {
    PlainLacks(literal, ' ');
  }

  lemma WordLacks(path: string, test: Test, c: char)
    requires PlainText(path) && WrittenPlainly(test) && IsWord(test) && c in "<>="
    ensures c !in PrintTest(path, test)
  {
    OperandNoWord(test);
    PlainLacks(path, c);
    KeywordLacks(test, c);
  }

  lemma KeywordLacks(test: Test, c: char)
    requires IsWord(test) && c in "<>="
    ensures c !in " " + Keyword(test) + " "
  {
  }

  lemma OtherWordNotFound(path: string, test: Test, w: string)
    requires PlainText(path) && WrittenPlainly(test) && IsWord(test)
    requires ' ' !in w && |w| > 0 && w[0] !in "\"[" && w != Keyword(test)
    ensures SplitOnce(PrintTest(path, test), " " + w + " ") == None
  {
    OperandNoWord(test);
    PlainLacks(path, ' ');
    NoOtherKeyword(path, Keyword(test), Operand(test), w);
  }

  lemma OwnWordFound(path: string, test: Test)
    requires PlainText(path) && WrittenPlainly(test) && IsWord(test)
    ensures SplitOnce(PrintTest(path, test), " " + Keyword(test) + " ") == Some((path, Operand(test)))
  {
    PlainLacks(path, ' ');
    FoundAfter(path, " " + Keyword(test) + " ", Operand(test));
  }

  lemma ListPrepends(first: string, rest: string, literals: seq<string>)
    requires ',' !in first && |literals| > 0 && Literal(first) == literals[0]
    requires Literals(Split(rest, ',')) == literals[1..]
    ensures Literals(Split(first + [','] + rest, ',')) == literals
  {
    SplitAppend(first, ',', rest);
    var parts := Split(rest, ',');
    assert ([first] + parts)[1..] == parts;
    assert literals == [literals[0]] + literals[1..];
  }

  lemma FirstReads(literal: string, lead: string)
    requires (lead == "" || lead == " ") && PlainText(literal)
    ensures ',' !in lead + Quoted(literal) && Literal(lead + Quoted(literal)) == literal
    ensures Literals(Split(lead + Quoted(literal), ',')) == [literal]
  {
    var first := lead + Quoted(literal);
    PlainLacks(literal, ',');
    LiteralQuoted(literal);
    assert "" + Quoted(literal) == Quoted(literal);
    SplitSingle(first, ',');
    assert [first][1..] == [];
  }

  lemma ListPieces(first: string, rest: string, lead: string)
    ensures lead + (first + ", " + rest) == lead + first + [','] + (" " + rest)
  {
  }

  lemma {:induction false} ListReads(literals: seq<string>, lead: string)
    requires |literals| > 0 && (lead == "" || lead == " ")
    requires forall i :: 0 <= i < |literals| ==> PlainText(literals[i])
    ensures Literals(Split(lead + PrintList(literals), ',')) == literals
    decreases |literals|
  {
    FirstReads(literals[0], lead);
    if |literals| == 1 {
      assert literals == [literals[0]];
    } else {
      var tail := literals[1..];
      ListReads(tail, " ");
      ListPrepends(lead + Quoted(literals[0]), " " + PrintList(tail), literals);
      ListPieces(Quoted(literals[0]), PrintList(tail), lead);
    }
  }

  lemma ListBracketed(literals: seq<string>)
    ensures
      var list := "[" + PrintList(literals) + "]";
      Trim(list) == list && Bracketed(list) == Some(PrintList(literals))
  {
    BracketsStrip(PrintList(literals));
  }

  lemma BracketsStrip(inner: string)
    ensures Trim("[" + inner + "]") == "[" + inner + "]" && Bracketed("[" + inner + "]") == Some(inner)
  {
    var list, rest := "[" + inner + "]", inner + "]";
    TrimKeeps(list);
    assert list[1..] == rest;
    assert rest[|rest| - 1..] == "]" && rest[..|rest| - 1] == inner;
  }

  /** Which words the ordered search finds: none before the test's own. */
  ghost predicate Searched(s: string, path: string, test: Test) {
    var own := Some((path, Operand(test)));
    && SplitOnce(s, " contains ") == (if test.Includes? then own else None)
    && (!test.Includes? ==> SplitOnce(s, " starts_with ") == (if test.Starts? then own else None))
    && (!test.Includes? && !test.Starts? ==> SplitOnce(s, " ends_with ") == (if test.Ends? then own else None))
    && (test.Like? || test.OneOf? ==> SplitOnce(s, " matches ") == (if test.Like? then own else None))
    && (test.OneOf? ==> SplitOnce(s, " in ") == own)
  }

  lemma WordSearch(path: string, test: Test)
    requires PlainText(path) && WrittenPlainly(test) && IsWord(test)
    ensures Searched(PrintTest(path, test), path, test)
  {
    OwnWordFound(path, test);
    if !test.Includes? {
      OtherWordNotFound(path, test, "contains");
      if !test.Starts? {
        OtherWordNotFound(path, test, "starts_with");
        if !test.Ends? {
          OtherWordNotFound(path, test, "ends_with");
          if !test.Like? {
            OtherWordNotFound(path, test, "matches");
          }
        }
      }
    }
    Spaced();
  }

  lemma Spaced()
    ensures " " + "contains" + " " == " contains "
    ensures " " + "starts_with" + " " == " starts_with "
    ensures " " + "ends_with" + " " == " ends_with "
    ensures " " + "matches" + " " == " matches "
    ensures " " + "in" + " " == " in "
  {
  }

  lemma InDispatch(lib: Library, payload: Payload, s: string, path: string, list: string, inner: string)
    requires SplitOnce(s, " in ") == Some((path, list)) && Trim(path) == path
    requires Trim(list) == list && Bracketed(list) == Some(inner)
    ensures EvaluateIn(lib, payload, s) == In(Extract(payload, path), Literals(Split(inner, ',')))
  {
  }

  lemma WordDispatch(lib: Library, payload: Payload, s: string, path: string, test: Test)
    requires IsWord(test) && Trim(path) == path && Searched(s, path, test)
    requires test.Includes? || test.Starts? || test.Ends? ==> Literal(Operand(test)) == test.literal
    requires test.Like? ==> Trim(test.pattern) == test.pattern
    requires test.OneOf? ==>
      && Trim(Operand(test)) == Operand(test)
      && Bracketed(Operand(test)) == Some(PrintList(test.literals))
      && Literals(Split(PrintList(test.literals), ',')) == test.literals
    ensures EvaluateText(lib, payload, s) == TestAnswer(lib, Extract(payload, path), test)
  {
    if test.OneOf? {
      InDispatch(lib, payload, s, path, Operand(test), PrintList(test.literals));
      assert EvaluateText(lib, payload, s) == EvaluateIn(lib, payload, s);
    } else if test.Like? {
      assert EvaluateText(lib, payload, s) == Matches(lib, Extract(payload, path), test.pattern);
    } else if test.Ends? {
      assert EvaluateText(lib, payload, s) == EndsWith(Extract(payload, path), test.literal);
    }
  }

  lemma OperandReads(test: Test)
    requires PlainTest(test) && IsWord(test)
    ensures test.Includes? || test.Starts? || test.Ends? ==> Literal(Operand(test)) == test.literal
    ensures test.Like? ==> Trim(test.pattern) == test.pattern
    ensures test.OneOf? ==>
      && Trim(Operand(test)) == Operand(test)
      && Bracketed(Operand(test)) == Some(PrintList(test.literals))
      && Literals(Split(PrintList(test.literals), ',')) == test.literals
  {
    if test.OneOf? {
      ListBracketed(test.literals);
      ListReads(test.literals, "");
      assert "" + PrintList(test.literals) == PrintList(test.literals);
    } else if test.Like? {
      TrimKeeps(test.pattern);
    } else {
      LiteralQuoted(test.literal);
    }
  }

  lemma WordEvaluates(lib: Library, payload: Payload, path: string, test: Test)
    requires PlainText(path) && |path| > 0 && PlainTest(test) && IsWord(test)
    ensures EvaluateOrder(lib, payload, PrintTest(path, test)) == TestAnswer(lib, Extract(payload, path), test)
  {
    var s := PrintTest(path, test);
    WordLacks(path, test, '<');
    WordLacks(path, test, '>');
    WordLacks(path, test, '=');
    NoSymbol(lib, payload, s);
    PathTrims(path);
    OperandReads(test);
    WordSearch(path, test);
    WordDispatch(lib, payload, s, path, test);
  }

  // ---- The language --------------------------------------------------------

  lemma NoExists(s: string)
    requires |s| > 0 && s[|s| - 1] in "\"]"
    ensures StripSuffix(s, " exists") == None
  {
    if |s| >= 7 {
      assert s[|s| - 7..][6] == s[|s| - 1];
    }
  }

  lemma NoExistsWithoutSpace(s: string)
    requires ' ' !in s
    ensures StripSuffix(s, " exists") == None
  {
    if |s| >= 7 {
      assert s[|s| - 7..][0] == s[|s| - 7];
    }
  }

  /** A pattern stands at the end without quotes, so `exists` itself would be taken for the keyword. */
  lemma NoExistsPattern(before: string, pattern: string)
    requires ' ' !in pattern && pattern != "exists"
    ensures StripSuffix(before + " " + pattern, " exists") == None
  {
    var s, n := before + " " + pattern, |pattern|;
    if |s| >= 7 {
      var tail := s[|s| - 7..];
      assert n >= 7 ==> tail[0] == pattern[n - 7];
      assert n < 7 ==> tail[6 - n] == ' ';
      assert n == 6 ==> tail[1..] == pattern;
    }
  }

  lemma PatternNotExists(path: string, pattern: string)
    requires PlainText(pattern) && pattern != "exists"
    ensures StripSuffix(PrintTest(path, Like(pattern)), " exists") == None
  {
    PlainLacks(pattern, ' ');
    NoExistsPattern(path + " matches", pattern);
    assert " " + "matches" + " " == " matches" + " ";
    assert path + (" matches" + " ") + pattern == path + " matches" + " " + pattern;
  }

  lemma TestNotExists(path: string, test: Test)
    requires PlainText(path) && PlainTest(test) && !test.Exists?
    ensures StripSuffix(PrintTest(path, test), " exists") == None
  {
    if test.True? {
      PlainLacks(path, ' ');
      NoExistsWithoutSpace(path);
    } else if test.Like? {
      PatternNotExists(path, test.pattern);
    } else {
      OperandNotExists(path, test);
    }
  }

  lemma OperandNotExists(path: string, test: Test)
    requires !test.Exists? && !test.True? && !test.Like?
    ensures StripSuffix(PrintTest(path, test), " exists") == None
  {
    var s := PrintTest(path, test);
    assert Operand(test)[|Operand(test)| - 1] == s[|s| - 1];
    NoExists(s);
  }

  lemma TruthEvaluates(lib: Library, payload: Payload, path: string)
    requires PlainText(path)
    ensures EvaluateOrder(lib, payload, path) == Truthy(lib, Extract(payload, path))
  {
    PlainLacks(path, '<');
    PlainLacks(path, '>');
    PlainLacks(path, '=');
    PlainLacks(path, ' ');
    NoSymbol(lib, payload, path);
    NotFoundWithout(path, " contains ", 0);
    NotFoundWithout(path, " starts_with ", 0);
    NotFoundWithout(path, " ends_with ", 0);
    NotFoundWithout(path, " matches ", 0);
    NotFoundWithout(path, " in ", 0);
  }

  lemma TestAnswers(lib: Library, payload: Payload, path: string, test: Test)
    requires PlainText(path) && |path| > 0 && PlainTest(test)
    ensures EvaluateExists(lib, payload, PrintTest(path, test)) == TestAnswer(lib, Extract(payload, path), test)
  {
    match test {
      case Exists => ExistsEvaluates(lib, payload, path);
      case Ordered(o, literal) =>
        TestNotExists(path, test);
        OrderEvaluates(lib, payload, path, o, literal);
      case Eq(literal) =>
        TestNotExists(path, test);
        EqualsEvaluates(lib, payload, path, literal);
      case Ne(literal) =>
        TestNotExists(path, test);
        NotEqualsEvaluates(lib, payload, path, literal);
      case True =>
        TestNotExists(path, test);
        TruthEvaluates(lib, payload, path);
      case _ =>
        TestNotExists(path, test);
        WordEvaluates(lib, payload, path, test);
    }
  }

  lemma TestEvaluates(lib: Library, payload: Payload, path: string, test: Test)
    requires PlainText(path) && |path| > 0 && PlainTest(test)
    ensures EvaluateExists(lib, payload, PrintTest(path, test)) == TestMeaning(lib, Extract(payload, path), test)
  {
    TestAnswers(lib, payload, path, test);
    AnswerIsMeaning(lib, Extract(payload, path), test);
  }

  /** How a printed filter begins and ends. */
  lemma {:induction false} PrintEnds(f: Expr)
    requires PlainFilter(f)
    ensures |Print(f)| > 0 && !IsSpace(Print(f)[0]) && !IsSpace(Print(f)[|Print(f)| - 1])
    ensures f.On? ==> Print(f)[0] == '$'
  {
    match f
    case Not(inner) => PrintEnds(inner);
    case On(path, test) =>
      var s := Print(f);
      assert s[0] == path[..2][0];
      if test.Like? {
        assert s[|s| - 1] == test.pattern[|test.pattern| - 1];
      } else if !test.True? && !test.Exists? {
        assert s[|s| - 1] == Operand(test)[|Operand(test)| - 1];
      }
  }

  lemma EvaluatesNot(lib: Library, payload: Payload, inner: Expr)
    requires PlainFilter(inner)
    ensures EvaluateFilter(lib, payload, Print(Not(inner))) == !EvaluateFilter(lib, payload, Print(inner))
  {
    var s := Print(Not(inner));
    PrintEnds(Not(inner));
    PrintEnds(inner);
    TrimKeeps(s);
    TrimKeeps(Print(inner));
    assert s[4..] == Print(inner);
  }

  lemma EvaluatesTest(lib: Library, payload: Payload, path: string, test: Test)
    requires PlainFilter(On(path, test))
    ensures EvaluateFilter(lib, payload, PrintTest(path, test)) == EvaluateExists(lib, payload, PrintTest(path, test))
  {
    var s := PrintTest(path, test);
    PrintEnds(On(path, test));
    TrimKeeps(s);
    assert s[0] == '$' && "not "[0] == 'n';
  }

  /** The ordered search reads a plain filter as what it means, on every payload. */
  lemma {:induction false} PrintedFilterEvaluates(lib: Library, payload: Payload, f: Expr)
    requires PlainFilter(f) && ReadableFilter(f)
    ensures EvaluateFilter(lib, payload, Print(f)) == Meaning(lib, payload, f)
    decreases f
  {
    match f
    case Not(inner) =>
      EvaluatesNot(lib, payload, inner);
      PrintedFilterEvaluates(lib, payload, inner);
    case On(path, test) =>
      EvaluatesTest(lib, payload, path, test);
      TestEvaluates(lib, payload, path, test);
  }

  /** Blanks around a filter change nothing. */
  lemma BlanksAround(lib: Library, payload: Payload, left: string, f: Expr, right: string)
    requires PlainFilter(f) && ReadableFilter(f) && forall c | c in left + right :: c in BLANKS
    ensures EvaluateFilter(lib, payload, left + Print(f) + right) == Meaning(lib, payload, f)
  {
    var s := Print(f);
    PrintEnds(f);
    SpaceIsBlank(s[0]);
    SpaceIsBlank(s[|s| - 1]);
    TrimStrips(left, s, right);
    TrimKeeps(s);
    PrintedFilterEvaluates(lib, payload, f);
  }

  // ---- Exactly when --------------------------------------------------------

  ghost function Nest(parts: seq<string>, v: Json): Json
    decreases |parts|
  {
    if |parts| == 0 then v else Obj([Member(parts[0], Nest(parts[1..], v))])
  }

  lemma {:induction false} NestWalks(parts: seq<string>, v: Json)
    ensures Walk(Nest(parts, v), parts) == Some(v)
    decreases |parts|
  {
    if |parts| > 0 {
      NestWalks(parts[1..], v);
    }
  }

  const NEVER := Library(_ => None, (_, _) => false)

  lemma PatternText(path: string)
    ensures PrintTest(path, Like("exists")) == path + " matches" + " exists"
  {
    assert " " + "matches" + " " == " matches ";
    assert " matches " + "exists" == " matches" + " exists";
  }

  /** A pattern spelled like the keyword tests for the field `<path> matches` instead. */
  lemma PatternMisread(lib: Library, payload: Payload, path: string)
    requires PlainFilter(On(path, Like("exists")))
    ensures EvaluateFilter(lib, payload, PrintTest(path, Like("exists"))) == Extract(payload, path + " matches").Some?
  {
    var field := path + " matches";
    EvaluatesTest(lib, payload, path, Like("exists"));
    PatternText(path);
    assert Trim(field) == field by {
      assert path[0] == path[..2][0] && field[0] == path[0] && field[|field| - 1] == 's';
      TrimKeeps(field);
    }
    ExistsOf(lib, payload, field);
  }

  lemma OnlyEmptyText(value: Option<Json>)
    ensures In(value, [""]) <==> value == Some(Str(""))
  {
    if value.Some? && value.value.Num? {
      assert NumberText(value.value.n);
    }
  }

  /** An empty list holds the empty text. */
  lemma EmptyListMisread(lib: Library, payload: Payload, path: string)
    requires PlainFilter(On(path, OneOf([])))
    ensures EvaluateFilter(lib, payload, PrintTest(path, OneOf([]))) == (Extract(payload, path) == Some(Str("")))
  {
    EmptyListReading(lib, payload, path);
    OnlyEmptyText(Extract(payload, path));
  }

  lemma EmptyListReading(lib: Library, payload: Payload, path: string)
    requires PlainFilter(On(path, OneOf([])))
    ensures EvaluateFilter(lib, payload, PrintTest(path, OneOf([]))) == In(Extract(payload, path), [""])
  {
    var test := OneOf([]);
    var s := PrintTest(path, test);
    EvaluatesTest(lib, payload, path, test);
    assert Operand(test) == "[]";
    NoExists(s);
    assert EvaluateOrder(lib, payload, s) == EvaluateText(lib, payload, s) by {
      WordLacks(path, test, '<');
      WordLacks(path, test, '>');
      WordLacks(path, test, '=');
      NoSymbol(lib, payload, s);
    }
    WordSearch(path, test);
    PathTrims(path);
    SearchedList(s, path, []);
    EmptyListReads();
    ListFound(lib, payload, s, path, "[]", "");
  }

  lemma SearchedList(s: string, path: string, literals: seq<string>)
    requires Searched(s, path, OneOf(literals))
    ensures SplitOnce(s, " contains ") == None && SplitOnce(s, " starts_with ") == None && SplitOnce(s, " ends_with ") == None
    ensures SplitOnce(s, " matches ") == None && SplitOnce(s, " in ") == Some((path, "[" + PrintList(literals) + "]"))
  {
  }

  lemma ListFound(lib: Library, payload: Payload, s: string, path: string, list: string, inner: string)
    ensures
      && SplitOnce(s, " contains ") == None && SplitOnce(s, " starts_with ") == None && SplitOnce(s, " ends_with ") == None
      && SplitOnce(s, " matches ") == None && SplitOnce(s, " in ") == Some((path, list)) && Bracketed(Trim(list)) == Some(inner)
      ==> EvaluateText(lib, payload, s) == In(Extract(payload, Trim(path)), Literals(Split(inner, ',')))
  {
  }

  lemma EmptyListReads()
    ensures Trim("[]") == "[]" && Bracketed("[]") == Some("") && Literals(Split("", ',')) == [""]
  {
    TrimKeeps("[]");
    assert "[]"[1..] == "]" && "]"[0..] == "]" && "]"[..0] == "";
  }

  ghost predicate Evaluates(lib: Library, payload: Payload, f: Expr) {
    EvaluateFilter(lib, payload, Print(f)) == Meaning(lib, payload, f)
  }

  lemma {:induction false} UnreadableFails(f: Expr) returns (payload: Payload)
    requires PlainFilter(f) && !ReadableFilter(f)
    ensures !Evaluates(NEVER, payload, f)
    decreases f
  {
    match f
    case Not(inner) =>
      payload := UnreadableFails(inner);
      EvaluatesNot(NEVER, payload, inner);
    case On(path, test) =>
      if test.Like? {
        var parts := PathParts(path + " matches");
        payload := Some(Nest(parts, Null));
        NestWalks(parts, Null);
        PatternMisread(NEVER, payload, path);
      } else {
        var parts := PathParts(path);
        payload := Some(Nest(parts, Str("")));
        NestWalks(parts, Str(""));
        EmptyListMisread(NEVER, payload, path);
      }
  }

  /**
   * The ordered search is a correct reading of the language: for every plainly written filter,
   * evaluating its text gives its meaning on every payload, if and only if it does not test against
   * the pattern `exists` or the empty list.
   */
  lemma EvaluatesIffReadable(f: Expr)
    requires PlainFilter(f)
    ensures (forall lib, payload :: Evaluates(lib, payload, f)) <==> ReadableFilter(f)
  {
    if ReadableFilter(f) {
      forall lib, payload ensures Evaluates(lib, payload, f) {
        PrintedFilterEvaluates(lib, payload, f);
      }
    } else {
      var payload := UnreadableFails(f);
      assert !Evaluates(NEVER, payload, f);
    }
  }

  /** `!=` is the negation of `==` on every payload, also where there is no value or no text for it. */
  lemma NotEqualsNegatesEquals(lib: Library, payload: Payload, path: string, literal: string)
    requires PlainFilter(On(path, Eq(literal)))
    ensures EvaluateFilter(lib, payload, Print(On(path, Ne(literal)))) ==
            !EvaluateFilter(lib, payload, Print(On(path, Eq(literal))))
  {
    PrintedFilterEvaluates(lib, payload, On(path, Ne(literal)));
    PrintedFilterEvaluates(lib, payload, On(path, Eq(literal)));
  }
}
