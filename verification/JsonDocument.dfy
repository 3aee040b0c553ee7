/** JSON documents as the filters and templates read them (src/api.rs), and their compact text. */
module JsonDocument {
  import opened Wrappers
  import opened Strings

  /** A number is kept as its text, which has digits, a sign, a point and an exponent. */
  predicate NumberText(s: string) {
    s != "" && forall c :: c in s ==> '0' <= c <= '9' || c in "+-.eE"
  }

  type Number = s: string | NumberText(s) witness "0"

  datatype Json =
    | Null
    | Bool(b: bool)
    | Num(n: Number)
    | Str(s: string)
    | Arr(items: seq<Json>)
    | Obj(members: seq<Member>)

  datatype Member = Member(key: string, value: Json)

  function Get(members: seq<Member>, key: string): (v: Option<Json>)
    ensures v.Some? ==> Member(key, v.value) in members
    ensures v.None? ==> forall i :: 0 <= i < |members| ==> members[i].key != key
  {
    if |members| == 0 then None
    else if members[0].key == key then Some(members[0].value)
    else Get(members[1..], key)
  }

  /** Walks down objects only: a part never selects from an array. */
  function Walk(json: Json, parts: seq<string>): Option<Json>
    decreases |parts|
  {
    if |parts| == 0 then Some(json)
    else if !json.Obj? then None
    else match Get(json.members, parts[0])
         case None => None
         case Some(v) => Walk(v, parts[1..])
  }

  function PathParts(path: string): seq<string> {
    Split(match StripPrefix(path, "$.") case Some(p) => p case None => path, '.')
  }

  function ResolvePath(json: Json, path: string): Option<Json> {
    Walk(json, PathParts(path))
  }

  /** The loop over the parts of a path. */
  method Resolve(json: Json, path: string) returns (found: Option<Json>)
    ensures found == ResolvePath(json, path)
  {
    var parts := PathParts(path);
    var current := json;
    var i := 0;
    while i < |parts|
      invariant 0 <= i <= |parts|
      invariant Walk(json, parts) == Walk(current, parts[i..])
    {
      if !current.Obj? {
        return None;
      }
      match Get(current.members, parts[i]) {
        case None => return None;
        case Some(v) => current := v;
      }
      assert parts[i..][1..] == parts[i + 1..];
      i := i + 1;
    }
    found := Some(current);
  }

  // ---- Text ----------------------------------------------------------------

  function Hex(d: nat): char
    requires d < 16
  {
    "0123456789abcdef"[d]
  }

  function EscapeChar(c: char): string {
    if c == '"' then "\\\""
    else if c == '\\' then "\\\\"
    else if c == '\n' then "\\n"
    else if c == '\r' then "\\r"
    else if c == '\t' then "\\t"
    else if c == '\U{8}' then "\\b"
    else if c == '\U{C}' then "\\f"
    else if c < ' ' then "\\u00" + [Hex(c as int / 16), Hex(c as int % 16)]
    else [c]
  }

  /** What stands between the quotes of a JSON string. */
  function Escape(s: string): string {
    if |s| == 0 then "" else EscapeChar(s[0]) + Escape(s[1..])
  }

  function Print(v: Json): string
    decreases v, 1
  {
    match v
    case Null => "null"
    case Bool(b) => if b then "true" else "false"
    case Num(n) => n
    case Str(s) => "\"" + Escape(s) + "\""
    case Arr(items) => "[" + PrintItems(items) + "]"
    case Obj(members) => "{" + PrintMembers(members) + "}"
  }

  function PrintItems(items: seq<Json>): string
    decreases items, 0
  {
    if |items| == 0 then ""
    else if |items| == 1 then Print(items[0])
    else Print(items[0]) + "," + PrintItems(items[1..])
  }

  function PrintMember(m: Member): string
    decreases m
  {
    "\"" + Escape(m.key) + "\":" + Print(m.value)
  }

  function PrintMembers(members: seq<Member>): string
    decreases members
  {
    if |members| == 0 then ""
    else if |members| == 1 then PrintMember(members[0])
    else PrintMember(members[0]) + "," + PrintMembers(members[1..])
  }

  // ---- Braces --------------------------------------------------------------

  /** No two opening braces in a row. */
  ghost predicate NoPair(s: string) {
    forall i :: !PairAt(s, "{{", i)
  }

  ghost predicate StartsOpen(s: string) {
    |s| > 0 && s[0] == '{'
  }

  ghost predicate EndsOpen(s: string) {
    |s| > 0 && s[|s| - 1] == '{'
  }

  lemma NoPairConcat(a: string, b: string)
    requires NoPair(a) && NoPair(b) && !(EndsOpen(a) && StartsOpen(b))
    ensures NoPair(a + b)
    ensures |b| > 0 ==> EndsOpen(a + b) == EndsOpen(b)
    ensures |a| > 0 ==> StartsOpen(a + b) == StartsOpen(a)
  {
    forall i ensures !PairAt(a + b, "{{", i) {
      assert !PairAt(a, "{{", i) && !PairAt(b, "{{", i - |a|);
    }
  }

  lemma NoBraceNoPair(s: string)
    requires '{' !in s
    ensures NoPair(s) && !StartsOpen(s) && !EndsOpen(s)
  {
  }

  lemma EscapeCharBraces(c: char)
    ensures c == '{' ==> EscapeChar(c) == "{"
    ensures c != '{' ==> '{' !in EscapeChar(c)
    ensures NoPair(EscapeChar(c))
  {
  }

  lemma {:induction false} EscapeEnds(s: string)
    ensures StartsOpen(Escape(s)) == StartsOpen(s) && EndsOpen(Escape(s)) == EndsOpen(s)
    ensures |Escape(s)| >= |s|
  {
    if |s| > 0 {
      EscapeEnds(s[1..]);
      EscapeCharBraces(s[0]);
      assert |EscapeChar(s[0])| > 0;
    }
  }

  lemma {:induction false} EscapeNoPair(s: string)
    requires NoPair(s)
    ensures NoPair(Escape(s))
  {
    if |s| > 0 {
      var rest := s[1..];
      forall i ensures !PairAt(rest, "{{", i) {
        assert !PairAt(s, "{{", i + 1);
      }
      assert !PairAt(s, "{{", 0);
      EscapeNoPair(rest);
      EscapeEnds(rest);
      EscapeCharBraces(s[0]);
      NoPairConcat(EscapeChar(s[0]), Escape(rest));
    }
  }

  /** No string or key has two opening braces in a row. */
  ghost predicate NoPairInside(v: Json)
    decreases v
  {
    match v
    case Str(s) => NoPair(s)
    case Arr(items) => forall i :: 0 <= i < |items| ==> NoPairInside(items[i])
    case Obj(members) => forall i :: 0 <= i < |members| ==> NoPair(members[i].key) && NoPairInside(members[i].value)
    case _ => true
  }

  /** Then neither has the text, which also never ends in an opening brace. */
  lemma {:induction false} PrintNoPair(v: Json)
    requires NoPairInside(v)
    ensures NoPair(Print(v)) && !EndsOpen(Print(v))
    decreases v, 1
  {
    match v
    case Null =>
      NoBraceNoPair("null");
    case Bool(b) =>
      NoBraceNoPair(Print(v));
    case Num(n) =>
      NoBraceNoPair(n);
    case Str(s) =>
      EscapeNoPair(s);
      NoPairConcat("\"", Escape(s));
      NoPairConcat("\"" + Escape(s), "\"");
    case Arr(items) =>
      ItemsNoPair(items);
      NoPairConcat("[", PrintItems(items));
      NoPairConcat("[" + PrintItems(items), "]");
    case Obj(members) =>
      MembersNoPair(members);
      NoPairConcat("{", PrintMembers(members));
      NoPairConcat("{" + PrintMembers(members), "}");
  }

  lemma {:induction false} ItemsNoPair(items: seq<Json>)
    requires forall i :: 0 <= i < |items| ==> NoPairInside(items[i])
    ensures NoPair(PrintItems(items))
    decreases items, 0
  {
    if |items| > 0 {
      PrintNoPair(items[0]);
      if |items| > 1 {
        ItemsNoPair(items[1..]);
        NoPairConcat(Print(items[0]), ",");
        NoPairConcat(Print(items[0]) + ",", PrintItems(items[1..]));
      }
    }
  }

  lemma {:induction false} MemberNoPair(m: Member)
    requires NoPair(m.key) && NoPairInside(m.value)
    ensures NoPair(PrintMember(m)) && !StartsOpen(PrintMember(m)) && !EndsOpen(PrintMember(m))
    decreases m
  {
    PrintNoPair(m.value);
    EscapeNoPair(m.key);
    var key := Escape(m.key);
    NoPairConcat("\"", key);
    NoPairConcat("\"" + key, "\":");
    NoPairConcat("\"" + key + "\":", Print(m.value));
  }

  lemma {:induction false} MembersNoPair(members: seq<Member>)
    requires forall i :: 0 <= i < |members| ==> NoPair(members[i].key) && NoPairInside(members[i].value)
    ensures NoPair(PrintMembers(members)) && !StartsOpen(PrintMembers(members)) && !EndsOpen(PrintMembers(members))
    decreases members
  {
    if |members| > 0 {
      var m := members[0];
      MemberNoPair(m);
      if |members| > 1 {
        var rest := PrintMembers(members[1..]);
        MembersNoPair(members[1..]);
        NoPairConcat(PrintMember(m), ",");
        NoPairConcat(PrintMember(m) + ",", rest);
        NothingEmpty(m);
      }
    }
  }

  lemma NothingEmpty(m: Member)
    ensures |PrintMember(m)| > 0
  {
  }
}
