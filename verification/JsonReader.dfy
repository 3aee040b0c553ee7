/**
 * Reading compact JSON text back, and reaching a value by a path. This is what printing a document
 * and resolving a path are the inverses of: the reader takes apart what the printer writes, escapes
 * included, and a path leads from one object to the next by its keys. Templates and filters are
 * then told in these terms.
 */
module JsonReader {
  import opened Wrappers
  import opened Strings
  import opened JsonDocument
  import F = Filter
  import T = Template

  // ---- A reader ------------------------------------------------------------

  predicate NumberChar(c: char) {
    '0' <= c <= '9' || c in "+-.eE"
  }

  function Digits(s: string): (n: nat)
    ensures n <= |s|
    ensures forall i :: 0 <= i < n ==> NumberChar(s[i])
  {
    if |s| > 0 && NumberChar(s[0]) then 1 + Digits(s[1..]) else 0
  }

  function HexDigit(c: char): int {
    if '0' <= c <= '9' then c as int - '0' as int
    else if 'a' <= c <= 'f' then c as int - 'a' as int + 10
    else -1
  }

  /** The character behind a backslash, and how much text stands for it. */
  function ReadEscape(s: string): (r: Option<(char, nat)>)
    ensures r.Some? ==> 1 <= r.value.1 <= |s|
  {
    if |s| == 0 then None
    else
      match s[0]
      case '"' => Some(('"', 1))
      case '\\' => Some(('\\', 1))
      case 'n' => Some(('\n', 1))
      case 'r' => Some(('\r', 1))
      case 't' => Some(('\t', 1))
      case 'b' => Some(('\U{8}', 1))
      case 'f' => Some(('\U{C}', 1))
      case 'u' =>
        if |s| >= 5 && s[1] == '0' && s[2] == '0' && 0 <= HexDigit(s[3]) < 2 && 0 <= HexDigit(s[4])
        then Some(((16 * HexDigit(s[3]) + HexDigit(s[4])) as char, 5)) else None
      case _ => None
  }

  /** The string up to its closing quote, and the text behind that. */
  function ReadString(s: string): (r: Option<(string, string)>)
    ensures r.Some? ==> |r.value.1| < |s|
    decreases |s|
  {
    if |s| == 0 then None
    else if s[0] == '"' then Some(("", s[1..]))
    else if s[0] != '\\' then
      match ReadString(s[1..])
      case None => None
      case Some((text, rest)) => Some(([s[0]] + text, rest))
    else
      match ReadEscape(s[1..])
      case None => None
      case Some((c, n)) =>
        match ReadString(s[1 + n..])
        case None => None
        case Some((text, rest)) => Some(([c] + text, rest))
  }

  /** The value at the front, and the text behind it. */
  function ReadValue(s: string): (r: Option<(Json, string)>)
    ensures r.Some? ==> |r.value.1| < |s|
    decreases |s|, 2
  {
    if "null" <= s then Some((Null, s[4..]))
    else if "true" <= s then Some((Bool(true), s[4..]))
    else if "false" <= s then Some((Bool(false), s[5..]))
    else if |s| == 0 then None
    else if s[0] == '"' then
      match ReadString(s[1..])
      case None => None
      case Some((text, rest)) => Some((Str(text), rest))
    else if "[]" <= s then Some((Arr([]), s[2..]))
    else if s[0] == '[' then
      match ReadItems(s[1..])
      case None => None
      case Some((items, rest)) => Some((Arr(items), rest))
    else if "{}" <= s then Some((Obj([]), s[2..]))
    else if s[0] == '{' then
      match ReadMembers(s[1..])
      case None => None
      case Some((members, rest)) => Some((Obj(members), rest))
    else if Digits(s) > 0 then
      var n: string := s[..Digits(s)];
      assert forall c :: c in n ==> NumberChar(c);
      Some((Num(n), s[Digits(s)..]))
    else None
  }

  /** Values up to a closing bracket. */
  function ReadItems(s: string): (r: Option<(seq<Json>, string)>)
    ensures r.Some? ==> |r.value.1| < |s|
    decreases |s|, 3
  {
    match ReadValue(s)
    case None => None
    case Some((v, rest)) =>
      if |rest| > 0 && rest[0] == ']' then Some(([v], rest[1..]))
      else if |rest| > 0 && rest[0] == ',' then
        match ReadItems(rest[1..])
        case None => None
        case Some((items, end)) => Some(([v] + items, end))
      else None
  }

  /** Members up to a closing brace. */
  function ReadMembers(s: string): (r: Option<(seq<Member>, string)>)
    ensures r.Some? ==> |r.value.1| < |s|
    decreases |s|, 3
  {
    if |s| == 0 || s[0] != '"' then None
    else
      match ReadString(s[1..])
      case None => None
      case Some((key, value)) =>
        if |value| == 0 || value[0] != ':' then None
        else
          match ReadValue(value[1..])
          case None => None
          case Some((v, rest)) =>
            if |rest| > 0 && rest[0] == '}' then Some(([Member(key, v)], rest[1..]))
            else if |rest| > 0 && rest[0] == ',' then
              match ReadMembers(rest[1..])
              case None => None
              case Some((members, end)) => Some(([Member(key, v)] + members, end))
            else None
  }

  // ---- Strings -------------------------------------------------------------

  lemma HexReads(d: nat)
    requires d < 16
    ensures HexDigit(Hex(d)) == d
  {
  }

  /** The text of one character is read as that character. */
  lemma CharReads(c: char, rest: string)
    ensures ReadString(EscapeChar(c) + rest) ==
      match ReadString(rest) case None => None case Some((text, end)) => Some(([c] + text, end))
  {
    var e := EscapeChar(c);
    var s := e + rest;
    if c in "\"\\\n\r\t" || c == '\U{8}' || c == '\U{C}' {
      assert s[0] == '\\' && s[1..][0] == e[1] && s[2..] == rest;
    } else if c < ' ' {
      HexReads(c as int / 16);
      HexReads(c as int % 16);
      assert s[1..][0] == 'u' && s[1..][1] == '0' && s[1..][2] == '0' && s[1..][3] == Hex(c as int / 16) && s[1..][4] == Hex(c as int % 16);
      assert (16 * (c as int / 16) + c as int % 16) as char == c;
      assert s[6..] == rest;
    } else {
      assert s[1..] == rest;
    }
  }

  lemma {:induction false} StringReads(text: string, rest: string)
    ensures ReadString(Escape(text) + "\"" + rest) == Some((text, rest))
  {
    if |text| == 0 {
      assert (Escape(text) + "\"" + rest)[1..] == rest;
    } else {
      StringReads(text[1..], rest);
      CharReads(text[0], Escape(text[1..]) + "\"" + rest);
      assert Escape(text) + "\"" + rest == EscapeChar(text[0]) + (Escape(text[1..]) + "\"" + rest);
      assert [text[0]] + text[1..] == text;
    }
  }

  // ---- Values --------------------------------------------------------------

  /** Behind a number its text must end. */
  ghost predicate Ends(rest: string) {
    rest == "" || !NumberChar(rest[0])
  }

  lemma {:induction false} DigitsOf(n: string, rest: string)
    requires (forall c :: c in n ==> NumberChar(c)) && Ends(rest)
    ensures Digits(n + rest) == |n|
  {
    if |n| == 0 {
      assert n + rest == rest;
    } else {
      assert (n + rest)[1..] == n[1..] + rest;
      DigitsOf(n[1..], rest);
    }
  }

  lemma NumberReads(n: Number, rest: string)
    requires Ends(rest)
    ensures ReadValue(n + rest) == Some((Num(n), rest))
  {
    var s := n + rest;
    assert NumberChar(n[0]) && s[0] == n[0];
    DigitsOf(n, rest);
    assert s[..|n|] == n && s[|n|..] == rest;
    assert "null"[0] == 'n' && "true"[0] == 't' && "false"[0] == 'f' && "[]"[0] == '[' && "{}"[0] == '{';
  }

  /** What the text of a value begins with. */
  lemma PrintStarts(v: Json)
    ensures |Print(v)| > 0 && Print(v)[0] != ']' && Print(v)[0] != '}'
  {
    if v.Num? {
      assert NumberText(v.n);
      assert v.n[0] in v.n;
    }
  }

  lemma WordReads(rest: string)
    ensures ReadValue("null" + rest) == Some((Null, rest))
    ensures ReadValue("true" + rest) == Some((Bool(true), rest))
    ensures ReadValue("false" + rest) == Some((Bool(false), rest))
  {
    var n, t, f := "null" + rest, "true" + rest, "false" + rest;
    assert n[4..] == rest && t[4..] == rest && f[5..] == rest;
    assert n[..4] == "null" && t[..4] == "true" && f[..5] == "false";
    assert t[0] != "null"[0] && f[0] != "null"[0] && f[0] != "true"[0];
  }

  lemma StringValueReads(s: string, rest: string)
    ensures ReadValue("\"" + Escape(s) + "\"" + rest) == Some((Str(s), rest))
  {
    StringReads(s, rest);
    var q := "\"" + Escape(s) + "\"" + rest;
    assert q[1..] == Escape(s) + "\"" + rest;
    assert q[0] == '"' && "null"[0] != '"' && "true"[0] != '"' && "false"[0] != '"';
  }

  lemma EmptyReads(rest: string)
    ensures ReadValue("[" + "" + "]" + rest) == Some((Arr([]), rest)) && ReadValue("{" + "" + "}" + rest) == Some((Obj([]), rest))
  {
    var a, o := "[" + "" + "]" + rest, "{" + "" + "}" + rest;
    assert a[0] == '[' && a[1] == ']' && a[2..] == rest;
    assert o[0] == '{' && o[1] == '}' && o[2..] == rest;
  }

  lemma Wrapped(left: string, inner: string, right: string, rest: string)
    requires |left| == 1 && |inner| > 0
    ensures
      var s := left + inner + right + rest;
      |s| >= 2 && s[0] == left[0] && s[1] == inner[0] && s[1..] == inner + right + rest
  {
  }

  lemma ReadsArray(s: string, items: seq<Json>, rest: string)
    requires |s| >= 2 && s[0] == '[' && s[1] != ']' && ReadItems(s[1..]) == Some((items, rest))
    ensures ReadValue(s) == Some((Arr(items), rest))
  {
    assert "[]"[1] == ']';
  }

  lemma ReadsObject(s: string, members: seq<Member>, rest: string)
    requires |s| >= 2 && s[0] == '{' && s[1] != '}' && ReadMembers(s[1..]) == Some((members, rest))
    ensures ReadValue(s) == Some((Obj(members), rest))
  {
    assert "{}"[1] == '}';
  }

  lemma ArrayReads(inner: string, items: seq<Json>, rest: string)
    requires |inner| > 0 && inner[0] != ']' && ReadItems(inner + "]" + rest) == Some((items, rest))
    ensures ReadValue("[" + inner + "]" + rest) == Some((Arr(items), rest))
  {
    Wrapped("[", inner, "]", rest);
    ReadsArray("[" + inner + "]" + rest, items, rest);
  }

  lemma ObjectReads(inner: string, members: seq<Member>, rest: string)
    requires |inner| > 0 && inner[0] != '}' && ReadMembers(inner + "}" + rest) == Some((members, rest))
    ensures ReadValue("{" + inner + "}" + rest) == Some((Obj(members), rest))
  {
    Wrapped("{", inner, "}", rest);
    ReadsObject("{" + inner + "}" + rest, members, rest);
  }

  lemma LastItem(p: string, v: Json, rest: string)
    requires ReadValue(p + "]" + rest) == Some((v, "]" + rest))
    ensures ReadItems(p + "]" + rest) == Some(([v], rest))
  {
    assert ("]" + rest)[1..] == rest;
  }

  lemma NextItem(p: string, v: Json, after: string, items: seq<Json>, rest: string)
    requires ReadValue(p + "," + after) == Some((v, "," + after)) && ReadItems(after) == Some((items, rest))
    ensures ReadItems(p + "," + after) == Some(([v] + items, rest))
  {
    assert ("," + after)[1..] == after;
  }

  /** A member's text splits into key and value. */
  lemma MemberSplits(key: string, p: string, after: string)
    ensures
      var s := "\"" + Escape(key) + "\":" + p + after;
      && |s| > 0 && s[0] == '"'
      && ReadString(s[1..]) == Some((key, ":" + (p + after)))
  {
    MemberText(Escape(key), p, after);
    StringReads(key, ":" + (p + after));
  }

  lemma MemberText(e: string, p: string, after: string)
    ensures
      var s := "\"" + e + "\":" + p + after;
      |s| > 0 && s[0] == '"' && s[1..] == e + "\"" + (":" + (p + after))
  {
    assert "\":" == "\"" + ":";
  }

  lemma ListText(p: string, t: string, right: string, rest: string)
    ensures p + "," + t + right + rest == p + "," + (t + right + rest)
    ensures p + ("," + (t + right + rest)) == p + "," + (t + right + rest)
  {
  }

  lemma LastMember(key: string, p: string, v: Json, rest: string)
    requires ReadValue(p + "}" + rest) == Some((v, "}" + rest))
    ensures ReadMembers("\"" + Escape(key) + "\":" + p + ("}" + rest)) == Some(([Member(key, v)], rest))
  {
    MemberSplits(key, p, "}" + rest);
    assert p + ("}" + rest) == p + "}" + rest;
    assert (":" + (p + ("}" + rest)))[1..] == p + "}" + rest && ("}" + rest)[1..] == rest;
  }

  lemma NextMember(key: string, p: string, v: Json, after: string, members: seq<Member>, rest: string)
    requires ReadValue(p + "," + after) == Some((v, "," + after)) && ReadMembers(after) == Some((members, rest))
    ensures ReadMembers("\"" + Escape(key) + "\":" + p + ("," + after)) == Some(([Member(key, v)] + members, rest))
  {
    MemberSplits(key, p, "," + after);
    assert p + ("," + after) == p + "," + after;
    assert (":" + (p + ("," + after)))[1..] == p + "," + after && ("," + after)[1..] == after;
  }

  /** Printed JSON is read back as the value it was printed from, in front of any text that ends a number. */
  lemma {:induction false} PrintReads(v: Json, rest: string)
    requires Ends(rest)
    ensures ReadValue(Print(v) + rest) == Some((v, rest))
    decreases v, 1
  {
    match v
    case Null => WordReads(rest);
    case Bool(_) => WordReads(rest);
    case Num(n) => NumberReads(n, rest);
    case Str(s) => StringValueReads(s, rest);
    case Arr(items) =>
      if |items| == 0 {
        EmptyReads(rest);
      } else {
        ItemsRead(items, rest);
        ItemsStart(items);
        ArrayReads(PrintItems(items), items, rest);
      }
    case Obj(members) =>
      if |members| == 0 {
        EmptyReads(rest);
      } else {
        MembersRead(members, rest);
        MembersStart(members);
        ObjectReads(PrintMembers(members), members, rest);
      }
  }

  lemma ItemsStart(items: seq<Json>)
    requires |items| > 0
    ensures |PrintItems(items)| > 0 && PrintItems(items)[0] != ']'
  {
    PrintStarts(items[0]);
  }

  lemma MembersStart(members: seq<Member>)
    requires |members| > 0
    ensures |PrintMembers(members)| > 0 && PrintMembers(members)[0] != '}'
  {
    assert |PrintMember(members[0])| > 0 && PrintMember(members[0])[0] == '"';
  }

  lemma {:induction false} ItemsRead(items: seq<Json>, rest: string)
    requires |items| > 0
    ensures ReadItems(PrintItems(items) + "]" + rest) == Some((items, rest))
    decreases items, 0
  {
    var v, tail := items[0], items[1..];
    var p := Print(v);
    if |items| == 1 {
      PrintReads(v, "]" + rest);
      assert p + ("]" + rest) == p + "]" + rest;
      LastItem(p, v, rest);
      assert items == [v];
    } else {
      var after := PrintItems(tail) + "]" + rest;
      PrintReads(v, "," + after);
      ListText(p, PrintItems(tail), "]", rest);
      ItemsRead(tail, rest);
      NextItem(p, v, after, tail, rest);
      assert items == [v] + tail;
    }
  }

  lemma {:induction false} MembersRead(members: seq<Member>, rest: string)
    requires |members| > 0
    ensures ReadMembers(PrintMembers(members) + "}" + rest) == Some((members, rest))
    decreases members, 0
  {
    var m, tail := members[0], members[1..];
    var p := Print(m.value);
    if |members| == 1 {
      PrintReads(m.value, "}" + rest);
      assert p + ("}" + rest) == p + "}" + rest;
      LastMember(m.key, p, m.value, rest);
      assert PrintMembers(members) + "}" + rest == PrintMember(m) + ("}" + rest);
      assert members == [m];
    } else {
      var after := PrintMembers(tail) + "}" + rest;
      PrintReads(m.value, "," + after);
      ListText(p, PrintMembers(tail), "}", rest);
      MembersRead(tail, rest);
      NextMember(m.key, p, m.value, after, tail, rest);
      ListText(PrintMember(m), PrintMembers(tail), "}", rest);
      assert members == [m] + tail;
    }
  }

  /**
   * What a template puts in place of a reference: `null` where the path leads nowhere; for a string,
   * text that between the template's own quotes is read as that string; for any other value, text
   * that is read as that value.
   */
  lemma ReplacementReads(json: Json, reference: string, rest: string)
    requires Ends(rest)
    ensures
      var found, text := ResolvePath(json, Trim(reference)), T.Value(json, reference);
      if found.None? then text == "null"
      else if found.value.Str? then ReadString(text + "\"" + rest) == Some((found.value.s, rest))
      else ReadValue(text + rest) == Some((found.value, rest))
  {
    var found := ResolvePath(json, Trim(reference));
    if found.Some? {
      if found.value.Str? {
        StringReads(found.value.s, rest);
      } else {
        PrintReads(found.value, rest);
      }
    }
  }

  // ---- Paths ---------------------------------------------------------------

  /** From `json`, going down by the keys one after the other, through objects only, one comes to `v`. */
  ghost predicate Reaches(json: Json, keys: seq<string>, v: Json)
    decreases |keys|
  {
    if |keys| == 0 then json == v
    else
      json.Obj? && exists i ::
        && 0 <= i < |json.members|
        && json.members[i].key == keys[0]
        && (forall k :: 0 <= k < i ==> json.members[k].key != keys[0])
        && Reaches(json.members[i].value, keys[1..], v)
  }

  function Joined(keys: seq<string>): string
    requires |keys| > 0
  {
    if |keys| == 1 then keys[0] else keys[0] + "." + Joined(keys[1..])
  }

  lemma {:induction false} SplitJoined(keys: seq<string>)
    requires |keys| > 0 && forall key | key in keys :: '.' !in key
    ensures Split(Joined(keys), '.') == keys
  {
    if |keys| == 1 {
      SplitSingle(keys[0], '.');
      assert keys == [keys[0]];
    } else {
      SplitJoined(keys[1..]);
      SplitAppend(keys[0], '.', Joined(keys[1..]));
      assert keys[0] + ['.'] + Joined(keys[1..]) == Joined(keys);
      assert keys == [keys[0]] + keys[1..];
    }
  }

  lemma {:induction false} FirstGot(members: seq<Member>, key: string) returns (i: nat)
    requires Get(members, key).Some?
    ensures i < |members| && members[i].key == key && (forall k :: 0 <= k < i ==> members[k].key != key)
    ensures members[i].value == Get(members, key).value
    decreases |members|
  {
    if members[0].key == key {
      i := 0;
    } else {
      var n := FirstGot(members[1..], key);
      i := n + 1;
      assert forall k :: 0 < k < |members| ==> members[k] == members[1..][k - 1];
    }
  }

  lemma {:induction false} WalkReaches(json: Json, keys: seq<string>, v: Json)
    ensures Walk(json, keys) == Some(v) <==> Reaches(json, keys, v)
    decreases |keys|
  {
    if |keys| > 0 && json.Obj? {
      if Get(json.members, keys[0]).Some? {
        var i := FirstGot(json.members, keys[0]);
        WalkReaches(json.members[i].value, keys[1..], v);
        if Reaches(json, keys, v) {
          var n :| 0 <= n < |json.members| && json.members[n].key == keys[0]
                   && (forall k :: 0 <= k < n ==> json.members[k].key != keys[0])
                   && Reaches(json.members[n].value, keys[1..], v);
          assert n == i;
        }
      }
    }
  }

  /** The path `$.` and keys joined by points resolves to the value that the keys reach, and to nothing else. */
  lemma ResolveReaches(json: Json, keys: seq<string>, v: Json)
    requires |keys| > 0 && forall key | key in keys :: '.' !in key
    ensures ResolvePath(json, "$." + Joined(keys)) == Some(v) <==> Reaches(json, keys, v)
  {
    SplitJoined(keys);
    assert ("$." + Joined(keys))[2..] == Joined(keys);
    WalkReaches(json, keys, v);
  }

  /** A filter sees the value that its path reaches, and no value in a payload that is not JSON. */
  lemma ExtractReaches(payload: F.Payload, keys: seq<string>, v: Json)
    requires |keys| > 0 && forall key | key in keys :: '.' !in key
    ensures F.Extract(payload, "$." + Joined(keys)) == Some(v) <==> payload.Some? && Reaches(payload.value, keys, v)
  {
    if payload.Some? {
      ResolveReaches(payload.value, keys, v);
    }
  }
}
