/**
 * The string operations that the rewriting loops and the filter language are built from: leftmost
 * search, splitting once and at every separator, stripping and trimming, with what each of them
 * finds in a text that is put together from known parts.
 */
module Strings {
  import opened Wrappers

  ghost predicate Occurs(s: string, pattern: string, i: int) {
    0 <= i && i + |pattern| <= |s| && s[i..i + |pattern|] == pattern
  }

  lemma OccursPair(s: string, pattern: string, i: int)
    requires |pattern| == 2
    ensures Occurs(s, pattern, i) <==> 0 <= i < |s| - 1 && s[i] == pattern[0] && s[i + 1] == pattern[1]
  {
    if 0 <= i < |s| - 1 {
      var t := s[i..i + 2];
      assert t[0] == s[i] && t[1] == s[i + 1];
    }
  }

  lemma OccursSingle(s: string, pattern: string, i: int)
    requires |pattern| == 1
    ensures Occurs(s, pattern, i) <==> 0 <= i < |s| && s[i] == pattern[0]
  {
    if 0 <= i < |s| {
      var t := s[i..i + 1];
      assert t[0] == s[i];
    }
  }

  lemma OccursInTail(s: string, pattern: string, i: int)
    requires |s| > 0 && i >= 1
    ensures Occurs(s, pattern, i) <==> Occurs(s[1..], pattern, i - 1)
  {
    if i + |pattern| <= |s| {
      assert s[1..][i - 1..i - 1 + |pattern|] == s[i..i + |pattern|];
    }
  }

  /** Where the pattern does not stand at the front, it occurs as it does in the tail. */
  lemma OccursBeyond(s: string, pattern: string)
    requires |s| > 0 && !(pattern <= s)
    ensures forall i :: Occurs(s, pattern, i) ==> i >= 1 && Occurs(s[1..], pattern, i - 1)
    ensures forall i :: Occurs(s[1..], pattern, i) ==> Occurs(s, pattern, i + 1)
  {
    forall i | Occurs(s, pattern, i)
      ensures i >= 1 && Occurs(s[1..], pattern, i - 1)
    {
      assert i != 0;
      OccursInTail(s, pattern, i);
    }
    forall i | Occurs(s[1..], pattern, i)
      ensures Occurs(s, pattern, i + 1)
    {
      OccursInTail(s, pattern, i + 1);
    }
  }

  /** Searches from the left. */
  function Find(s: string, pattern: string): (r: Option<nat>)
    ensures r.Some? ==> r.value + |pattern| <= |s|
  {
    if |s| < |pattern| then None
    else if s[..|pattern|] == pattern then Some(0)
    else
      match Find(s[1..], pattern)
      case None => None
      case Some(i) => Some(i + 1)
  }

  /** What is found is the leftmost occurrence, and nothing is found only when there is none. */
  lemma {:induction false} FindIsLeftmost(s: string, pattern: string)
    ensures
      match Find(s, pattern)
      case None => forall i :: !Occurs(s, pattern, i)
      case Some(k) => Occurs(s, pattern, k) && forall i :: 0 <= i < k ==> !Occurs(s, pattern, i)
  {
    if |s| >= |pattern| && s[..|pattern|] != pattern {
      FindIsLeftmost(s[1..], pattern);
      OccursBeyond(s, pattern);
    }
  }

  function SplitOnce(s: string, pattern: string): Option<(string, string)> {
    match Find(s, pattern)
    case None => None
    case Some(i) => Some((s[..i], s[i + |pattern|..]))
  }

  function StripPrefix(s: string, prefix: string): Option<string> {
    if prefix <= s then Some(s[|prefix|..]) else None
  }

  function StripSuffix(s: string, suffix: string): Option<string> {
    if |suffix| <= |s| && s[|s| - |suffix|..] == suffix then Some(s[..|s| - |suffix|]) else None
  }

  /** Unicode's White_Space property. */
  predicate IsSpace(c: char) {
    || '\t' <= c <= '\r' || c == ' ' || c == '\U{85}' || c == '\U{A0}' || c == '\U{1680}'
    || '\U{2000}' <= c <= '\U{200A}' || c == '\U{2028}' || c == '\U{2029}' || c == '\U{202F}'
    || c == '\U{205F}' || c == '\U{3000}'
  }

  function TrimStart(s: string): string {
    if |s| > 0 && IsSpace(s[0]) then TrimStart(s[1..]) else s
  }

  function TrimEnd(s: string): string {
    if |s| > 0 && IsSpace(s[|s| - 1]) then TrimEnd(s[..|s| - 1]) else s
  }

  function Trim(s: string): string {
    TrimEnd(TrimStart(s))
  }

  /** Drops the character at both ends, as often as it is there. */
  function TrimMatches(s: string, c: char): string {
    if |s| > 0 && s[0] == c then TrimMatches(s[1..], c)
    else if |s| > 0 && s[|s| - 1] == c then TrimMatches(s[..|s| - 1], c)
    else s
  }

  function Split(s: string, c: char): (parts: seq<string>)
    ensures |parts| > 0
  {
    if |s| == 0 then [""]
    else
      var rest := Split(s[1..], c);
      if s[0] == c then [""] + rest else [[s[0]] + rest[0]] + rest[1..]
  }

  // ---- Searching -----------------------------------------------------------

  lemma OccursFirst(s: string, pattern: string, i: nat)
    requires Occurs(s, pattern, i) && forall j :: 0 <= j < i ==> !Occurs(s, pattern, j)
    ensures Find(s, pattern) == Some(i)
  {
    FindIsLeftmost(s, pattern);
  }

  /** The two characters of `pattern` stand at `i`. */
  ghost predicate PairAt(s: string, pattern: string, i: int)
    requires |pattern| == 2
  {
    0 <= i < |s| - 1 && s[i] == pattern[0] && s[i + 1] == pattern[1]
  }

  lemma FindPair(s: string, pattern: string)
    requires |pattern| == 2
    ensures
      match Find(s, pattern)
      case None => forall i :: !PairAt(s, pattern, i)
      case Some(k) => PairAt(s, pattern, k) && forall i :: 0 <= i < k ==> !PairAt(s, pattern, i)
  {
    FindIsLeftmost(s, pattern);
    forall i ensures Occurs(s, pattern, i) <==> PairAt(s, pattern, i) {
      OccursPair(s, pattern, i);
    }
  }

  lemma FindSingle(s: string, pattern: string)
    requires |pattern| == 1
    ensures
      match Find(s, pattern)
      case None => forall i :: 0 <= i < |s| ==> s[i] != pattern[0]
      case Some(k) => k < |s| && s[k] == pattern[0] && forall i :: 0 <= i < k ==> s[i] != pattern[0]
  {
    FindIsLeftmost(s, pattern);
    forall i ensures Occurs(s, pattern, i) <==> 0 <= i < |s| && s[i] == pattern[0] {
      OccursSingle(s, pattern, i);
    }
  }

  lemma FirstPair(s: string, pattern: string, k: nat)
    requires |pattern| == 2 && PairAt(s, pattern, k) && forall i :: 0 <= i < k ==> !PairAt(s, pattern, i)
    ensures Find(s, pattern) == Some(k)
  {
    FindPair(s, pattern);
  }

  lemma NoSuchPair(s: string, pattern: string)
    requires |pattern| == 2 && forall i :: !PairAt(s, pattern, i)
    ensures Find(s, pattern) == None
  {
    FindPair(s, pattern);
  }

  /** A pattern is not found where one of its characters is missing. */
  lemma NotFoundWithout(s: string, pattern: string, k: nat)
    requires k < |pattern| && pattern[k] !in s
    ensures Find(s, pattern) == None
  {
    forall i ensures !Occurs(s, pattern, i) {
      if 0 <= i && i + |pattern| <= |s| {
        assert s[i..i + |pattern|][k] == s[i + k];
      }
    }
    FindIsLeftmost(s, pattern);
  }

  /** The first occurrence, when the pattern's first character is not in the text before it. */
  lemma FoundAfter(before: string, pattern: string, after: string)
    requires |pattern| > 0 && pattern[0] !in before
    ensures Find(before + pattern + after, pattern) == Some(|before|)
    ensures SplitOnce(before + pattern + after, pattern) == Some((before, after))
  {
    var s := before + pattern + after;
    forall j | 0 <= j < |before| ensures !Occurs(s, pattern, j) {
      assert s[j] == before[j];
    }
    assert Occurs(s, pattern, |before|) by {
      assert s[|before|..|before| + |pattern|] == pattern;
    }
    OccursFirst(s, pattern, |before|);
    assert s[..|before|] == before && s[|before| + |pattern|..] == after;
  }

  // ---- Counting ------------------------------------------------------------

  ghost function Count(s: string, c: char): nat {
    if |s| == 0 then 0 else (if s[0] == c then 1 else 0) + Count(s[1..], c)
  }

  lemma {:induction false} CountConcat(a: string, b: string, c: char)
    ensures Count(a + b, c) == Count(a, c) + Count(b, c)
  {
    if |a| == 0 {
      assert a + b == b;
    } else {
      assert (a + b)[1..] == a[1..] + b;
      CountConcat(a[1..], b, c);
    }
  }

  lemma {:induction false} CountZero(s: string, c: char)
    ensures Count(s, c) == 0 <==> c !in s
  {
    if |s| > 0 {
      CountZero(s[1..], c);
      assert s == [s[0]] + s[1..];
    }
  }

  // ---- Trimming ------------------------------------------------------------

  lemma TrimKeeps(s: string)
    requires |s| > 0 ==> !IsSpace(s[0]) && !IsSpace(s[|s| - 1])
    ensures Trim(s) == s
  {
  }

  /** The characters of Unicode's White_Space property, one by one. */
  const BLANKS: string := "\t\n\U{B}\U{C}\r \U{85}\U{A0}\U{1680}\U{2000}\U{2001}\U{2002}\U{2003}\U{2004}\U{2005}\U{2006}\U{2007}\U{2008}\U{2009}\U{200A}\U{2028}\U{2029}\U{202F}\U{205F}\U{3000}"

  lemma SpaceIsBlank(c: char)
    ensures IsSpace(c) <==> c in BLANKS
  {
    if c in BLANKS {
      var i :| 0 <= i < |BLANKS| && BLANKS[i] == c;
    }
    assert BLANKS[0] == '\t' && BLANKS[1] == '\n' && BLANKS[2] == '\U{B}' && BLANKS[3] == '\U{C}' && BLANKS[4] == '\r';
    assert BLANKS[5] == ' ' && BLANKS[6] == '\U{85}' && BLANKS[7] == '\U{A0}' && BLANKS[8] == '\U{1680}';
    assert BLANKS[9] == '\U{2000}' && BLANKS[10] == '\U{2001}' && BLANKS[11] == '\U{2002}' && BLANKS[12] == '\U{2003}';
    assert BLANKS[13] == '\U{2004}' && BLANKS[14] == '\U{2005}' && BLANKS[15] == '\U{2006}' && BLANKS[16] == '\U{2007}';
    assert BLANKS[17] == '\U{2008}' && BLANKS[18] == '\U{2009}' && BLANKS[19] == '\U{200A}' && BLANKS[20] == '\U{2028}';
    assert BLANKS[21] == '\U{2029}' && BLANKS[22] == '\U{202F}' && BLANKS[23] == '\U{205F}' && BLANKS[24] == '\U{3000}';
  }

  lemma {:induction false} TrimStartStrips(left: string, s: string)
    requires (forall c | c in left :: c in BLANKS) && (|s| > 0 ==> s[0] !in BLANKS)
    ensures TrimStart(left + s) == s
    decreases |left|
  {
    if |left| == 0 {
      assert left + s == s;
      if |s| > 0 {
        SpaceIsBlank(s[0]);
      }
    } else {
      SpaceIsBlank(left[0]);
      assert (left + s)[1..] == left[1..] + s;
      TrimStartStrips(left[1..], s);
    }
  }

  lemma {:induction false} TrimEndStrips(s: string, right: string)
    requires (forall c | c in right :: c in BLANKS) && (|s| > 0 ==> s[|s| - 1] !in BLANKS)
    ensures TrimEnd(s + right) == s
    decreases |right|
  {
    if |right| == 0 {
      assert s + right == s;
      if |s| > 0 {
        SpaceIsBlank(s[|s| - 1]);
      }
    } else {
      var n := |right| - 1;
      SpaceIsBlank(right[n]);
      assert (s + right)[..|s| + n] == s + right[..n];
      TrimEndStrips(s, right[..n]);
    }
  }

  /** Trimming takes the blanks away from both ends, and nothing else. */
  lemma TrimStrips(left: string, s: string, right: string)
    requires (forall c | c in left + right :: c in BLANKS)
    requires |s| > 0 && s[0] !in BLANKS && s[|s| - 1] !in BLANKS
    ensures Trim(left + s + right) == s
  {
    assert forall c | c in left :: c in left + right;
    assert forall c | c in right :: c in left + right;
    assert left + s + right == left + (s + right);
    TrimStartStrips(left, s + right);
    TrimEndStrips(s, right);
  }

  lemma TrimOneSpace(s: string)
    requires |s| > 0 && !IsSpace(s[0]) && !IsSpace(s[|s| - 1])
    ensures Trim([' '] + s) == s && Trim(s + [' ']) == s
  {
    var left, right := [' '] + s, s + [' '];
    assert left[1..] == s && TrimStart(left) == s;
    assert TrimStart(right) == right && right[..|s|] == s;
    assert TrimEnd(right) == TrimEnd(s) == s;
  }

  lemma Unquoted(s: string)
    requires '"' !in s
    ensures TrimMatches("\"" + s + "\"", '"') == s
  {
    var q := "\"" + s + "\"";
    assert q[1..] == s + "\"";
    if |s| > 0 {
      var t := s + "\"";
      assert t[..|s|] == s;
      assert TrimMatches(t, '"') == TrimMatches(s, '"') == s;
    } else {
      assert q[1..] == "\"" && "\""[1..] == "";
    }
  }

  // ---- Splitting -----------------------------------------------------------

  /** One separator more. */
  lemma {:induction false} SplitAppend(a: string, c: char, b: string)
    requires c !in a
    ensures Split(a + [c] + b, c) == [a] + Split(b, c)
  {
    var s := a + [c] + b;
    if |a| == 0 {
      assert s[1..] == b;
    } else {
      assert s[1..] == a[1..] + [c] + b;
      SplitAppend(a[1..], c, b);
      assert [a[0]] + a[1..] == a;
      assert ([a[1..]] + Split(b, c))[1..] == Split(b, c);
    }
  }

  lemma {:induction false} SplitSingle(a: string, c: char)
    requires c !in a
    ensures Split(a, c) == [a]
  {
    if |a| > 0 {
      SplitSingle(a[1..], c);
      assert [a[0]] + a[1..] == a;
    }
  }
}
