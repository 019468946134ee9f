/**
 The parts of Go's "strings" package the planner relies on. Strings are ASCII, one char
 for each byte.
 */
module Text {
  import opened Sorting

  function Rank(c: char): int {
    c as int
  }

  /** Go's string order: byte by byte. */
  predicate Leq(a: string, b: string) {
    LexLeq(Rank, a, b)
  }

  lemma LeqIsOrder()
    ensures Total(Leq) && Antisymmetric(Leq)
  {
    LexIsOrder(Rank);
    var leq := (a: string, b: string) => LexLeq(Rank, a, b);
    assert forall a: string, b: string :: Leq(a, b) == leq(a, b);
  }

  /** A string comes first if the other one continues it, or has the higher character where they part. */
  lemma LeqMeans(a: string, b: string)
    ensures Leq(a, b) <==> a <= b || exists k: nat :: PartsAt(a, b, k)
  {
    LexMeans(Rank, a, b);
    assert forall k: nat :: DipsAt(Rank, a, b, k) <==> PartsAt(a, b, k);
  }

  ghost predicate PartsAt(a: string, b: string, k: nat) {
    k < |a| && k < |b| && a[..k] == b[..k] && a[k] < b[k]
  }

  function SortStrings(s: seq<string>): seq<string> {
    Sort(Leq, s)
  }

  // ----- Prefixes and suffixes -----

  predicate HasSuffix(s: string, t: string) {
    |t| <= |s| && s[|s| - |t|..] == t
  }

  function TrimPrefix(s: string, p: string): string {
    if p <= s then s[|p|..] else s
  }

  function TrimSuffix(s: string, t: string): string {
    if HasSuffix(s, t) then s[..|s| - |t|] else s
  }

  lemma SuffixOfDrop(s: string, t: string, n: nat)
    requires HasSuffix(s, t) && n + |t| <= |s|
    ensures HasSuffix(s[n..], t)
  {
    assert s[n..][|s| - n - |t|..] == s[|s| - |t|..];
  }

  lemma SuffixUndrop(s: string, t: string, n: nat)
    requires n <= |s| && HasSuffix(s[n..], t)
    ensures HasSuffix(s, t)
  {
    assert s[n..][|s| - n - |t|..] == s[|s| - |t|..];
  }

  /** Where c first occurs in s, or |s|. */
  function IndexOf(s: string, c: char): (i: nat)
    ensures i <= |s|
    ensures i < |s| ==> s[i] == c
    ensures forall k | 0 <= k < i :: s[k] != c
    ensures i < |s| <==> c in s
  {
    if s == "" then 0 else if s[0] == c then 0 else 1 + IndexOf(s[1..], c)
  }

  // ----- White space and case -----

  predicate IsSpace(c: char) {
    c == ' ' || ('\t' <= c <= '\r')
  }

  predicate IsUpper(c: char) {
    'A' <= c <= 'Z'
  }

  predicate IsLetter(c: char) {
    'a' <= c <= 'z' || 'A' <= c <= 'Z'
  }

  predicate IsDigit(c: char) {
    '0' <= c <= '9'
  }

  const UPPER := "ABCDEFGHIJKLMNOPQRSTUVWXYZ"
  const LOWER := "abcdefghijklmnopqrstuvwxyz"
  const DIGITS := "0123456789"
  const SPACES := " \t\n\U{000B}\U{000C}\r"

  /** The classes of characters, spelt out. */
  lemma ClassesMean(c: char)
    ensures IsUpper(c) <==> c in UPPER
    ensures IsLetter(c) <==> c in UPPER || c in LOWER
    ensures IsDigit(c) <==> c in DIGITS
    ensures IsSpace(c) <==> c in SPACES
  {
    hide IsSpace, IsDigit, IsLetter, IsUpper;
    InRun(UPPER, 'A', c);
    InRun(LOWER, 'a', c);
    InRun(DIGITS, '0', c);
    assert IsUpper(c) <==> 'A' <= c <= 'Z' by {
      UpperIs(c);
    }
    SpaceMeans(c);
    LettersAndDigits(c);
  }

  lemma UpperIs(c: char)
    ensures IsUpper(c) <==> 'A' <= c <= 'Z'
  {
  }

  lemma LettersAndDigits(c: char)
    ensures IsLetter(c) <==> 'a' <= c <= 'z' || 'A' <= c <= 'Z'
    ensures IsDigit(c) <==> '0' <= c <= '9'
  {
  }

  lemma SpaceMeans(c: char)
    ensures IsSpace(c) <==> c in SPACES
  {
    var i := if c == ' ' then 0 else 1 + (c as int - '\t' as int);
    assert IsSpace(c) ==> SPACES[i] == c;
  }

  /** A run of consecutive characters. */
  lemma InRun(run: string, first: char, c: char)
    requires forall i | 0 <= i < |run| :: run[i] as int == first as int + i
    ensures c in run <==> 0 <= c as int - first as int < |run|
  {
    var i := c as int - first as int;
    if 0 <= i < |run| {
      assert run[i] == c;
    }
  }

  function Lower(c: char): char {
    if IsUpper(c) then (c as int + 32) as char else c
  }

  /** Whether d is c, or the small letter for it. */
  ghost predicate LowersTo(c: char, d: char) {
    if c in UPPER then exists k :: 0 <= k < |UPPER| && UPPER[k] == c && LOWER[k] == d else d == c
  }

  lemma LowerMeans(c: char)
    ensures LowersTo(c, Lower(c))
  {
    InRun(UPPER, 'A', c);
    if IsUpper(c) {
      LettersPair(c as int - 'A' as int);
    }
  }

  lemma LettersPair(k: nat)
    requires k < 26
    ensures UPPER[k] as int == 'A' as int + k && LOWER[k] as int == 'a' as int + k
  {
  }

  function ToLower(s: string): (t: string)
    ensures |t| == |s|
    ensures forall i | 0 <= i < |s| :: t[i] == Lower(s[i])
  {
    if s == "" then "" else [Lower(s[0])] + ToLower(s[1..])
  }

  function TrimLeft(s: string, drop: char -> bool): (t: string)
    ensures t == "" || !drop(t[0])
    ensures |t| <= |s|
  {
    if s != "" && drop(s[0]) then TrimLeft(s[1..], drop) else s
  }

  function TrimRight(s: string, drop: char -> bool): (t: string)
    ensures t <= s
    ensures t == "" || !drop(t[|t| - 1])
    ensures forall i | |t| <= i < |s| :: drop(s[i])
  {
    if s != "" && drop(s[|s| - 1]) then TrimRight(s[..|s| - 1], drop) else s
  }

  function TrimSpace(s: string): string {
    TrimRight(TrimLeft(s, IsSpace), IsSpace)
  }

  /** Whether s holds nothing but white space. */
  ghost predicate Blank(s: string) {
    forall c | c in s :: c in SPACES
  }

  /** Trimming takes the white space around a string, and nothing else. */
  lemma TrimSpaceMeans(s: string) returns (before: string, after: string)
    ensures s == before + TrimSpace(s) + after && Blank(before) && Blank(after)
    ensures var t := TrimSpace(s); t != "" ==> t[0] !in SPACES && t[|t| - 1] !in SPACES
  {
    hide IsSpace, Blank, TrimLeft, TrimRight;
    before := TrimLeftMeans(s);
    after := TrimRightMeans(TrimLeft(s, IsSpace));
    var t := TrimRight(TrimLeft(s, IsSpace), IsSpace);
    assert before + (t + after) == before + t + after;
    if t != "" {
      assert t[0] == TrimLeft(s, IsSpace)[0];
      SpaceMeans(t[0]);
      SpaceMeans(t[|t| - 1]);
    }
  }

  lemma TrimRightMeans(s: string) returns (after: string)
    ensures s == TrimRight(s, IsSpace) + after && Blank(after)
  {
    hide IsSpace;
    var t := TrimRight(s, IsSpace);
    after := s[|t|..];
    assert s == t + after;
    forall c | c in after
      ensures c in SPACES
    {
      var i :| 0 <= i < |after| && after[i] == c;
      assert after[i] == s[|t| + i] && IsSpace(s[|t| + i]);
      SpaceMeans(c);
    }
  }

  lemma {:induction false} TrimLeftMeans(s: string) returns (before: string)
    ensures s == before + TrimLeft(s, IsSpace) && Blank(before)
  {
    before := "";
    if s != "" && IsSpace(s[0]) {
      var rest := TrimLeftMeans(s[1..]);
      before := [s[0]] + rest;
      SpaceMeans(s[0]);
      assert s == [s[0]] + s[1..];
    }
  }

  /** Every occurrence of one character replaced by another. */
  function ReplaceAll(s: string, from: char, to: char): (t: string)
    ensures |t| == |s|
    ensures forall i | 0 <= i < |s| :: t[i] == if s[i] == from then to else s[i]
  {
    if s == "" then "" else [if s[0] == from then to else s[0]] + ReplaceAll(s[1..], from, to)
  }

  // ----- Joining -----

  function Join(parts: seq<string>, separator: char): string {
    if parts == [] then ""
    else if |parts| == 1 then parts[0]
    else parts[0] + [separator] + Join(parts[1..], separator)
  }

  /** The parts between separators. */
  function Split(s: string, separator: char): seq<string> {
    var i := IndexOf(s, separator);
    if i == |s| then [s] else [s[..i]] + Split(s[i + 1..], separator)
  }

  /** Splitting undoes joining, as long as no part holds the separator. */
  lemma {:induction false} SplitJoin(parts: seq<string>, separator: char)
    requires parts != [] && forall s | s in parts :: separator !in s
    ensures Split(Join(parts, separator), separator) == parts
  {
    FirstPart(parts, separator);
    var j := Join(parts, separator);
    if |parts| > 1 {
      assert j[|parts[0]| + 1..] == Join(parts[1..], separator);
      SplitJoin(parts[1..], separator);
    }
  }

  /** Joining undoes splitting. */
  lemma {:induction false} JoinSplit(s: string, separator: char)
    ensures Split(s, separator) != [] && Join(Split(s, separator), separator) == s
  {
    hide IndexOf, Join;
    var i := IndexOf(s, separator);
    if i < |s| {
      var rest := Split(s[i + 1..], separator);
      JoinSplit(s[i + 1..], separator);
      assert s == s[..i] + [separator] + s[i + 1..];
      JoinFirst(s[..i], rest, separator);
    } else {
      JoinOne(s, separator);
    }
  }

  lemma JoinOne(s: string, separator: char)
    ensures Join([s], separator) == s
  {
  }

  lemma JoinFirst(first: string, rest: seq<string>, separator: char)
    requires rest != []
    ensures Join([first] + rest, separator) == first + [separator] + Join(rest, separator)
  {
    assert ([first] + rest)[1..] == rest;
  }

  /** A separator splits a string in two. */
  lemma {:induction false} SplitAt(a: string, b: string, separator: char)
    ensures Split(a + [separator] + b, separator) == Split(a, separator) + Split(b, separator)
  {
    hide IndexOf;
    var s, i := a + [separator] + b, IndexOf(a, separator);
    FirstIndex(s, separator, i);
    if i < |a| {
      SplitAt(a[i + 1..], b, separator);
      assert s[i + 1..] == a[i + 1..] + [separator] + b && s[..i] == a[..i];
      assert [a[..i]] + (Split(a[i + 1..], separator) + Split(b, separator)) == Split(a, separator) + Split(b, separator);
    } else {
      assert s[i + 1..] == b && s[..i] == a;
    }
  }

  lemma {:induction false} JoinAppend(a: seq<string>, b: seq<string>, separator: char)
    requires b != []
    ensures a == [] ==> Join(a + b, separator) == Join(b, separator)
    ensures a != [] ==> Join(a + b, separator) == Join(a, separator) + ([separator] + Join(b, separator))
  {
    if a == [] {
      assert a + b == b;
    } else {
      JoinAppend(a[1..], b, separator);
      assert (a + b)[1..] == a[1..] + b;
    }
  }

  lemma FirstIndex(s: string, c: char, i: nat)
    requires i < |s| && s[i] == c && forall k | 0 <= k < i :: s[k] != c
    ensures IndexOf(s, c) == i
  {
  }

  /** Joined lists can be told apart when no part holds the separator. */
  lemma JoinInjective(a: seq<string>, b: seq<string>, separator: char)
    requires a != [] && b != []
    requires forall s | s in a || s in b :: separator !in s
    requires Join(a, separator) == Join(b, separator)
    ensures a == b
  {
    SplitJoin(a, separator);
    SplitJoin(b, separator);
  }

  lemma FirstPart(a: seq<string>, separator: char)
    requires a != [] && separator !in a[0]
    ensures var j := Join(a, separator); var i := IndexOf(j, separator);
            j[..i] == a[0] && (i == |j| <==> |a| == 1)
  {
    var j := Join(a, separator);
    if |a| > 1 {
      assert j == a[0] + ([separator] + Join(a[1..], separator));
      assert j[|a[0]|] == separator;
    }
  }
}
