/**
 * The parts of java.lang.String, java.lang.Character and java.util.regex that the
 * modelled code relies on. A Java `String` is a `seq<char>` here.
 */
module JavaString {

  // ---------------------------------------------------------------------------
  // Character classes. Java has four different notions of "white space" and the
  // modelled code uses all of them, so each one is kept separately.
  // ---------------------------------------------------------------------------

  /** Characters removed by `String.trim()`: every code point up to U+0020. */
  predicate IsTrimmable(c: char) {
    c <= ' '
  }

  /** `Character.isWhitespace`, which `String.isBlank()` uses. */
  predicate IsJavaWhitespace(c: char) {
    || ('\t' <= c <= '\r')
    || ('\U{1C}' <= c <= '\U{1F}')
    || c == ' '
    || c == '\U{1680}'
    || ('\U{2000}' <= c <= '\U{2006}')
    || ('\U{2008}' <= c <= '\U{200A}')
    || c == '\U{2028}' || c == '\U{2029}' || c == '\U{205F}' || c == '\U{3000}'
  }

  /** `\s` in a regex compiled without flags: `[ \t\n\x0B\f\r]`. */
  predicate IsRegexSpace(c: char) {
    c == ' ' || ('\t' <= c <= '\r')
  }

  /** `\s` under `Pattern.UNICODE_CHARACTER_CLASS`: the Unicode White_Space property. */
  predicate IsUnicodeSpace(c: char) {
    || ('\t' <= c <= '\r')
    || c == ' '
    || c == '\U{85}' || c == '\U{A0}' || c == '\U{1680}'
    || ('\U{2000}' <= c <= '\U{200A}')
    || c == '\U{2028}' || c == '\U{2029}' || c == '\U{202F}' || c == '\U{205F}' || c == '\U{3000}'
  }

  /** The characters a regex `.` does not match (no DOTALL, no UNIX_LINES). */
  predicate IsLineTerminator(c: char) {
    c == '\n' || c == '\r' || c == '\U{85}' || c == '\U{2028}' || c == '\U{2029}'
  }

  predicate IsAsciiUpper(c: char) {
    'A' <= c <= 'Z'
  }

  predicate IsAsciiLower(c: char) {
    'a' <= c <= 'z'
  }

  predicate IsAsciiDigit(c: char) {
    '0' <= c <= '9'
  }

  // ---------------------------------------------------------------------------
  // isBlank and trim
  // ---------------------------------------------------------------------------

  /** `String.isBlank()`: empty or only `Character.isWhitespace` characters. */
  predicate IsBlank(s: string) {
    forall i | 0 <= i < |s| :: IsJavaWhitespace(s[i])
  }

  /** What `trim()` returns unchanged: no trimmable character at either end. */
  predicate IsTrimmed(s: string) {
    |s| == 0 || (!IsTrimmable(s[0]) && !IsTrimmable(s[|s| - 1]))
  }

  /** `s` with its leading trimmable characters removed. */
  function TrimStart(s: string): (r: string)
    ensures |r| <= |s|
  {
    if |s| > 0 && IsTrimmable(s[0]) then TrimStart(s[1..]) else s
  }

  /** `TrimStart` removes a prefix of trimmable characters, and no more. */
  lemma {:induction false} TrimStartFacts(s: string)
    ensures TrimStart(s) == s[|s| - |TrimStart(s)|..]
    ensures |TrimStart(s)| > 0 ==> !IsTrimmable(TrimStart(s)[0])
    ensures forall i | 0 <= i < |s| - |TrimStart(s)| :: IsTrimmable(s[i])
    decreases |s|
  {
    if |s| > 0 && IsTrimmable(s[0]) {
      TrimStartFacts(s[1..]);
    }
  }

  /** `s` with its trailing trimmable characters removed. */
  function TrimEnd(s: string): (r: string)
    ensures |r| <= |s|
  {
    if |s| > 0 && IsTrimmable(s[|s| - 1]) then TrimEnd(s[..|s| - 1]) else s
  }

  /** `TrimEnd` removes a suffix of trimmable characters, and no more. */
  lemma {:induction false} TrimEndFacts(s: string)
    ensures TrimEnd(s) == s[..|TrimEnd(s)|]
    ensures |TrimEnd(s)| > 0 ==> !IsTrimmable(TrimEnd(s)[|TrimEnd(s)| - 1])
    ensures forall i | |TrimEnd(s)| <= i < |s| :: IsTrimmable(s[i])
    decreases |s|
  {
    if |s| > 0 && IsTrimmable(s[|s| - 1]) {
      TrimEndFacts(s[..|s| - 1]);
    }
  }

  /** `String.trim()`. */
  function Trim(s: string): (r: string)
    ensures IsTrimmed(r)
    ensures |r| <= |s|
  {
    var t := TrimStart(s);
    TrimStartFacts(s);
    TrimEndFacts(t);
    TrimEnd(t)
  }

  /** `trim()` keeps a contiguous part of the string, so it adds no character. */
  lemma TrimKeepsCharacters(s: string)
    ensures forall c :: c in Trim(s) ==> c in s
  {
    var t := TrimStart(s);
    TrimStartFacts(s);
    TrimEndFacts(t);
    assert forall c :: c in TrimEnd(t) ==> c in t;
  }

  /** Trimming what is already trimmed changes nothing. */
  lemma TrimTrimmed(s: string)
    requires IsTrimmed(s)
    ensures Trim(s) == s
  {
  }

  /** The trimmable characters `trim()` removes in front of the text. */
  function LeadingPad(s: string): (pad: string)
    ensures forall i | 0 <= i < |pad| :: IsTrimmable(pad[i])
  {
    TrimStartFacts(s);
    s[..|s| - |TrimStart(s)|]
  }

  /** The trimmable characters `trim()` removes behind the text. */
  function TrailingPad(s: string): (pad: string)
    ensures forall i | 0 <= i < |pad| :: IsTrimmable(pad[i])
  {
    TrimEndFacts(TrimStart(s));
    TrimStart(s)[|Trim(s)|..]
  }

  lemma SliceParts(s: string, t: string, r: string)
    requires |t| <= |s| && t == s[|s| - |t|..]
    requires |r| <= |t| && r == t[..|r|]
    ensures s == s[..|s| - |t|] + r + t[|r|..]
  {
    assert t == r + t[|r|..];
  }

  /** Any string is its trimmed core between the two pads `trim()` removes. */
  lemma TrimDecomposition(s: string)
    ensures s == LeadingPad(s) + Trim(s) + TrailingPad(s)
  {
    var t := TrimStart(s);
    TrimStartFacts(s);
    TrimEndFacts(t);
    SliceParts(s, t, TrimEnd(t));
  }

  /** Trimmable characters around a string are exactly what `trim()` removes. */
  lemma {:induction false} TrimPadded(pre: string, s: string, post: string)
    requires forall i | 0 <= i < |pre| :: IsTrimmable(pre[i])
    requires forall i | 0 <= i < |post| :: IsTrimmable(post[i])
    requires IsTrimmed(s) && |s| > 0
    ensures Trim(pre + s + post) == s
  {
    var t := pre + s + post;
    TrimStartPadded(pre, s + post);
    assert pre + (s + post) == t;
    TrimEndPadded(s, post);
  }

  lemma {:induction false} TrimStartPadded(pre: string, s: string)
    requires forall i | 0 <= i < |pre| :: IsTrimmable(pre[i])
    requires |s| > 0 && !IsTrimmable(s[0])
    ensures TrimStart(pre + s) == s
  {
    if |pre| > 0 {
      assert (pre + s)[1..] == pre[1..] + s;
      TrimStartPadded(pre[1..], s);
    } else {
      assert pre + s == s;
    }
  }

  lemma {:induction false} TrimEndPadded(s: string, post: string)
    requires forall i | 0 <= i < |post| :: IsTrimmable(post[i])
    requires |s| > 0 && !IsTrimmable(s[|s| - 1])
    ensures TrimEnd(s + post) == s
  {
    if |post| > 0 {
      assert (s + post)[..|s + post| - 1] == s + post[..|post| - 1];
      TrimEndPadded(s, post[..|post| - 1]);
    } else {
      assert s + post == s;
    }
  }

  /** A string of trimmable characters trims to the empty string. */
  lemma TrimAllTrimmable(s: string)
    requires forall i | 0 <= i < |s| :: IsTrimmable(s[i])
    ensures Trim(s) == ""
  {
    TrimStartFacts(s);
  }

  // ---------------------------------------------------------------------------
  // Searching
  // ---------------------------------------------------------------------------

  /** `s.lastIndexOf(c)`: the last index holding `c`, or -1. */
  function LastIndexOf(s: string, c: char): (r: int)
    ensures -1 <= r < |s|
    ensures r >= 0 ==> s[r] == c
    ensures forall i | r < i < |s| :: s[i] != c
  {
    if |s| == 0 then -1
    else if s[|s| - 1] == c then |s| - 1
    else LastIndexOf(s[..|s| - 1], c)
  }

  /** `s.indexOf(c, from)`, except that "absent" is reported as `|s|` rather than -1. */
  function IndexOfFrom(s: string, c: char, from: nat): (r: nat)
    requires from <= |s|
    ensures from <= r <= |s|
    ensures r < |s| ==> s[r] == c
    ensures forall i | from <= i < r :: s[i] != c
    decreases |s| - from
  {
    if from == |s| then |s|
    else if s[from] == c then from
    else IndexOfFrom(s, c, from + 1)
  }

  /** The first occurrence found by `IndexOfFrom` is any `c` with no `c` before it. */
  lemma IndexOfFromIs(s: string, c: char, from: nat, r: nat)
    requires from <= r < |s| && s[r] == c
    requires forall i | from <= i < r :: s[i] != c
    ensures IndexOfFrom(s, c, from) == r
  {
  }

  /** The text after the last occurrence of `c` (all of `s` when `c` does not occur). */
  function AfterLast(s: string, c: char): (r: string)
    ensures c !in r
    ensures |r| <= |s| && r == s[|s| - |r|..]
    ensures c !in s ==> r == s
    ensures c in s ==> |r| < |s| && s[|s| - |r| - 1] == c
  {
    var k := LastIndexOf(s, c);
    NoneAfter(s, c, k);
    s[k + 1..]
  }

  lemma NoneAfter(s: string, c: char, k: int)
    requires -1 <= k < |s| && forall i | k < i < |s| :: s[i] != c
    ensures c !in s[k + 1..]
  {
  }

  predicate StartsWith(s: string, prefix: string) {
    prefix <= s
  }

  predicate EndsWith(s: string, suffix: string) {
    |suffix| <= |s| && s[|s| - |suffix|..] == suffix
  }

  /** `sub` occurs in `s` starting at index `i`. */
  predicate OccursAt(s: string, sub: string, i: int) {
    0 <= i <= |s| - |sub| && s[i..i + |sub|] == sub
  }

  /** `s.contains(sub)`. */
  predicate Contains(s: string, sub: string) {
    exists i | 0 <= i <= |s| - |sub| :: OccursAt(s, sub, i)
  }

  // ---------------------------------------------------------------------------
  // Building strings
  // ---------------------------------------------------------------------------

  /**
   * `s.replace(target, replacement)`: every non-overlapping occurrence of `target`,
   * scanning from the left, is replaced.
   */
  function Replace(s: string, target: string, replacement: string): string
    requires |target| > 0
    decreases |s|
  {
    if |s| < |target| then s
    else if s[..|target|] == target then replacement + Replace(s[|target|..], target, replacement)
    else [s[0]] + Replace(s[1..], target, replacement)
  }

  /** A string that does not contain `target` is left alone by `Replace`. */
  lemma {:induction false} ReplaceAbsent(s: string, target: string, replacement: string)
    requires |target| > 0 && !Contains(s, target)
    ensures Replace(s, target, replacement) == s
    decreases |s|
  {
    if |s| >= |target| {
      assert !OccursAt(s, target, 0);
      assert !Contains(s[1..], target) by {
        if Contains(s[1..], target) {
          var i :| OccursAt(s[1..], target, i);
          assert OccursAt(s[1..], target, i);
          assert s[i + 1..i + 1 + |target|] == s[1..][i..i + |target|];
          assert OccursAt(s, target, i + 1);
        }
      }
      ReplaceAbsent(s[1..], target, replacement);
    }
  }

  function ToUpperChar(c: char): char {
    if IsAsciiLower(c) then (c as int - 32) as char else c
  }

  function ToLowerChar(c: char): char {
    if IsAsciiUpper(c) then (c as int + 32) as char else c
  }

  /** `String.toUpperCase()`, restricted to ASCII letters. */
  function ToUpper(s: string): (r: string)
    ensures |r| == |s|
    ensures forall i | 0 <= i < |s| :: r[i] == ToUpperChar(s[i])
  {
    seq(|s|, i requires 0 <= i < |s| => ToUpperChar(s[i]))
  }

  /** `String.toLowerCase()`, restricted to ASCII letters. */
  function ToLower(s: string): (r: string)
    ensures |r| == |s|
    ensures forall i | 0 <= i < |s| :: r[i] == ToLowerChar(s[i])
  {
    seq(|s|, i requires 0 <= i < |s| => ToLowerChar(s[i]))
  }

  /** `String.join(sep, parts)`. */
  function Join(parts: seq<string>, sep: string): string {
    if |parts| == 0 then ""
    else if |parts| == 1 then parts[0]
    else parts[0] + sep + Join(parts[1..], sep)
  }

  /** The first part opens the joined text. */
  lemma JoinStartsWithFirst(parts: seq<string>, sep: string)
    requires |parts| > 0
    ensures |parts[0]| <= |Join(parts, sep)| && Join(parts, sep)[..|parts[0]|] == parts[0]
  {
    if |parts| > 1 {
      assert Join(parts, sep) == parts[0] + (sep + Join(parts[1..], sep));
    }
  }

  /** The last part closes the joined text. */
  lemma {:induction false} JoinEndsWithLast(parts: seq<string>, sep: string)
    requires |parts| > 0
    ensures EndsWith(Join(parts, sep), parts[|parts| - 1])
    decreases |parts|
  {
    if |parts| > 1 {
      JoinEndsWithLast(parts[1..], sep);
      assert parts[1..][|parts| - 2] == parts[|parts| - 1];
    }
  }

  function IntToString(n: int): (r: string)
    ensures |r| > 0
  {
    if n < 0 then "-" + NatToString(-n) else NatToString(n)
  }

  function NatToString(n: nat): (r: string)
    ensures |r| > 0 && forall i | 0 <= i < |r| :: IsAsciiDigit(r[i])
  {
    var d := ['0' + (n % 10) as char];
    if n < 10 then d else NatToString(n / 10) + d
  }

  // ---------------------------------------------------------------------------
  // Splitting on a separator character and keeping the trimmed, non-empty parts
  // ---------------------------------------------------------------------------

  /** Counting `c` in `s` from its first occurrence at `k`, when there is one. */
  lemma CountFromFirst(s: string, c: char, k: nat)
    requires k <= |s| && (k < |s| ==> s[k] == c) && forall i | 0 <= i < k :: s[i] != c
    ensures k == |s| ==> multiset(s)[c] == 0
    ensures k < |s| ==> multiset(s)[c] == multiset(s[k + 1..])[c] + 1
  {
    assert c !in s[..k];
    if k < |s| {
      assert s == s[..k] + [s[k]] + s[k + 1..];
    } else {
      assert s[..k] == s;
    }
  }

  /**
   * The pieces of `s` between occurrences of `sep`, in order (no piece is dropped): one more
   * than there are separators, none holding one.
   */
  function SplitOn(s: string, sep: char): (pieces: seq<string>)
    ensures |pieces| == multiset(s)[sep] + 1
    ensures forall i | 0 <= i < |pieces| :: sep !in pieces[i]
    decreases |s|
  {
    var k := IndexOfFrom(s, sep, 0);
    CountFromFirst(s, sep, k);
    if k == |s| then
      [s]
    else
      var rest := SplitOn(s[k + 1..], sep);
      assert forall i | 1 <= i < |rest| + 1 :: ([s[..k]] + rest)[i] == rest[i - 1];
      [s[..k]] + rest
  }

  /** Each part trimmed, empty results dropped, order kept. */
  function TrimmedNonEmpty(parts: seq<string>): (r: seq<string>)
    ensures |r| <= |parts|
    ensures forall i | 0 <= i < |r| :: r[i] != "" && IsTrimmed(r[i])
  {
    if parts == [] then []
    else (if Trim(parts[0]) == "" then [] else [Trim(parts[0])]) + TrimmedNonEmpty(parts[1..])
  }

  lemma {:induction false} TrimmedNonEmptyAppend(a: seq<string>, b: seq<string>)
    ensures TrimmedNonEmpty(a + b) == TrimmedNonEmpty(a) + TrimmedNonEmpty(b)
  {
    if a == [] {
      assert a + b == b;
    } else {
      assert (a + b)[1..] == a[1..] + b;
      TrimmedNonEmptyAppend(a[1..], b);
    }
  }

  lemma TrimmedNonEmptySingle(x: string)
    ensures TrimmedNonEmpty([x]) == if Trim(x) == "" then [] else [Trim(x)]
  {
    assert [x][1..] == [];
  }

  /** Parts that are already trimmed and non-empty pass through unchanged. */
  lemma {:induction false} TrimmedNonEmptyKeeps(parts: seq<string>)
    requires forall i | 0 <= i < |parts| :: parts[i] != "" && IsTrimmed(parts[i])
    ensures TrimmedNonEmpty(parts) == parts
  {
    if parts != [] {
      TrimTrimmed(parts[0]);
      TrimmedNonEmptyKeeps(parts[1..]);
    }
  }

  /** Splitting a join undoes it when no part contains the separator. */
  lemma {:induction false} SplitOnJoin(parts: seq<string>, sep: char)
    requires |parts| > 0
    requires forall i | 0 <= i < |parts| :: sep !in parts[i]
    ensures SplitOn(Join(parts, [sep]), sep) == parts
  {
    var s := Join(parts, [sep]);
    if |parts| == 1 {
      assert IndexOfFrom(s, sep, 0) == |s|;
    } else {
      var rest := Join(parts[1..], [sep]);
      assert s == parts[0] + [sep] + rest;
      assert IndexOfFrom(s, sep, 0) == |parts[0]| by {
        assert forall i | 0 <= i < |parts[0]| :: s[i] == parts[0][i];
        assert s[|parts[0]|] == sep;
      }
      assert s[..|parts[0]|] == parts[0];
      assert s[|parts[0]| + 1..] == rest;
      SplitOnJoin(parts[1..], sep);
    }
  }
}
