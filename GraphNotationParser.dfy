/**
 * `GraphNotationParser`: the tolerant, line-oriented parser of the compact graph notation
 *
 *   NodeName
 *     ├─[relation]→ target1, target2
 *     └─[by]← Caller.method()
 *
 * Blocks are separated by blank lines; in each block the first line that is not an edge
 * names the node and every edge line becomes a typed, directed `GraphEdge`.
 *
 * The three regular expressions of the source are modelled as deterministic scanners:
 * `EDGE_LINE` by `MatchEdgeLine`, the line split `\r?\n` by `SplitLines` and the block
 * split `\n\s*\n` by `SplitBlocks`.
 */
module GraphNotationParser {
  import opened Wrappers
  import opened JavaString
  import opened GraphEdges
  import opened GraphNodes

  const BranchMark: char := '\U{251C}'      // ├
  const LastBranchMark: char := '\U{2514}'  // └
  const HorizontalBar: char := '\U{2500}'   // ─
  const RightArrow: char := '\U{2192}'      // →
  const LeftArrow: char := '\U{2190}'       // ←

  // ===========================================================================
  // stripJavadocPrefix
  // ===========================================================================

  /** Trims the line and, when it then starts with `*`, drops that one `*` and trims again. */
  function StripJavadocPrefix(line: string): (r: string)
    ensures IsTrimmed(r)
  {
    var s := Trim(line);
    if |s| > 0 && s[0] == '*' then Trim(s[1..]) else s
  }

  lemma CommentLineShape(line: string, a: string, core: string, b: string)
    requires line == a + core + b
    ensures " * " + line == " " + ("* " + a + core) + b
    ensures ("* " + a + core)[1..] == (" " + a) + core + ""
    ensures core == "" ==> " * " + line == " " + "*" + (" " + a + b)
  {
  }

  /**
   * A documentation-comment line, ` * ` followed by the text, normalises exactly like the
   * text alone, provided the text itself does not start with `*`.
   */
  lemma StripJavadocPrefixOfCommentLine(line: string)
    requires Trim(line) == "" || Trim(line)[0] != '*'
    ensures StripJavadocPrefix(" * " + line) == StripJavadocPrefix(line)
  {
    TrimDecomposition(line);
    if Trim(line) == "" {
      BlankCommentLine(line, LeadingPad(line), TrailingPad(line));
    } else {
      TextCommentLine(line, LeadingPad(line), Trim(line), TrailingPad(line));
    }
  }

  lemma BlankCommentLine(line: string, a: string, b: string)
    requires line == a + "" + b
    requires forall i | 0 <= i < |a| :: IsTrimmable(a[i])
    requires forall i | 0 <= i < |b| :: IsTrimmable(b[i])
    ensures StripJavadocPrefix(" * " + line) == ""
  {
    var rest := " " + a + b;
    CommentLineShape(line, a, "", b);
    assert forall i | 0 <= i < |rest| :: IsTrimmable(rest[i]);
    TrimPadded(" ", "*", rest);
  }

  lemma TextCommentLine(line: string, a: string, core: string, b: string)
    requires line == a + core + b && core != "" && IsTrimmed(core) && core[0] != '*'
    requires forall i | 0 <= i < |a| :: IsTrimmable(a[i])
    requires forall i | 0 <= i < |b| :: IsTrimmable(b[i])
    ensures StripJavadocPrefix(" * " + line) == core
  {
    var mid := "* " + a + core;
    CommentLineShape(line, a, core, b);
    assert IsTrimmed(mid);
    TrimPadded(" ", mid, b);
    assert forall i | 0 <= i < |" " + a| :: IsTrimmable((" " + a)[i]);
    TrimPadded(" " + a, core, "");
  }

  // ===========================================================================
  // EDGE_LINE: \s*[├└]─\s*\[([^]]+)\]\s*(→|←)\s*(.+)  (UNICODE_CHARACTER_CLASS, whole line)
  // ===========================================================================

  /** The first index at or after `i` that does not hold a Unicode space (`\s*` is greedy). */
  function SkipUnicodeSpaces(s: string, i: nat): (j: nat)
    requires i <= |s|
    ensures i <= j <= |s|
    ensures j < |s| ==> !IsUnicodeSpace(s[j])
    decreases |s| - i
  {
    if i == |s| || !IsUnicodeSpace(s[i]) then i else SkipUnicodeSpaces(s, i + 1)
  }

  /**
   * The group `(.+)` when `\s*(.+)` must match all of `rest`. `\s*` takes as much as it can
   * while leaving a non-empty remainder free of line terminators (which `.` does not match).
   */
  function MatchTargetGroup(rest: string): (g: Option<string>)
    ensures g.Some? ==> |g.value| > 0 && EndsWith(rest, g.value)
    ensures g.Some? ==> forall k | 0 <= k < |g.value| :: !IsLineTerminator(g.value[k])
  {
    var k := SkipUnicodeSpaces(rest, 0);
    if k < |rest| then
      if forall i | k <= i < |rest| :: !IsLineTerminator(rest[i]) then Some(rest[k..]) else None
    else if |rest| > 0 && !IsLineTerminator(rest[|rest| - 1]) then Some(rest[|rest| - 1..])
    else None
  }

  /** The three groups of a successful `EDGE_LINE` match. */
  datatype EdgeMatch = EdgeMatch(relation: string, arrow: char, targetText: string)

  /** `EDGE_LINE.matcher(line).matches()` and its groups. */
  function MatchEdgeLine(line: string): (m: Option<EdgeMatch>)
    ensures m.Some? ==> m.value.arrow == RightArrow || m.value.arrow == LeftArrow
    ensures m.Some? ==> |m.value.relation| > 0 && |m.value.targetText| > 0
  {
    var p0 := SkipUnicodeSpaces(line, 0);
    if p0 + 1 < |line| && (line[p0] == BranchMark || line[p0] == LastBranchMark) && line[p0 + 1] == HorizontalBar then
      MatchRelation(line, SkipUnicodeSpaces(line, p0 + 2))
    else None
  }

  /** The rest of the match from `p1`, where `\[([^]]+)\]` must start. */
  function MatchRelation(line: string, p1: nat): (m: Option<EdgeMatch>)
    requires p1 <= |line|
    ensures m.Some? ==> m.value.arrow == RightArrow || m.value.arrow == LeftArrow
    ensures m.Some? ==> |m.value.relation| > 0 && |m.value.targetText| > 0
  {
    if p1 < |line| && line[p1] == '[' then
      // `[^]]+` stops at the first `]`, which must exist and must not come right away
      var q := IndexOfFrom(line, ']', p1 + 1);
      if p1 + 1 < q < |line| then MatchArrow(line, line[p1 + 1..q], q + 1) else None
    else None
  }

  /** The rest of the match after the relation's `]`: `\s*(→|←)\s*(.+)` to the end of the line. */
  function MatchArrow(line: string, relation: string, k: nat): (m: Option<EdgeMatch>)
    requires k <= |line| && |relation| > 0
    ensures m.Some? ==> m.value.arrow == RightArrow || m.value.arrow == LeftArrow
    ensures m.Some? ==> |m.value.relation| > 0 && |m.value.targetText| > 0
  {
    var p2 := SkipUnicodeSpaces(line, k);
    if p2 < |line| && (line[p2] == RightArrow || line[p2] == LeftArrow) then
      match MatchTargetGroup(line[p2 + 1..])
      case Some(g) => Some(EdgeMatch(relation, line[p2], g))
      case None => None
    else None
  }

  /** A line whose first character is neither a space nor a branch mark is never an edge. */
  lemma NotAnEdgeLine(line: string)
    requires |line| > 0 && !IsUnicodeSpace(line[0]) && line[0] != BranchMark && line[0] != LastBranchMark
    ensures MatchEdgeLine(line).None?
  {
  }

  /** `\s*(.+)` after the arrow: one space before a non-space text leaves the text as the group. */
  lemma TargetGroupAfterSpace(text: string)
    requires |text| > 0 && !IsUnicodeSpace(text[0])
    requires forall i | 0 <= i < |text| :: !IsLineTerminator(text[i])
    ensures MatchTargetGroup([' '] + text) == Some(text)
  {
    var rest := [' '] + text;
    assert SkipUnicodeSpaces(rest, 1) == 1;
    assert forall i | 1 <= i < |rest| :: rest[i] == text[i - 1];
    assert rest[1..] == text;
  }

  /** Where the pieces of `├─[rel]→ text` sit in the line: `]` at `q`, the arrow at `a`, the group from `g`. */
  lemma OutboundEdgeLineShape(line: string, rel: string, text: string, q: nat, a: nat, g: nat)
    requires line == [BranchMark, HorizontalBar, '['] + rel + [']', RightArrow, ' '] + text
    requires q == 3 + |rel| && a == q + 1 && g == a + 1
    ensures g < |line|
    ensures line[0] == BranchMark && line[1] == HorizontalBar && line[2] == '['
    ensures line[3..q] == rel && line[q] == ']' && line[a] == RightArrow
    ensures line[g..] == [' '] + text
  {
    assert line[3..q] == rel;
    assert line[g..] == [' '] + text;
  }

  /** The scanner on a line laid out as `├─[rel]→ text`, whatever the line is made of. */
  lemma MatchOutboundLayout(line: string, rel: string, text: string, q: nat, a: nat, g: nat)
    requires |rel| > 0 && ']' !in rel
    requires |text| > 0 && !IsUnicodeSpace(text[0])
    requires forall i | 0 <= i < |text| :: !IsLineTerminator(text[i])
    requires q == 3 + |rel| && a == q + 1 && g == a + 1 && g < |line|
    requires line[0] == BranchMark && line[1] == HorizontalBar && line[2] == '['
    requires line[3..q] == rel && line[q] == ']' && line[a] == RightArrow
    requires line[g..] == [' '] + text
    ensures MatchEdgeLine(line) == Some(EdgeMatch(rel, RightArrow, text))
  {
    RelationEndsAt(line, rel, q);
    MatchArrowAt(line, rel, text, a, g);
    MatchRelationAt(line, rel, q, a, Some(EdgeMatch(rel, RightArrow, text)));
    assert SkipUnicodeSpaces(line, 0) == 0;
    assert SkipUnicodeSpaces(line, 2) == 2;
  }

  /** A relation without `]` between `[` at 2 and `]` at `q`: the first `]` after the bracket is at `q`. */
  lemma RelationEndsAt(line: string, rel: string, q: nat)
    requires q == 3 + |rel| && q < |line| && ']' !in rel
    requires line[3..q] == rel && line[q] == ']'
    ensures IndexOfFrom(line, ']', 3) == q
  {
    forall i | 3 <= i < q
      ensures line[i] != ']'
    {
      assert line[i] == line[3..q][i - 3];
    }
    IndexOfFromIs(line, ']', 3, q);
  }

  /** `[` at 2 and the relation's `]` at `q`: the match continues with the arrow part after `q`. */
  lemma MatchRelationAt(line: string, rel: string, q: nat, a: nat, m: Option<EdgeMatch>)
    requires 3 < q < |line| && a == q + 1 && line[2] == '[' && line[3..q] == rel
    requires IndexOfFrom(line, ']', 3) == q && MatchArrow(line, rel, a) == m
    ensures MatchRelation(line, 2) == m
  {
  }


  /** An arrow `→` at `a` followed by one space and a non-space text matches with that text as group. */
  lemma MatchArrowAt(line: string, rel: string, text: string, a: nat, g: nat)
    requires |rel| > 0 && a < |line| && line[a] == RightArrow && g == a + 1
    requires |text| > 0 && !IsUnicodeSpace(text[0])
    requires forall i | 0 <= i < |text| :: !IsLineTerminator(text[i])
    requires line[g..] == [' '] + text
    ensures MatchArrow(line, rel, a) == Some(EdgeMatch(rel, RightArrow, text))
  {
    var p2 := SkipUnicodeSpaces(line, a);
    assert p2 == a;
    var rest := line[p2 + 1..];
    assert rest == [' '] + text;
    TargetGroupAfterSpace(text);
  }

  /** The edge line `├─[rel]→ text` matches with relation `rel`, arrow `→` and group `text`. */
  lemma MatchOutboundEdgeLine(rel: string, text: string)
    requires |rel| > 0 && ']' !in rel
    requires |text| > 0 && !IsUnicodeSpace(text[0])
    requires forall i | 0 <= i < |text| :: !IsLineTerminator(text[i])
    ensures MatchEdgeLine([BranchMark, HorizontalBar, '['] + rel + [']', RightArrow, ' '] + text)
            == Some(EdgeMatch(rel, RightArrow, text))
  {
    var line := [BranchMark, HorizontalBar, '['] + rel + [']', RightArrow, ' '] + text;
    var q := 3 + |rel|;
    OutboundEdgeLineShape(line, rel, text, q, q + 1, q + 2);
    MatchOutboundLayout(line, rel, text, q, q + 1, q + 2);
  }

  // ===========================================================================
  // splitTargets: commas at bracket depth 0 separate the targets
  // ===========================================================================

  /** `(`, `[`, `{` open a level and `)`, `]`, `}` close one; kinds are not matched. */
  function BracketDelta(c: char): int {
    if c == '(' || c == '[' || c == '{' then 1
    else if c == ')' || c == ']' || c == '}' then -1
    else 0
  }

  /** The bracket depth after reading `s[from..upTo]` from depth 0. */
  function Depth(s: string, from: nat, upTo: nat): int
    requires from <= upTo <= |s|
    decreases upTo
  {
    if upTo == from then 0 else Depth(s, from, upTo - 1) + BracketDelta(s[upTo - 1])
  }

  /** A comma that `splitTargets` splits on when it starts reading at `from`: one at depth 0. */
  predicate IsTopLevelComma(s: string, from: nat, k: int)
    requires from <= |s|
  {
    from <= k < |s| && s[k] == ',' && Depth(s, from, k) == 0
  }

  /** The first top-level comma at or after `k`, reading from `from`, or `|s|` when there is none. */
  function FirstTopLevelComma(s: string, from: nat, k: nat): (r: nat)
    requires from <= k <= |s|
    ensures k <= r <= |s|
    ensures r < |s| ==> IsTopLevelComma(s, from, r)
    ensures forall j | k <= j < r :: !IsTopLevelComma(s, from, j)
    decreases |s| - k
  {
    if k == |s| then |s|
    else if IsTopLevelComma(s, from, k) then k
    else FirstTopLevelComma(s, from, k + 1)
  }

  /** The text of `s[from..]` between consecutive top-level commas, untrimmed and in order. */
  function Segments(s: string, from: nat): (parts: seq<string>)
    requires from <= |s|
    ensures |parts| > 0
    decreases |s| - from
  {
    var k := FirstTopLevelComma(s, from, from);
    if k == |s| then [s[from..]] else [s[from..k]] + Segments(s, k + 1)
  }

  /** What `splitTargets` returns: nothing for blank text, else the trimmed non-empty segments. */
  function TargetList(s: string): (r: seq<string>)
    ensures forall i | 0 <= i < |r| :: r[i] != "" && IsTrimmed(r[i])
  {
    if IsBlank(s) then [] else TrimmedNonEmpty(Segments(s, 0))
  }

  /** Depth only looks at the characters it reads: it is unchanged by text around them. */
  lemma {:induction false} DepthShift(a: string, b: string, c: string, k: nat)
    requires k <= |b|
    ensures Depth(a + b + c, |a|, |a| + k) == Depth(b, 0, k)
    decreases k
  {
    if k > 0 {
      DepthShift(a, b, c, k - 1);
      assert (a + b + c)[|a| + k - 1] == b[k - 1];
    }
  }

  lemma {:induction false} DepthWithoutBrackets(s: string, k: nat)
    requires k <= |s|
    requires forall i | 0 <= i < |s| :: BracketDelta(s[i]) == 0
    ensures Depth(s, 0, k) == 0
    decreases k
  {
    if k > 0 {
      DepthWithoutBrackets(s, k - 1);
    }
  }

  /** Joining the segments with commas gives back the text: nothing is lost or reordered. */
  lemma {:induction false} SegmentsJoin(s: string, from: nat)
    requires from <= |s|
    ensures Join(Segments(s, from), ",") == s[from..]
    decreases |s| - from
  {
    var k := FirstTopLevelComma(s, from, from);
    if k < |s| {
      var next := k + 1;
      var rest := Segments(s, next);
      SegmentsCons(s, from, k, next);
      SegmentsJoin(s, next);
      var parts := [s[from..k]] + rest;
      assert parts[1..] == rest;
      JoinCons(parts);
      assert s[from..] == s[from..k] + ("," + s[next..]);
    }
  }


  /** No segment holds a comma at its own depth 0: the text is split at every top-level comma. */
  lemma {:induction false} SegmentsHaveNoTopLevelComma(s: string, from: nat, p: nat, j: int)
    requires from <= |s| && p < |Segments(s, from)|
    ensures !IsTopLevelComma(Segments(s, from)[p], 0, j)
    decreases |s| - from
  {
    var k := FirstTopLevelComma(s, from, from);
    if k < |s| {
      assert Segments(s, from) == [s[from..k]] + Segments(s, k + 1);
    }
    if p > 0 {
      SegmentsHaveNoTopLevelComma(s, k + 1, p - 1, j);
    } else if 0 <= j < k - from {
      var seg := s[from..k];
      assert Segments(s, from)[0] == seg;
      assert s == s[..from] + seg + s[k..];
      DepthShift(s[..from], seg, s[k..], j);
      assert !IsTopLevelComma(s, from, from + j);
    }
  }

  /** Depth reads only its own window: a window holding `p` has the depths of `p`. */
  lemma {:induction false} DepthOfSlice(s: string, k: nat, p: string, j: nat)
    requires k + |p| <= |s| && s[k..k + |p|] == p && j <= |p|
    ensures Depth(s, k, k + j) == Depth(p, 0, j)
    decreases j
  {
    if j > 0 {
      DepthOfSlice(s, k, p, j - 1);
      assert s[k + j - 1] == p[j - 1];
    }
  }

  /** Reading from the start of a comma-free part, the first top-level comma is the one after it. */
  lemma FirstCommaAfterPart(s: string, k: nat, p: string)
    requires k + |p| <= |s| && s[k..k + |p|] == p && ',' !in p
    requires k + |p| == |s| || (s[k + |p|] == ',' && Depth(p, 0, |p|) == 0)
    ensures FirstTopLevelComma(s, k, k) == k + |p|
  {
    forall j | k <= j < k + |p|
      ensures !IsTopLevelComma(s, k, j)
    {
      assert s[j] == p[j - k];
    }
    if k + |p| < |s| {
      DepthOfSlice(s, k, p, |p|);
      assert IsTopLevelComma(s, k, k + |p|);
    }
  }

  lemma JoinCons(parts: seq<string>)
    requires |parts| > 1
    ensures Join(parts, ",") == parts[0] + ("," + Join(parts[1..], ","))
  {
  }

  /** The three pieces of a text whose suffix is a part, a comma and the rest. */
  lemma PartCommaTail(s: string, k: nat, p: string, tail: string, c: nat, next: nat)
    requires k <= |s| && s[k..] == p + ("," + tail) && c == k + |p| && next == c + 1
    ensures c < |s| && s[k..c] == p && s[c] == ','
    ensures s[next..] == tail
  {
    assert s[k..][..|p|] == p;
    assert s[k..][|p|] == ',';
    assert s[k..][|p| + 1..] == tail;
  }


  /** A last part without commas is the last segment. */
  lemma SegmentsOfLastPart(s: string, k: nat, p: string)
    requires k <= |s| && s[k..] == p && ',' !in p
    ensures Segments(s, k) == [p]
  {
    assert s[k..k + |p|] == p;
    FirstCommaAfterPart(s, k, p);
  }

  /** A part without commas and with balanced brackets, then a comma, is the first segment. */
  lemma SegmentsOfPartAndRest(s: string, k: nat, p: string, tail: string, next: nat)
    requires k <= |s| && s[k..] == p + ("," + tail) && next == k + |p| + 1
    requires ',' !in p && Depth(p, 0, |p|) == 0
    ensures next <= |s| && s[next..] == tail
    ensures Segments(s, k) == [p] + Segments(s, next)
  {
    var c := k + |p|;
    PartCommaTail(s, k, p, tail, c, next);
    FirstCommaAfterPart(s, k, p);
    SegmentsCons(s, k, c, next);
  }

  /** Up to a top-level comma at `c` lies the first segment; the others start after it. */
  lemma SegmentsCons(s: string, k: nat, c: nat, next: nat)
    requires k <= c < |s| && c == FirstTopLevelComma(s, k, k) && next == c + 1
    ensures Segments(s, k) == [s[k..c]] + Segments(s, next)
  {
  }


  /** Splitting comma-joined parts without commas and with balanced brackets gives the parts. */
  lemma {:induction false} SegmentsOfJoin(s: string, k: nat, parts: seq<string>)
    requires k <= |s| && |parts| > 0 && s[k..] == Join(parts, ",")
    requires forall i | 0 <= i < |parts| :: ',' !in parts[i] && Depth(parts[i], 0, |parts[i]|) == 0
    ensures Segments(s, k) == parts
    decreases |parts|
  {
    if |parts| == 1 {
      SegmentsOfLastPart(s, k, parts[0]);
      assert parts == [parts[0]];
    } else {
      var rest := parts[1..];
      var next := k + |parts[0]| + 1;
      JoinCons(parts);
      SegmentsOfPartAndRest(s, k, parts[0], Join(rest, ","), next);
      assert forall i | 0 <= i < |rest| :: rest[i] == parts[i + 1];
      SegmentsOfJoin(s, next, rest);
      assert parts == [parts[0]] + rest;
    }
  }


  lemma Reassociate(result: seq<string>, x: seq<string>, y: seq<string>, whole: seq<string>, goal: seq<string>)
    requires whole == x + y && result + whole == goal
    ensures result + x + y == goal
  {
  }

  /** At a top-level comma the first segment ends and the rest is split on its own. */
  lemma CommaStep(result: seq<string>, t: string, start: nat, i: nat, next: nat, goal: seq<string>)
    requires start <= i < |t| && next == i + 1
    requires IsTopLevelComma(t, start, i) && FirstTopLevelComma(t, start, start) >= i
    requires result + TrimmedNonEmpty(Segments(t, start)) == goal
    ensures (if Trim(t[start..i]) == "" then result else result + [Trim(t[start..i])])
            + TrimmedNonEmpty(Segments(t, next)) == goal
  {
    SegmentsCons(t, start, i, next);
    TrimmedNonEmptyAppend([t[start..i]], Segments(t, next));
    TrimmedNonEmptySingle(t[start..i]);
    Reassociate(result, TrimmedNonEmpty([t[start..i]]), TrimmedNonEmpty(Segments(t, next)),
                TrimmedNonEmpty(Segments(t, start)), goal);
  }

  /** After the last top-level comma the rest of the text is the last segment. */
  lemma LastSegmentStep(result: seq<string>, t: string, start: nat, goal: seq<string>)
    requires start <= |t| && FirstTopLevelComma(t, start, start) == |t|
    requires result + TrimmedNonEmpty(Segments(t, start)) == goal
    ensures (if Trim(t[start..]) == "" then result else result + [Trim(t[start..])]) == goal
  {
    TrimmedNonEmptySingle(t[start..]);
  }

  /** A character other than a comma read at depth 0 moves the scan on by one. */
  lemma ScanStep(t: string, start: nat, i: nat, next: nat)
    requires start <= i < |t| && next == i + 1
    requires !(t[i] == ',' && Depth(t, start, i) == 0)
    requires FirstTopLevelComma(t, start, start) == FirstTopLevelComma(t, start, i)
    ensures Depth(t, start, next) == Depth(t, start, i) + BracketDelta(t[i])
    ensures FirstTopLevelComma(t, start, start) == FirstTopLevelComma(t, start, next)
  {
    assert !IsTopLevelComma(t, start, i);
  }

  /** Where the scan of `splitTargets` stands: current segment start, bracket depth, parts so far. */
  datatype Scan = Scan(start: nat, depth: int, parts: seq<string>)

  /** The scan state of `splitTargets` after reading the first `n` characters of `t`. */
  ghost function ScanUpTo(t: string, n: nat): (r: Scan)
    requires n <= |t|
    ensures r.start <= n
    decreases n
  {
    if n == 0 then Scan(0, 0, [])
    else
      var s := ScanUpTo(t, n - 1);
      if t[n - 1] == ',' && s.depth == 0 then
        var part := Trim(t[s.start..n - 1]);
        Scan(n, 0, if part != "" then s.parts + [part] else s.parts)
      else Scan(s.start, s.depth + BracketDelta(t[n - 1]), s.parts)
  }

  /** Every scan state lies on the way to the trimmed non-empty segments of the whole text. */
  lemma {:induction false} ScanUpToSplits(t: string, n: nat)
    requires n <= |t|
    ensures ScanUpTo(t, n).depth == Depth(t, ScanUpTo(t, n).start, n)
    ensures FirstTopLevelComma(t, ScanUpTo(t, n).start, ScanUpTo(t, n).start)
            == FirstTopLevelComma(t, ScanUpTo(t, n).start, n)
    ensures ScanUpTo(t, n).parts + TrimmedNonEmpty(Segments(t, ScanUpTo(t, n).start))
            == TrimmedNonEmpty(Segments(t, 0))
    decreases n
  {
    var goal := TrimmedNonEmpty(Segments(t, 0));
    if n == 0 {
      assert [] + goal == goal;
    } else {
      var i := n - 1;
      ScanUpToSplits(t, i);
      var s := ScanUpTo(t, i);
      if t[i] == ',' && s.depth == 0 {
        assert IsTopLevelComma(t, s.start, i);
        CommaStep(s.parts, t, s.start, i, n, goal);
      } else {
        ScanStep(t, s.start, i, n);
      }
    }
  }

  /** `splitTargets`: a forward scan with a depth counter and a segment start. */
  method SplitTargets(targetStr: string) returns (result: seq<string>)
    ensures result == TargetList(targetStr)
  {
    if IsBlank(targetStr) {
      return [];
    }
    result := [];
    var depth := 0;
    var start := 0;
    var i := 0;
    while i < |targetStr|
      invariant i <= |targetStr| && Scan(start, depth, result) == ScanUpTo(targetStr, i)
    {
      var c := targetStr[i];
      // A comma is no bracket, so testing for it first gives the same outcome as the source's
      // order (opening bracket, closing bracket, comma at depth 0).
      if c == ',' && depth == 0 {
        var part := Trim(targetStr[start..i]);
        if part != "" {
          result := result + [part];
        }
        start := i + 1;
      } else {
        if c == '(' || c == '[' || c == '{' {
          depth := depth + 1;
        } else if c == ')' || c == ']' || c == '}' {
          depth := depth - 1;
        }
      }
      i := i + 1;
    }
    ScanUpToSplits(targetStr, i);
    LastSegmentStep(result, targetStr, start, TrimmedNonEmpty(Segments(targetStr, 0)));
    var last := Trim(targetStr[start..]);
    if last != "" {
      result := result + [last];
    }
  }

  // ===========================================================================
  // parseBlock
  // ===========================================================================

  /** `line` without one trailing carriage return (the `\r?` of the split pattern). */
  function DropCarriageReturn(line: string): string {
    if |line| > 0 && line[|line| - 1] == '\r' then line[..|line| - 1] else line
  }

  /**
   * `block.split("\\r?\\n")`. Java also drops trailing empty strings; they are empty lines,
   * which `parseBlock` skips anyway, so they are kept here. There is one line more than
   * there are line feeds, and no line holds one.
   */
  function SplitLines(block: string): (lines: seq<string>)
    ensures |lines| == multiset(block)['\n'] + 1
    ensures forall i | 0 <= i < |lines| :: '\n' !in lines[i]
    decreases |block|
  {
    var k := IndexOfFrom(block, '\n', 0);
    CountFromFirst(block, '\n', k);
    if k == |block| then
      [block]
    else
      var rest := SplitLines(block[k + 1..]);
      assert forall i | 1 <= i < |rest| + 1 :: ([DropCarriageReturn(block[..k])] + rest)[i] == rest[i - 1];
      [DropCarriageReturn(block[..k])] + rest
  }

  /** Up to the first line feed at `k` lies the first line; the others start after it. */
  lemma SplitLinesAt(block: string, k: nat, next: nat)
    requires k < |block| && k == IndexOfFrom(block, '\n', 0) && next == k + 1
    ensures SplitLines(block) == [DropCarriageReturn(block[..k])] + SplitLines(block[next..])
  {
  }

  lemma SplitLinesCons(line: string, rest: string)
    requires '\n' !in line && (line == "" || line[|line| - 1] != '\r')
    ensures SplitLines(line + "\n" + rest) == [line] + SplitLines(rest)
  {
    var s := line + "\n" + rest;
    var k := |line|;
    forall j | 0 <= j < k
      ensures s[j] != '\n'
    {
      assert s[j] == line[j];
    }
    IndexOfFromIs(s, '\n', 0, k);
    assert s[..k] == line;
    assert s[k + 1..] == rest;
    SplitLinesAt(s, k, k + 1);
  }


  /** How `parseBlock` reads one line once it is normalised. */
  datatype LineKind = Skipped | NameLine(name: string) | EdgeLine(edge: GraphEdge)

  /** The edge built from a match: trimmed relation, direction from the arrow, split targets. */
  function EdgeOf(m: EdgeMatch): GraphEdge {
    NewGraphEdge(Some(Trim(m.relation)), if m.arrow == RightArrow then OUTBOUND else INBOUND,
                 Some(TargetList(Trim(m.targetText))))
  }

  /**
   * An empty normalised line is skipped, one matching `EDGE_LINE` is an edge and any other
   * is a candidate node name.
   */
  function Classify(line: string): (k: LineKind)
    ensures k.NameLine? ==> k.name != "" && IsTrimmed(k.name)
  {
    var n := StripJavadocPrefix(line);
    if n == "" then Skipped
    else match MatchEdgeLine(n)
      case Some(m) => EdgeLine(EdgeOf(m))
      case None => NameLine(n)
  }

  function Kinds(lines: seq<string>): (ks: seq<LineKind>)
    ensures |ks| == |lines|
    decreases |lines|
  {
    if lines == [] then [] else Kinds(lines[..|lines| - 1]) + [Classify(lines[|lines| - 1])]
  }

  lemma {:induction false} KindsAt(lines: seq<string>, i: nat)
    requires i < |lines|
    ensures Kinds(lines)[i] == Classify(lines[i])
    decreases |lines|
  {
    if i < |lines| - 1 {
      KindsAt(lines[..|lines| - 1], i);
    }
  }

  /** The node name chosen after reading lines of these kinds: the first name line seen. */
  function NodeName(kinds: seq<LineKind>): Option<string>
    decreases |kinds|
  {
    if kinds == [] then None
    else
      var previous := NodeName(kinds[..|kinds| - 1]);
      var last := kinds[|kinds| - 1];
      if previous.Some? then previous
      else if last.NameLine? then Some(last.name)
      else None
  }

  /** The edges collected after reading lines of these kinds, one per edge line, in order. */
  function Edges(kinds: seq<LineKind>): seq<GraphEdge>
    decreases |kinds|
  {
    if kinds == [] then []
    else
      var last := kinds[|kinds| - 1];
      Edges(kinds[..|kinds| - 1]) + (if last.EdgeLine? then [last.edge] else [])
  }

  /** The node `parseBlock` returns for a non-null block. */
  function ParsedBlock(block: string): GraphNode {
    if IsBlank(block) then NewGraphNode(Some(""), Some([]))
    else
      var kinds := Kinds(SplitLines(block));
      NewGraphNode(Some(NodeName(kinds).GetOr("")), Some(Edges(kinds)))
  }

  /** `parseBlock`, including its `null` case. */
  function ParseBlockResult(block: Option<string>): GraphNode {
    if block.None? then NewGraphNode(Some(""), Some([])) else ParsedBlock(block.value)
  }

  /** `parseBlock(null)`, `parseBlock("")` and blank blocks give an unnamed node without edges. */
  lemma ParsedBlankBlock(block: Option<string>)
    requires block.None? || IsBlank(block.value)
    ensures ParseBlockResult(block) == GraphNode("", [])
  {
  }

  /** The name is that of the first name line, whatever follows it. */
  lemma {:induction false} NodeNameIsFirstNameLine(kinds: seq<LineKind>, k: nat)
    requires k < |kinds| && kinds[k].NameLine?
    requires forall j | 0 <= j < k :: !kinds[j].NameLine?
    ensures NodeName(kinds) == Some(kinds[k].name)
    decreases |kinds|
  {
    var init := kinds[..|kinds| - 1];
    if k < |kinds| - 1 {
      assert init[k] == kinds[k];
      NodeNameIsFirstNameLine(init, k);
    } else {
      NoNameLines(init);
    }
  }

  /** Without any name line the node has no name, and only then. */
  lemma {:induction false} NoNameLines(kinds: seq<LineKind>)
    ensures NodeName(kinds).None? <==> forall j | 0 <= j < |kinds| :: !kinds[j].NameLine?
    decreases |kinds|
  {
    if kinds != [] {
      var init := kinds[..|kinds| - 1];
      NoNameLines(init);
      assert forall j | 0 <= j < |init| :: init[j] == kinds[j];
    }
  }

  /** Edges keep line order: the edges of two runs of lines are those of each, concatenated. */
  lemma {:induction false} EdgesAppend(a: seq<LineKind>, b: seq<LineKind>)
    ensures Edges(a + b) == Edges(a) + Edges(b)
    decreases |b|
  {
    if b != [] {
      assert (a + b)[..|a + b| - 1] == a + b[..|b| - 1];
      EdgesAppend(a, b[..|b| - 1]);
    } else {
      assert a + b == a;
    }
  }

  /** Every edge line contributes its edge and nothing else does. */
  lemma {:induction false} EdgesAreTheEdgeLines(kinds: seq<LineKind>, e: GraphEdge)
    ensures e in Edges(kinds) <==> EdgeLine(e) in kinds
    decreases |kinds|
  {
    if kinds != [] {
      var init := kinds[..|kinds| - 1];
      EdgesAreTheEdgeLines(init, e);
      assert kinds == init + [kinds[|kinds| - 1]];
    }
  }

  /** A documentation-comment line, ` * ` followed by the text. */
  function CommentLine(line: string): string {
    " * " + line
  }

  function CommentLines(lines: seq<string>): (r: seq<string>)
    ensures |r| == |lines|
    ensures forall i | 0 <= i < |lines| :: r[i] == CommentLine(lines[i])
  {
    seq(|lines|, i requires 0 <= i < |lines| => CommentLine(lines[i]))
  }

  /** Text whose lines do not start with a `*` of their own. */
  predicate NoLeadingStars(lines: seq<string>) {
    forall i | 0 <= i < |lines| :: Trim(lines[i]) == "" || Trim(lines[i])[0] != '*'
  }

  /** Lines prefixed with ` * ` are read exactly as the bare lines: same name, same edges. */
  lemma {:induction false} CommentLinesReadAlike(lines: seq<string>)
    requires NoLeadingStars(lines)
    ensures Kinds(CommentLines(lines)) == Kinds(lines)
    decreases |lines|
  {
    if lines != [] {
      var init := lines[..|lines| - 1];
      CommentLinesReadAlike(init);
      assert CommentLines(lines)[..|lines| - 1] == CommentLines(init);
      StripJavadocPrefixOfCommentLine(lines[|lines| - 1]);
    }
  }

  lemma ClassifyParts(line: string, n: string, m: Option<EdgeMatch>)
    requires n == StripJavadocPrefix(line) && m == MatchEdgeLine(n)
    ensures Classify(line) ==
      if n == "" then Skipped else if m.Some? then EdgeLine(EdgeOf(m.value)) else NameLine(n)
  {
  }

  lemma KindsSnoc(lines: seq<string>, i: nat)
    requires i < |lines|
    ensures Kinds(lines[..i + 1]) == Kinds(lines[..i]) + [Classify(lines[i])]
  {
    assert lines[..i + 1][..i] == lines[..i];
  }

  lemma NodeNameSnoc(kinds: seq<LineKind>, k: LineKind)
    ensures NodeName(kinds + [k]) ==
      if NodeName(kinds).Some? then NodeName(kinds) else if k.NameLine? then Some(k.name) else None
  {
    assert (kinds + [k])[..|kinds|] == kinds;
  }

  lemma EdgesSnoc(kinds: seq<LineKind>, k: LineKind)
    ensures Edges(kinds + [k]) == Edges(kinds) + (if k.EdgeLine? then [k.edge] else [])
  {
    assert (kinds + [k])[..|kinds|] == kinds;
  }

  /** `parseBlock`: one pass over the lines, updating the name and appending edges. */
  method ParseBlock(block: Option<string>) returns (node: GraphNode)
    ensures node == ParseBlockResult(block)
  {
    if block.None? || IsBlank(block.value) {
      return NewGraphNode(Some(""), Some([]));
    }
    var lines := SplitLines(block.value);
    var nodeName: Option<string> := None;
    var edges: seq<GraphEdge> := [];
    var i := 0;
    while i < |lines|
      invariant i <= |lines|
      invariant nodeName == NodeName(Kinds(lines[..i]))
      invariant edges == Edges(Kinds(lines[..i]))
    {
      ghost var before := Kinds(lines[..i]);
      var normalized := StripJavadocPrefix(lines[i]);
      ghost var kind := Skipped;
      ClassifyParts(lines[i], normalized, MatchEdgeLine(normalized));
      if normalized != "" {
        var m := MatchEdgeLine(normalized);
        if m.Some? {
          var relation := Trim(m.value.relation);
          var direction := if m.value.arrow == RightArrow then OUTBOUND else INBOUND;
          var targets := SplitTargets(Trim(m.value.targetText));
          edges := edges + [NewGraphEdge(Some(relation), direction, Some(targets))];
          kind := EdgeLine(EdgeOf(m.value));
        } else {
          if nodeName.None? {
            nodeName := Some(normalized);
          }
          kind := NameLine(normalized);
        }
      }
      KindsSnoc(lines, i);
      NodeNameSnoc(before, kind);
      EdgesSnoc(before, kind);
      i := i + 1;
    }
    assert lines[..i] == lines;
    node := NewGraphNode(Some(if nodeName.Some? then nodeName.value else ""), Some(edges));
  }

  // ===========================================================================
  // parseBlocks: split on \n\s*\n, keep the named nodes
  // ===========================================================================

  /** The first index at or after `i` that does not hold an ASCII regex space. */
  function SkipRegexSpaces(s: string, i: nat): (j: nat)
    requires i <= |s|
    ensures i <= j <= |s|
    ensures forall k | i <= k < j :: IsRegexSpace(s[k])
    ensures j < |s| ==> !IsRegexSpace(s[j])
    decreases |s| - i
  {
    if i == |s| || !IsRegexSpace(s[i]) then i else SkipRegexSpaces(s, i + 1)
  }

  /**
   * Where a match of `\n\s*\n` that starts at `i` ends. The greedy `\s*` backs off to the
   * last newline of the run of spaces that follows the first newline.
   */
  function SeparatorEnd(s: string, i: nat): (e: Option<nat>)
    requires i < |s|
    ensures e.Some? ==> i + 2 <= e.value <= |s|
  {
    if s[i] != '\n' then None
    else
      var run := SkipRegexSpaces(s, i + 1);
      var k := LastIndexOf(s[i + 1..run], '\n');
      if k < 0 then None else Some(i + 1 + k + 1)
  }

  /** A blank line: the line feeds at `i` and `m` with only white space between them. */
  predicate BlankLineAt(s: string, i: int, m: int) {
    0 <= i < m < |s| && s[i] == '\n' && s[m] == '\n' && forall t | i < t < m :: IsRegexSpace(s[t])
  }

  /** A separator starts at `i` exactly when a blank line starts there. */
  lemma SeparatorAtBlankLine(s: string, i: nat)
    requires i < |s|
    ensures SeparatorEnd(s, i).Some? <==> exists m :: BlankLineAt(s, i, m)
  {
    if s[i] == '\n' {
      var run := SkipRegexSpaces(s, i + 1);
      var k := LastIndexOf(s[i + 1..run], '\n');
      if k >= 0 {
        assert s[i + 1..run][k] == s[i + 1 + k];
        assert BlankLineAt(s, i, i + 1 + k);
      }
      if exists m :: BlankLineAt(s, i, m) {
        var m :| BlankLineAt(s, i, m);
        assert m < run;
        assert s[i + 1..run][m - i - 1] == '\n';
      }
    }
  }

  /** The leftmost separator at or after `from`, as (start, end). */
  function FirstSeparator(s: string, from: nat): (r: Option<(nat, nat)>)
    requires from <= |s|
    ensures r.Some? ==> from <= r.value.0 < r.value.1 <= |s|
    ensures r.Some? ==> SeparatorEnd(s, r.value.0) == Some(r.value.1)
    ensures forall j | from <= j < |s| && (r.None? || j < r.value.0) :: SeparatorEnd(s, j).None?
    decreases |s| - from
  {
    if from == |s| then None
    else match SeparatorEnd(s, from)
      case Some(e) => Some((from, e))
      case None => FirstSeparator(s, from + 1)
  }

  /** Cutting the text at the first separator leaves a piece without a blank line. */
  lemma NoBlankLineBefore(s: string, n: nat)
    requires n <= |s| && forall j | 0 <= j < n :: SeparatorEnd(s, j).None?
    ensures forall j, m :: !BlankLineAt(s[..n], j, m)
  {
    forall j, m | BlankLineAt(s[..n], j, m)
      ensures false
    {
      assert BlankLineAt(s, j, m);
      SeparatorAtBlankLine(s, j);
    }
  }

  /**
   * `content.split("\\n\\s*\\n")`. Java drops trailing empty strings; an empty block parses
   * to an unnamed node, which `parseBlocks` drops anyway, so they are kept here. No block
   * holds a blank line.
   */
  function SplitBlocks(s: string): (blocks: seq<string>)
    ensures |blocks| > 0
    ensures forall k, j, m | 0 <= k < |blocks| :: !BlankLineAt(blocks[k], j, m)
    decreases |s|
  {
    match FirstSeparator(s, 0)
    case None =>
      NoBlankLineBefore(s, |s|);
      assert s[..|s|] == s;
      [s]
    case Some((i, e)) =>
      NoBlankLineBefore(s, i);
      var rest := SplitBlocks(s[e..]);
      assert forall k | 1 <= k < |rest| + 1 :: ([s[..i]] + rest)[k] == rest[k - 1];
      [s[..i]] + rest
  }

  lemma {:induction false} NoSeparatorFrom(s: string, from: nat)
    requires from <= |s|
    requires forall i | from <= i < |s| :: SeparatorEnd(s, i).None?
    ensures FirstSeparator(s, from).None?
    decreases |s| - from
  {
    if from < |s| {
      NoSeparatorFrom(s, from + 1);
    }
  }

  /** Text without a blank line is a single block. */
  lemma SingleBlock(s: string)
    requires forall i | 0 <= i < |s| :: SeparatorEnd(s, i).None?
    ensures SplitBlocks(s) == [s]
  {
    NoSeparatorFrom(s, 0);
  }

  /** The nodes with a non-empty name, in block order. */
  function NamedNodes(blocks: seq<string>): (nodes: seq<GraphNode>)
    ensures |nodes| <= |blocks|
    ensures forall i | 0 <= i < |nodes| :: nodes[i].name != ""
    decreases |blocks|
  {
    if blocks == [] then []
    else
      var node := ParsedBlock(blocks[|blocks| - 1]);
      NamedNodes(blocks[..|blocks| - 1]) + (if node.name != "" then [node] else [])
  }

  /** `parseBlocks`. */
  function ParsedBlocks(content: Option<string>): (nodes: seq<GraphNode>)
    ensures forall i | 0 <= i < |nodes| :: nodes[i].name != ""
  {
    if content.None? || IsBlank(content.value) then [] else NamedNodes(SplitBlocks(content.value))
  }

  /** Nodes keep block order: the nodes of two runs of blocks are those of each, concatenated. */
  lemma {:induction false} NamedNodesAppend(a: seq<string>, b: seq<string>)
    ensures NamedNodes(a + b) == NamedNodes(a) + NamedNodes(b)
    decreases |b|
  {
    if b != [] {
      assert (a + b)[..|a + b| - 1] == a + b[..|b| - 1];
      NamedNodesAppend(a, b[..|b| - 1]);
    } else {
      assert a + b == a;
    }
  }

  /** `parseBlocks`: parse each block, keep those with a name. */
  method ParseBlocks(content: Option<string>) returns (nodes: seq<GraphNode>)
    ensures nodes == ParsedBlocks(content)
  {
    if content.None? || IsBlank(content.value) {
      return [];
    }
    var blocks := SplitBlocks(content.value);
    nodes := [];
    var i := 0;
    while i < |blocks|
      invariant i <= |blocks|
      invariant nodes == NamedNodes(blocks[..i])
    {
      assert blocks[..i + 1][..i] == blocks[..i];
      var node := ParseBlock(Some(blocks[i]));
      if node.name != "" {
        nodes := nodes + [node];
      }
      i := i + 1;
    }
    assert blocks[..i] == blocks;
  }

  // ===========================================================================
  // getDocumentedUses
  // ===========================================================================

  /** `simpleName`: the text after the last `.`, trimmed. */
  function SimpleName(name: string): (r: string)
    ensures '.' !in r && IsTrimmed(r)
    ensures '.' !in name && IsTrimmed(name) ==> r == name
  {
    if name == "" then ""
    else
      var tail := AfterLast(name, '.');
      TrimKeepsCharacters(tail);
      Trim(tail)
  }

  function SimpleNames(names: seq<string>): (r: seq<string>)
    ensures |r| == |names|
    ensures forall i | 0 <= i < |names| :: r[i] == SimpleName(names[i])
    decreases |names|
  {
    if names == [] then [] else SimpleNames(names[..|names| - 1]) + [SimpleName(names[|names| - 1])]
  }

  /** An outbound edge whose relation is exactly `uses`. */
  predicate IsUsesEdge(e: GraphEdge) {
    e.relationType == "uses" && e.IsOutbound()
  }

  /** The simple names of all targets of the `uses` edges, in edge and target order. */
  function UsesTargets(edges: seq<GraphEdge>): seq<string>
    decreases |edges|
  {
    if edges == [] then []
    else
      var e := edges[|edges| - 1];
      UsesTargets(edges[..|edges| - 1]) + (if IsUsesEdge(e) then SimpleNames(e.targets) else [])
  }

  predicate NoDuplicates(xs: seq<string>) {
    forall i, j | 0 <= i < j < |xs| :: xs[i] != xs[j]
  }

  /** What a `LinkedHashSet` filled with `xs` holds: each value once, at its first position. */
  function Deduplicated(xs: seq<string>): (r: seq<string>)
    ensures NoDuplicates(r)
    ensures forall x :: x in r <==> x in xs
    decreases |xs|
  {
    if xs == [] then []
    else
      var d := Deduplicated(xs[..|xs| - 1]);
      var x := xs[|xs| - 1];
      assert forall y :: y in xs <==> y in xs[..|xs| - 1] || y == x;
      if x in d then d else d + [x]
  }

  lemma {:induction false} DeduplicatedDistinct(xs: seq<string>)
    requires NoDuplicates(xs)
    ensures Deduplicated(xs) == xs
    decreases |xs|
  {
    if xs != [] {
      DeduplicatedDistinct(xs[..|xs| - 1]);
      assert xs[|xs| - 1] !in xs[..|xs| - 1];
    }
  }

  /** The first index of a node called `name`, or `|nodes|`. */
  function IndexOfNode(nodes: seq<GraphNode>, name: string, from: nat): (k: nat)
    requires from <= |nodes|
    ensures from <= k <= |nodes|
    ensures k < |nodes| ==> nodes[k].name == name
    ensures forall j | from <= j < k :: nodes[j].name != name
    decreases |nodes| - from
  {
    if from == |nodes| then |nodes|
    else if nodes[from].name == name then from
    else IndexOfNode(nodes, name, from + 1)
  }

  /** The node `getDocumentedUses` reads: the first one named `nodeName`, else the first one. */
  function SelectNode(nodes: seq<GraphNode>, nodeName: Option<string>): GraphNode
    requires |nodes| > 0
  {
    if nodeName.Some? && nodeName.value != "" && IndexOfNode(nodes, nodeName.value, 0) < |nodes| then
      nodes[IndexOfNode(nodes, nodeName.value, 0)]
    else nodes[0]
  }

  /** `getDocumentedUses`: the insertion-ordered set of documented `uses` simple names. */
  function DocumentedUses(graphContent: Option<string>, nodeName: Option<string>): seq<string> {
    var nodes := ParsedBlocks(graphContent);
    if nodes == [] then [] else Deduplicated(UsesTargets(SelectNode(nodes, nodeName).edges))
  }

  /**
   * The documented uses are exactly the simple names of the targets of the selected node's
   * outbound `uses` edges, each once and none containing a `.`.
   */
  lemma DocumentedUsesMembers(graphContent: Option<string>, nodeName: Option<string>, x: string)
    ensures NoDuplicates(DocumentedUses(graphContent, nodeName))
    ensures x in DocumentedUses(graphContent, nodeName) ==> '.' !in x
    ensures ParsedBlocks(graphContent) == [] ==> DocumentedUses(graphContent, nodeName) == []
    ensures ParsedBlocks(graphContent) != [] ==>
      (x in DocumentedUses(graphContent, nodeName) <==>
        exists e, t :: e in SelectNode(ParsedBlocks(graphContent), nodeName).edges && IsUsesEdge(e)
                       && t in e.targets && x == SimpleName(t))
  {
    var nodes := ParsedBlocks(graphContent);
    if nodes != [] {
      UsesTargetsMembers(SelectNode(nodes, nodeName).edges, x);
    }
  }

  lemma {:induction false} UsesTargetsMembers(edges: seq<GraphEdge>, x: string)
    ensures x in UsesTargets(edges) ==> '.' !in x
    ensures x in UsesTargets(edges) <==>
      exists e, t :: e in edges && IsUsesEdge(e) && t in e.targets && x == SimpleName(t)
    decreases |edges|
  {
    if edges != [] {
      var init := edges[..|edges| - 1];
      var e := edges[|edges| - 1];
      UsesTargetsMembers(init, x);
      assert forall f :: f in edges <==> f in init || f == e;
      if IsUsesEdge(e) {
        var names := SimpleNames(e.targets);
        assert x in names <==> exists t :: t in e.targets && x == SimpleName(t) by {
          if x in names {
            var i :| 0 <= i < |names| && names[i] == x;
            assert e.targets[i] in e.targets;
          }
          if exists t :: t in e.targets && x == SimpleName(t) {
            var t :| t in e.targets && x == SimpleName(t);
            var i :| 0 <= i < |e.targets| && e.targets[i] == t;
            assert names[i] == x;
          }
        }
      }
    }
  }

  /** With no node named `nodeName`, the first node's edges are read. */
  lemma SelectNodeFallsBackToFirst(nodes: seq<GraphNode>, name: string)
    requires |nodes| > 0
    requires forall i | 0 <= i < |nodes| :: nodes[i].name != name
    ensures SelectNode(nodes, Some(name)) == nodes[0]
    ensures SelectNode(nodes, None) == nodes[0]
  {
  }

  /** Adding one value to a `LinkedHashSet`: it goes at the end unless it is already there. */
  lemma DeduplicatedSnoc(xs: seq<string>, x: string)
    ensures Deduplicated(xs + [x]) == if x in Deduplicated(xs) then Deduplicated(xs) else Deduplicated(xs) + [x]
  {
    assert (xs + [x])[..|xs|] == xs;
  }

  /** One more target read in the inner loop of `getDocumentedUses`. */
  lemma TargetStep(before: seq<string>, targets: seq<string>, t: nat, next: nat)
    requires t < |targets| && next == t + 1
    ensures Deduplicated(before + SimpleNames(targets[..next]))
         == var d := Deduplicated(before + SimpleNames(targets[..t]));
            var n := SimpleName(targets[t]);
            if n in d then d else d + [n]
  {
    assert targets[..next][..t] == targets[..t];
    var n := SimpleName(targets[t]);
    assert before + SimpleNames(targets[..next]) == (before + SimpleNames(targets[..t])) + [n];
    DeduplicatedSnoc(before + SimpleNames(targets[..t]), n);
  }


  /** One more edge read in the outer loop of `getDocumentedUses`. */
  lemma EdgeStep(edges: seq<GraphEdge>, e: nat)
    requires e < |edges|
    ensures UsesTargets(edges[..e + 1])
         == UsesTargets(edges[..e]) + (if IsUsesEdge(edges[e]) then SimpleNames(edges[e].targets) else [])
  {
    assert edges[..e + 1][..e] == edges[..e];
  }

  /** `getDocumentedUses`: find the node, then collect the `uses` targets into a set. */
  method GetDocumentedUses(graphContent: Option<string>, nodeName: Option<string>) returns (uses: seq<string>)
    ensures uses == DocumentedUses(graphContent, nodeName)
  {
    var nodes := ParseBlocks(graphContent);
    if nodes == [] {
      return [];
    }
    var node := FindNode(nodes, nodeName);
    uses := CollectUses(node.edges);
  }

  /** The node lookup of `getDocumentedUses`: a scan for the name, falling back to the first node. */
  method FindNode(nodes: seq<GraphNode>, nodeName: Option<string>) returns (node: GraphNode)
    requires |nodes| > 0
    ensures node == SelectNode(nodes, nodeName)
  {
    node := nodes[0];
    if nodeName.Some? && nodeName.value != "" {
      var i := 0;
      while i < |nodes| && nodes[i].name != nodeName.value
        invariant i <= |nodes|
        invariant IndexOfNode(nodes, nodeName.value, 0) == IndexOfNode(nodes, nodeName.value, i)
      {
        i := i + 1;
      }
      if i < |nodes| {
        node := nodes[i];
      }
    }
  }

  /** The collection loops of `getDocumentedUses`: simple names of `uses` targets, each once. */
  method CollectUses(edges: seq<GraphEdge>) returns (uses: seq<string>)
    ensures uses == Deduplicated(UsesTargets(edges))
  {
    uses := [];
    var e := 0;
    while e < |edges|
      invariant e <= |edges|
      invariant uses == Deduplicated(UsesTargets(edges[..e]))
    {
      EdgeStep(edges, e);
      if IsUsesEdge(edges[e]) {
        uses := AddSimpleNames(uses, UsesTargets(edges[..e]), edges[e].targets);
      } else {
        assert UsesTargets(edges[..e]) + [] == UsesTargets(edges[..e]);
      }
      e := e + 1;
    }
    assert edges[..e] == edges;
  }

  /** The inner loop: adds the simple name of every target to the set `uses`, which holds `before`. */
  method AddSimpleNames(uses0: seq<string>, ghost before: seq<string>, targets: seq<string>) returns (uses: seq<string>)
    requires uses0 == Deduplicated(before)
    ensures uses == Deduplicated(before + SimpleNames(targets))
  {
    uses := uses0;
    var t := 0;
    assert targets[..0] == [] && before + [] == before;
    while t < |targets|
      invariant t <= |targets|
      invariant uses == Deduplicated(before + SimpleNames(targets[..t]))
    {
      ghost var current := t;
      var name := SimpleName(targets[t]);
      if name !in uses {
        uses := uses + [name];
      }
      t := t + 1;
      TargetStep(before, targets, current, t);
    }
    assert targets[..t] == targets;
  }
}
