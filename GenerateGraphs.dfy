/**
 * `GenerateGraphsMojo.formatSuggestedGraph`: the suggested `@aicontext-graph` text for a class,
 * listing the project types it uses on one `uses` edge, in ascending order. What it writes
 * reads back through `GraphNotationParser.getDocumentedUses` as exactly that list.
 */
module GenerateGraphs {
  import opened Wrappers
  import opened JavaString
  import opened GraphEdges
  import opened GraphNodes
  import opened StringOrder
  import opened GraphNotationParser

  /** The line listing the used types: `  ├─[uses]→ ` followed by the names. */
  const UsesLinePrefix: string := "  " + [BranchMark, HorizontalBar] + "[uses]" + [RightArrow] + " "

  /** The line written when no project type is used: a comment, not an edge. */
  const NoneDetectedLine: string := "  # " + [BranchMark, HorizontalBar] + "[uses]" + [RightArrow] + " (none detected)"

  /** The closing comment line inviting more edges. */
  const MoreEdgesLine: string :=
    "  # Add more edges:" + " [calls], [db]," + " [events], [by]" + [LeftArrow] + ", [external]," + " [config]"

  /** The second line: the `uses` edge when there are names, else the `(none detected)` comment. */
  function MiddleLine(names: seq<string>): string {
    if names == [] then NoneDetectedLine else UsesLinePrefix + Join(names, ", ")
  }

  /** The suggested graph: the class name, the `uses` line and the closing comment, each ended by `\n`. */
  function SuggestedGraph(className: string, names: seq<string>): string {
    className + "\n" + MiddleLine(names) + "\n" + MoreEdgesLine + "\n"
  }

  /**
   * `formatSuggestedGraph`: appends the lines to a builder; the used types are copied into a
   * list, sorted in place by their natural order and joined with `", "`.
   */
  method FormatSuggestedGraph(className: string, used: set<string>) returns (text: string)
    ensures text == SuggestedGraph(className, SortedListing(used))
  {
    var sb := className + "\n";
    if used == {} {
      sb := sb + NoneDetectedLine + "\n";
    } else {
      var sorted := SortedCopy(used);
      var joined := Join(sorted, ", ");
      assert UsesLinePrefix + joined == MiddleLine(SortedListing(used));
      sb := sb + UsesLinePrefix + joined + "\n";
    }
    assert sb == className + "\n" + MiddleLine(SortedListing(used)) + "\n";
    sb := sb + MoreEdgesLine + "\n";
    text := sb;
  }

  /** `new ArrayList<>(used)` sorted in place by natural order: the ascending listing of the set. */
  method SortedCopy(used: set<string>) returns (sorted: seq<string>)
    ensures sorted == SortedListing(used)
  {
    var list := ListOfSet(used);
    SortInPlace(list);
    SortedListingUnique(list[..], used);
    sorted := list[..];
  }


  // ===========================================================================
  // What the text holds
  // ===========================================================================

  /** The characters of a Java identifier, as far as class names go here. */
  predicate IsIdentifierChar(c: char) {
    IsAsciiUpper(c) || IsAsciiLower(c) || IsAsciiDigit(c) || c == '_' || c == '$'
  }

  predicate IsIdentifier(s: string) {
    s != "" && !IsAsciiDigit(s[0]) && forall i | 0 <= i < |s| :: IsIdentifierChar(s[i])
  }

  /** A character a listed name may hold: no space, line break, `.`, `,` or bracket. */
  predicate IsNameChar(c: char) {
    !IsTrimmable(c) && !IsUnicodeSpace(c) && !IsLineTerminator(c) && c != '.' && c != ',' && BracketDelta(c) == 0
  }

  predicate IsPlainName(n: string) {
    n != "" && forall i | 0 <= i < |n| :: IsNameChar(n[i])
  }

  predicate PlainNames(names: seq<string>) {
    forall i | 0 <= i < |names| :: IsPlainName(names[i])
  }

  /** A line without a line break that does not end in a trimmable character. */
  predicate PlainLine(line: string) {
    |line| > 0 && '\n' !in line && !IsTrimmable(line[|line| - 1])
  }

  /** A plain line indented by exactly two spaces. */
  predicate IndentedLine(line: string) {
    PlainLine(line) && |line| > 3 && line[0] == ' ' && line[1] == ' ' && !IsRegexSpace(line[2])
  }

  /** Three lines, each ended by `\n`. */
  function ThreeLines(a: string, b: string, c: string): string {
    a + "\n" + b + "\n" + c + "\n"
  }

  /** The closing comment line is an indented `#` line. */
  lemma MoreEdgesComment()
    ensures IndentedLine(MoreEdgesLine) && MoreEdgesLine[2] == '#'
  {
    assert MoreEdgesLine[|MoreEdgesLine| - 1] == ']';
  }

  /** The `(none detected)` comment line is an indented `#` line. */
  lemma NoneDetectedComment()
    ensures IndentedLine(NoneDetectedLine) && NoneDetectedLine[2] == '#'
  {
    assert NoneDetectedLine[|NoneDetectedLine| - 1] == ')';
  }


  lemma ClassLine(className: string)
    requires IsIdentifier(className)
    ensures PlainLine(className) && IsTrimmed(className) && !IsJavaWhitespace(className[0])
  {
    assert IsIdentifierChar(className[0]) && IsIdentifierChar(className[|className| - 1]);
  }

  // ---------------------------------------------------------------------------
  // Joining the names with ", "
  // ---------------------------------------------------------------------------

  /** Every character of a join comes from a part or from the separator. */
  lemma {:induction false} JoinChars(parts: seq<string>, sep: string, P: char -> bool)
    requires forall i, k | 0 <= i < |parts| && 0 <= k < |parts[i]| :: P(parts[i][k])
    requires forall k | 0 <= k < |sep| :: P(sep[k])
    ensures forall k | 0 <= k < |Join(parts, sep)| :: P(Join(parts, sep)[k])
    decreases |parts|
  {
    if |parts| > 1 {
      JoinChars(parts[1..], sep, P);
      var rest := Join(parts[1..], sep);
      assert Join(parts, sep) == parts[0] + sep + rest;
      forall k | 0 <= k < |parts[0] + sep + rest|
        ensures P((parts[0] + sep + rest)[k])
      {
        if k < |parts[0]| {
          assert P(parts[0][k]);
        } else if k < |parts[0]| + |sep| {
          assert P(sep[k - |parts[0]|]);
        } else {
          assert (parts[0] + sep + rest)[k] == rest[k - |parts[0]| - |sep|];
        }
      }
    } else if |parts| == 1 {
      assert forall k | 0 <= k < |parts[0]| :: P(parts[0][k]);
    }
  }

  /** The names joined with `", "`: no line break, and no space at either end. */
  lemma JoinedNames(names: seq<string>)
    requires |names| > 0 && PlainNames(names)
    ensures var j := Join(names, ", ");
      |j| > 0 && IsTrimmed(j) && !IsUnicodeSpace(j[0]) && !IsJavaWhitespace(j[0])
      && (forall k | 0 <= k < |j| :: !IsLineTerminator(j[k]))
  {
    var j := Join(names, ", ");
    JoinStartsWithFirst(names, ", ");
    JoinEndsWithLast(names, ", ");
    assert IsNameChar(names[0][0]);
    var last := names[|names| - 1];
    assert IsNameChar(last[|last| - 1]);
    assert j[0] == names[0][0];
    assert j[|j| - 1] == last[|last| - 1];
    JoinChars(names, ", ", c => !IsLineTerminator(c));
  }

  /** Each name after the first with the space that follows the comma before it. */
  function Padded(names: seq<string>): (r: seq<string>)
    ensures |r| == |names|
    ensures forall i | 0 <= i < |names| :: r[i] == " " + names[i]
    decreases |names|
  {
    if names == [] then [] else [" " + names[0]] + Padded(names[1..])
  }

  lemma JoinPrepend(pre: string, x: string, rest: seq<string>, sep: string)
    ensures Join([pre + x] + rest, sep) == pre + Join([x] + rest, sep)
  {
    assert ([pre + x] + rest)[1..] == rest == ([x] + rest)[1..];
  }

  /** `a, b, c` is `a`, ` b` and ` c` joined with `,`. */
  lemma {:induction false} JoinPadded(names: seq<string>)
    requires |names| > 0
    ensures Join(names, ", ") == Join([names[0]] + Padded(names[1..]), ",")
    decreases |names|
  {
    if |names| > 1 {
      var tail := names[1..];
      JoinPadded(tail);
      assert tail[1..] == names[2..];
      var p := Padded(names[2..]);
      JoinPrepend(" ", names[1], p, ",");
      var parts := [names[0]] + Padded(tail);
      assert parts[1..] == [" " + names[1]] + p;
      assert Join(parts, ",") == names[0] + "," + (" " + Join([names[1]] + p, ","));
    } else {
      assert [names[0]] + Padded(names[1..]) == names;
    }
  }

  lemma {:induction false} TrimmedPadded(names: seq<string>)
    requires PlainNames(names)
    ensures TrimmedNonEmpty(Padded(names)) == names
    decreases |names|
  {
    if names != [] {
      TrimmedPadded(names[1..]);
      var n := names[0];
      assert IsNameChar(n[0]) && IsNameChar(n[|n| - 1]);
      assert " " + n + "" == " " + n;
      TrimPadded(" ", n, "");
      assert Padded(names)[1..] == Padded(names[1..]);
      assert names == [n] + names[1..];
    }
  }

  /** A part with no comma and no bracket stays whole when the targets are split. */
  lemma PlainPart(p: string)
    requires forall k | 0 <= k < |p| :: p[k] != ',' && BracketDelta(p[k]) == 0
    ensures ',' !in p && Depth(p, 0, |p|) == 0
  {
    DepthWithoutBrackets(p, |p|);
  }

  lemma PaddedPartsPlain(names: seq<string>)
    requires PlainNames(names)
    ensures forall i | 0 <= i < |Padded(names)| :: ',' !in Padded(names)[i] && Depth(Padded(names)[i], 0, |Padded(names)[i]|) == 0
  {
    forall i | 0 <= i < |names|
      ensures ',' !in Padded(names)[i] && Depth(Padded(names)[i], 0, |Padded(names)[i]|) == 0
    {
      var n := names[i];
      var p := " " + n;
      forall k | 0 <= k < |p|
        ensures p[k] != ',' && BracketDelta(p[k]) == 0
      {
        if k > 0 {
          assert p[k] == n[k - 1] && IsNameChar(n[k - 1]);
        }
      }
      PlainPart(p);
    }
  }

  /** The parts `a`, ` b`, ` c` of plain names hold no comma and no bracket. */
  lemma SplitPartsPlain(names: seq<string>)
    requires |names| > 0 && PlainNames(names)
    ensures var parts := [names[0]] + Padded(names[1..]);
      forall i | 0 <= i < |parts| :: ',' !in parts[i] && Depth(parts[i], 0, |parts[i]|) == 0
  {
    var first := names[0];
    var rest := Padded(names[1..]);
    var parts := [first] + rest;
    assert forall k | 0 <= k < |first| :: IsNameChar(first[k]);
    PlainPart(first);
    PaddedPartsPlain(names[1..]);
    forall i | 0 <= i < |parts|
      ensures ',' !in parts[i] && Depth(parts[i], 0, |parts[i]|) == 0
    {
      if i > 0 {
        assert parts[i] == rest[i - 1];
      }
    }
  }

  /** Trimming `a`, ` b`, ` c` gives back the names. */
  lemma TrimmedSplitParts(names: seq<string>)
    requires |names| > 0 && PlainNames(names)
    ensures TrimmedNonEmpty([names[0]] + Padded(names[1..])) == names
  {
    var first := names[0];
    var parts := [first] + Padded(names[1..]);
    TrimmedPadded(names[1..]);
    assert IsNameChar(first[0]) && IsNameChar(first[|first| - 1]);
    TrimTrimmed(first);
    assert parts[1..] == Padded(names[1..]);
    assert names == [first] + names[1..];
  }

  /** The targets read back from the joined names are the names. */
  lemma UsesTargetList(names: seq<string>)
    requires |names| > 0 && PlainNames(names)
    ensures TargetList(Join(names, ", ")) == names
  {
    var j := Join(names, ", ");
    var parts := [names[0]] + Padded(names[1..]);
    JoinedNames(names);
    JoinPadded(names);
    SplitPartsPlain(names);
    assert j[0..] == j;
    SegmentsOfJoin(j, 0, parts);
    TrimmedSplitParts(names);
  }

  // ---------------------------------------------------------------------------
  // How each line is read
  // ---------------------------------------------------------------------------

  lemma ClassifyClassLine(className: string)
    requires IsIdentifier(className)
    ensures Classify(className) == NameLine(className)
  {
    ClassLine(className);
    assert IsIdentifierChar(className[0]);
    TrimTrimmed(className);
    NotAnEdgeLine(className);
  }

  /** An indented `#` comment line is a name line, never an edge. */
  lemma ClassifyCommentLine(line: string)
    requires IndentedLine(line) && line[2] == '#'
    ensures !Classify(line).EdgeLine?
  {
    var core := line[2..];
    assert line == "  " + core + "";
    TrimPadded("  ", core, "");
    NotAnEdgeLine(core);
  }

  /** The `uses` line is an indented line. */
  lemma UsesLineShape(text: string)
    requires |text| > 0 && IsTrimmed(text)
    requires forall k | 0 <= k < |text| :: !IsLineTerminator(text[k])
    ensures IndentedLine(UsesLinePrefix + text)
  {
    var line := UsesLinePrefix + text;
    assert line[|line| - 1] == text[|text| - 1];
    forall k | 0 <= k < |line|
      ensures line[k] != '\n'
    {
      if k >= |UsesLinePrefix| {
        assert line[k] == text[k - |UsesLinePrefix|];
      }
    }
  }

  /** The `uses` line with its indentation trimmed away. */
  lemma UsesLineStrip(text: string)
    requires |text| > 0 && IsTrimmed(text)
    ensures StripJavadocPrefix(UsesLinePrefix + text)
            == [BranchMark, HorizontalBar, '['] + "uses" + [']', RightArrow, ' '] + text
  {
    var core := [BranchMark, HorizontalBar, '['] + "uses" + [']', RightArrow, ' '] + text;
    assert UsesLinePrefix + text == "  " + core + "";
    assert core[|core| - 1] == text[|text| - 1];
    TrimPadded("  ", core, "");
    assert core[0] != '*';
  }

  /** The `uses` line is read as an outbound `uses` edge to the targets of its text. */
  lemma UsesLine(text: string)
    requires |text| > 0 && IsTrimmed(text) && !IsUnicodeSpace(text[0])
    requires forall k | 0 <= k < |text| :: !IsLineTerminator(text[k])
    ensures Classify(UsesLinePrefix + text) == EdgeLine(GraphEdge("uses", OUTBOUND, TargetList(text)))
  {
    var core := [BranchMark, HorizontalBar, '['] + "uses" + [']', RightArrow, ' '] + text;
    UsesLineStrip(text);
    MatchOutboundEdgeLine("uses", text);
    TrimTrimmed("uses");
    TrimTrimmed(text);
    ClassifyParts(UsesLinePrefix + text, core, Some(EdgeMatch("uses", RightArrow, text)));
  }

  /** The middle line: indented, and read as the `uses` edge to the names when there are any. */
  lemma ClassifyMiddleLine(names: seq<string>)
    requires PlainNames(names)
    ensures IndentedLine(MiddleLine(names))
    ensures names == [] ==> !Classify(MiddleLine(names)).EdgeLine?
    ensures names != [] ==> Classify(MiddleLine(names)) == EdgeLine(GraphEdge("uses", OUTBOUND, names))
  {
    if names == [] {
      NoneDetectedComment();
      ClassifyCommentLine(NoneDetectedLine);
    } else {
      JoinedNames(names);
      UsesLineShape(Join(names, ", "));
      UsesLine(Join(names, ", "));
      UsesTargetList(names);
    }
  }

  // ---------------------------------------------------------------------------
  // Three lines: one block, one node
  // ---------------------------------------------------------------------------

  /** Lines, each ended by `\n`. */
  function JoinLines(lines: seq<string>): string
    decreases |lines|
  {
    if lines == [] then "" else lines[0] + "\n" + JoinLines(lines[1..])
  }

  /** Lines written one after the other are read back as those lines, then an empty one. */
  lemma {:induction false} SplitJoinLines(lines: seq<string>)
    requires forall i | 0 <= i < |lines| :: PlainLine(lines[i])
    ensures SplitLines(JoinLines(lines)) == lines + [""]
    decreases |lines|
  {
    if lines == [] {
      assert SplitLines("") == [""];
    } else {
      SplitJoinLines(lines[1..]);
      SplitLinesCons(lines[0], JoinLines(lines[1..]));
    }
  }

  lemma ThreeLinesSplit(a: string, b: string, c: string)
    requires PlainLine(a) && PlainLine(b) && PlainLine(c)
    ensures SplitLines(ThreeLines(a, b, c)) == [a, b, c, ""]
  {
    var lines := [a, b, c];
    assert lines[1..][1..][1..] == [];
    assert JoinLines(lines[1..][1..]) == c + "\n" + "";
    assert ThreeLines(a, b, c) == JoinLines(lines);
    SplitJoinLines(lines);
  }

  predicate NoSeparator(s: string) {
    forall i | 0 <= i < |s| :: SeparatorEnd(s, i).None?
  }

  lemma {:induction false} SkipRegexSpacesShift(p: string, t: string, j: nat)
    requires j <= |t|
    ensures SkipRegexSpaces(p + t, |p| + j) == |p| + SkipRegexSpaces(t, j)
    decreases |t| - j
  {
    if j < |t| {
      assert (p + t)[|p| + j] == t[j];
      SkipRegexSpacesShift(p, t, j + 1);
    }
  }

  /** Whether a separator starts at a position depends only on the text from there on. */
  lemma SeparatorEndShift(p: string, t: string, j: nat)
    requires j < |t|
    ensures SeparatorEnd(p + t, |p| + j).None? == SeparatorEnd(t, j).None?
  {
    var s := p + t;
    assert s[|p| + j] == t[j];
    SkipRegexSpacesShift(p, t, j + 1);
    var run := SkipRegexSpaces(t, j + 1);
    assert s[|p| + j + 1..|p| + run] == t[j + 1..run];
  }

  lemma NoSeparatorCons(line: string, rest: string)
    requires '\n' !in line && NoSeparator(rest)
    requires '\n' !in rest[..SkipRegexSpaces(rest, 0)]
    ensures NoSeparator(line + "\n" + rest)
  {
    var p := line + "\n";
    var s := p + rest;
    forall i | 0 <= i < |s|
      ensures SeparatorEnd(s, i).None?
    {
      if i < |line| {
        assert s[i] == line[i];
      } else if i == |line| {
        SkipRegexSpacesShift(p, rest, 0);
        var k := SkipRegexSpaces(rest, 0);
        assert s[i + 1..|p| + k] == rest[..k];
      } else {
        SeparatorEndShift(p, rest, i - |p|);
      }
    }
  }

  /** After an indented line's line break, the spaces that follow hold no second line break. */
  lemma IndentedStart(line: string, rest: string)
    requires IndentedLine(line)
    ensures '\n' !in (line + rest)[..SkipRegexSpaces(line + rest, 0)]
  {
    var s := line + rest;
    assert s[0] == ' ' && s[1] == ' ' && s[2] == line[2];
    assert SkipRegexSpaces(s, 0) == 2;
  }

  /** Three lines, the last two indented, hold no blank line: they are one block. */
  lemma ThreeLinesOneBlock(a: string, b: string, c: string)
    requires PlainLine(a) && IndentedLine(b) && IndentedLine(c)
    ensures SplitBlocks(ThreeLines(a, b, c)) == [ThreeLines(a, b, c)]
  {
    NoSeparatorCons(c, "");
    var tail := c + "\n" + "";
    IndentedStart(c, "\n" + "");
    assert tail == c + ("\n" + "");
    NoSeparatorCons(b, tail);
    var rest := b + "\n" + tail;
    IndentedStart(b, "\n" + tail);
    assert rest == b + ("\n" + tail);
    NoSeparatorCons(a, rest);
    assert ThreeLines(a, b, c) == a + "\n" + rest;
    SingleBlock(ThreeLines(a, b, c));
  }

  /** The edge a line of this kind adds, if any. */
  function EdgesOf(k: LineKind): seq<GraphEdge> {
    if k.EdgeLine? then [k.edge] else []
  }

  /** Four line kinds: a name, any line, a line that adds no edge, a skipped line. */
  lemma FourKinds(kinds: seq<LineKind>, a: string)
    requires |kinds| == 4 && kinds[0] == NameLine(a) && !kinds[2].EdgeLine? && kinds[3] == Skipped
    ensures NodeName(kinds) == Some(a)
    ensures Edges(kinds) == EdgesOf(kinds[1])
  {
    NodeNameIsFirstNameLine(kinds, 0);
    assert kinds[..0] == [];
    EdgesPrefix(kinds, 0, 1);
    EdgesPrefix(kinds, 1, 2);
    EdgesPrefix(kinds, 2, 3);
    EdgesPrefix(kinds, 3, 4);
    assert kinds[..4] == kinds;
  }

  /** The edges of one more line kind of a block are those of the shorter prefix and its own. */
  lemma EdgesPrefix(kinds: seq<LineKind>, n: nat, next: nat)
    requires n < |kinds| && next == n + 1
    ensures Edges(kinds[..next]) == Edges(kinds[..n]) + EdgesOf(kinds[n])
  {
    assert kinds[..next][..n] == kinds[..n];
  }


  lemma FourLinesKinds(lines: seq<string>)
    requires |lines| == 4
    ensures |Kinds(lines)| == 4
    ensures Kinds(lines)[0] == Classify(lines[0]) && Kinds(lines)[1] == Classify(lines[1])
    ensures Kinds(lines)[2] == Classify(lines[2]) && Kinds(lines)[3] == Classify(lines[3])
  {
    KindsAt(lines, 0);
    KindsAt(lines, 1);
    KindsAt(lines, 2);
    KindsAt(lines, 3);
  }

  lemma ThreeLinesKinds(a: string, b: string, c: string)
    requires PlainLine(a) && PlainLine(b) && PlainLine(c)
    requires Classify(a) == NameLine(a) && !Classify(c).EdgeLine?
    ensures NodeName(Kinds(SplitLines(ThreeLines(a, b, c)))) == Some(a)
    ensures Edges(Kinds(SplitLines(ThreeLines(a, b, c)))) == EdgesOf(Classify(b))
  {
    var lines := [a, b, c, ""];
    ThreeLinesSplit(a, b, c);
    FourLinesKinds(lines);
    assert Classify("") == Skipped;
    FourKinds(Kinds(lines), a);
  }

  /** A block of three such lines parses to the node named by the first, with the edge of the second. */
  lemma ThreeLinesBlock(a: string, b: string, c: string)
    requires PlainLine(a) && IsTrimmed(a) && !IsJavaWhitespace(a[0]) && IndentedLine(b) && IndentedLine(c)
    requires Classify(a) == NameLine(a) && !Classify(c).EdgeLine?
    ensures ParsedBlock(ThreeLines(a, b, c)) == GraphNode(a, EdgesOf(Classify(b)))
  {
    var text := ThreeLines(a, b, c);
    assert text[0] == a[0];
    ThreeLinesKinds(a, b, c);
  }

  lemma ThreeLinesParse(a: string, b: string, c: string)
    requires PlainLine(a) && IsTrimmed(a) && !IsJavaWhitespace(a[0]) && IndentedLine(b) && IndentedLine(c)
    requires Classify(a) == NameLine(a) && !Classify(c).EdgeLine?
    ensures ParsedBlocks(Some(ThreeLines(a, b, c))) == [GraphNode(a, EdgesOf(Classify(b)))]
  {
    var text := ThreeLines(a, b, c);
    assert text[0] == a[0];
    ThreeLinesOneBlock(a, b, c);
    ThreeLinesBlock(a, b, c);
    OneBlockParse(text, GraphNode(a, EdgesOf(Classify(b))));
  }

  /** Content that is one non-blank block gives the node of that block, when it is named. */
  lemma OneBlockParse(text: string, node: GraphNode)
    requires !IsBlank(text) && SplitBlocks(text) == [text]
    requires ParsedBlock(text) == node && node.name != ""
    ensures ParsedBlocks(Some(text)) == [node]
  {
    assert [text][..0] == [];
  }


  // ---------------------------------------------------------------------------
  // The round trip
  // ---------------------------------------------------------------------------

  /** The edges the suggested graph documents: one `uses` edge when there are names. */
  function SuggestedEdges(names: seq<string>): seq<GraphEdge> {
    if names == [] then [] else [GraphEdge("uses", OUTBOUND, names)]
  }

  /** The suggested graph parses to the one node named after the class, with its `uses` edge. */
  lemma SuggestedGraphParses(className: string, names: seq<string>)
    requires IsIdentifier(className) && PlainNames(names)
    ensures ParsedBlocks(Some(SuggestedGraph(className, names))) == [GraphNode(className, SuggestedEdges(names))]
  {
    ClassLine(className);
    ClassifyClassLine(className);
    ClassifyMiddleLine(names);
    MoreEdgesComment();
    ClassifyCommentLine(MoreEdgesLine);
    assert SuggestedGraph(className, names) == ThreeLines(className, MiddleLine(names), MoreEdgesLine);
    ThreeLinesParse(className, MiddleLine(names), MoreEdgesLine);
  }

  /** Plain names are their own simple names. */
  lemma PlainSimpleNames(names: seq<string>)
    requires PlainNames(names)
    ensures SimpleNames(names) == names
  {
    forall i | 0 <= i < |names|
      ensures SimpleName(names[i]) == names[i]
    {
      var n := names[i];
      assert IsNameChar(n[0]) && IsNameChar(n[|n| - 1]);
      assert forall k | 0 <= k < |n| :: n[k] != '.' by {
        forall k | 0 <= k < |n|
          ensures n[k] != '.'
        {
          assert IsNameChar(n[k]);
        }
      }
    }
  }

  /** The uses targets of the suggested edges are the names. */
  lemma SuggestedUsesTargets(names: seq<string>)
    requires PlainNames(names)
    ensures UsesTargets(SuggestedEdges(names)) == names
  {
    if names != [] {
      var edges := SuggestedEdges(names);
      assert edges[..0] == [];
      assert IsUsesEdge(edges[0]);
      PlainSimpleNames(names);
    }
  }

  /** The documented uses of the suggested graph are the listed names, in their order. */
  lemma SuggestedGraphRoundTrip(className: string, names: seq<string>)
    requires IsIdentifier(className) && PlainNames(names) && NoDuplicates(names)
    ensures DocumentedUses(Some(SuggestedGraph(className, names)), Some(className)) == names
  {
    SuggestedGraphParses(className, names);
    var nodes := [GraphNode(className, SuggestedEdges(names))];
    assert SelectNode(nodes, Some(className)) == nodes[0];
    SuggestedUsesTargets(names);
    DeduplicatedDistinct(names);
  }

  /**
   * What `formatSuggestedGraph` writes for a set of used types reads back as those types
   * in ascending order, each once.
   */
  lemma FormatSuggestedGraphRoundTrip(className: string, used: set<string>)
    requires IsIdentifier(className)
    requires forall n | n in used :: IsPlainName(n)
    ensures DocumentedUses(Some(SuggestedGraph(className, SortedListing(used))), Some(className)) == SortedListing(used)
  {
    var names := SortedListing(used);
    assert PlainNames(names) by {
      forall i | 0 <= i < |names|
        ensures IsPlainName(names[i])
      {
        assert names[i] in used;
      }
    }
    SuggestedGraphRoundTrip(className, names);
  }

  /** With no used types the graph still names the class, and documents no edge at all. */
  lemma NoneDetectedHasNoEdges(className: string)
    requires IsIdentifier(className)
    ensures ParsedBlocks(Some(SuggestedGraph(className, []))) == [GraphNode(className, [])]
  {
    SuggestedGraphParses(className, []);
  }
}
