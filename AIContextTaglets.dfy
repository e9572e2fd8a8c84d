/**
 * `AIContextTaglet`: the javadoc taglet for the five `@aicontext-*` block tags. It registers
 * one taglet per tag name, labels each tag with a priority class and renders the tags of an
 * element as HTML; `AIContextData` is the record the taglet extracts, with its sort priority.
 */
module AIContextTaglets {
  import opened Wrappers
  import opened JavaString

  // ===========================================================================
  // Tag names and their priorities
  // ===========================================================================

  const RuleTag: string := "aicontext-rule"
  const DecisionTag: string := "aicontext-decision"
  const GraphTag: string := "aicontext-graph"
  const GraphIgnoreTag: string := "aicontext-graph-ignore"
  const ContextTag: string := "aicontext-context"

  /** The five tag names, in the order `register` adds them. */
  const TagNames: seq<string> := [RuleTag, DecisionTag, GraphTag, GraphIgnoreTag, ContextTag]

  /** `TAG_PRIORITY`: the priority of each tag name. */
  const TagPriorities: map<string, int> :=
    map[RuleTag := 100, DecisionTag := 90, GraphTag := 85, GraphIgnoreTag := 82, ContextTag := 80]

  /** `TAG_PRIORITY.getOrDefault(tagName, 0)`. */
  function TagPriority(tagName: string): (p: int)
    ensures p == 0 <==> tagName !in TagNames
    ensures tagName in TagNames ==> 80 <= p <= 100
  {
    if tagName in TagPriorities then TagPriorities[tagName] else 0
  }

  /** `getPriorityLabel`: 90 and up is architectural, 70 and up implementation, the rest informational. */
  function GetPriorityLabel(tagName: string): (priorityLabel: string)
    ensures (priorityLabel == "ARCHITECTURAL") <==> (tagName == RuleTag || tagName == DecisionTag)
    ensures (priorityLabel == "IMPLEMENTATION") <==> (tagName == GraphTag || tagName == GraphIgnoreTag || tagName == ContextTag)
    ensures (priorityLabel == "INFORMATIONAL") <==> (tagName !in TagNames)
  {
    var priority := TagPriority(tagName);
    if priority >= 90 then "ARCHITECTURAL"
    else if priority >= 70 then "IMPLEMENTATION"
    else "INFORMATIONAL"
  }

  // ===========================================================================
  // formatTagName
  // ===========================================================================

  const TagPrefix: string := "aicontext-"

  /**
   * `formatTagName`: every `aicontext-` removed, the rest upper-cased. The display name has no
   * lower-case ASCII letter, and a name without `aicontext-` is only upper-cased.
   */
  function FormatTagName(tagName: string): (r: string)
    ensures forall i | 0 <= i < |r| :: !IsAsciiLower(r[i])
    ensures !Contains(tagName, TagPrefix) ==> r == ToUpper(tagName)
  {
    var rest := Replace(tagName, TagPrefix, "");
    assert !Contains(tagName, TagPrefix) ==> rest == tagName by {
      if !Contains(tagName, TagPrefix) {
        ReplaceAbsent(tagName, TagPrefix, "");
      }
    }
    ToUpper(rest)
  }

  /** `aicontext-` occurs in the prefixed name only at its start. */
  lemma PrefixOnlyAtStart(s: string)
    requires !Contains(s, TagPrefix)
    ensures Replace(TagPrefix + s, TagPrefix, "") == s
  {
    var t := TagPrefix + s;
    assert t[..|TagPrefix|] == TagPrefix;
    assert t[|TagPrefix|..] == s;
    ReplaceAbsent(s, TagPrefix, "");
  }

  /** A tag name is displayed as its suffix after `aicontext-`, upper-cased. */
  lemma FormatPrefixedTagName(s: string)
    requires !Contains(s, TagPrefix)
    ensures FormatTagName(TagPrefix + s) == ToUpper(s)
  {
    PrefixOnlyAtStart(s);
  }

  /** A name shorter than `aicontext-` cannot contain it. */
  lemma ShortNameHasNoPrefix(s: string)
    requires |s| < |TagPrefix|
    ensures !Contains(s, TagPrefix)
  {
  }

  /** `graph-ignore` does not contain `aicontext-`: no `a` is followed by `i`. */
  lemma GraphIgnoreHasNoPrefix()
    ensures !Contains("graph-ignore", TagPrefix)
  {
    var s := "graph-ignore";
    forall i | 0 <= i <= |s| - |TagPrefix|
      ensures !OccursAt(s, TagPrefix, i)
    {
      assert s[i..i + |TagPrefix|][1] == s[i + 1];
      assert s[i] != 'a' || s[i + 1] != 'i';
    }
  }

  /** The five tags are shown as RULE, DECISION, GRAPH, GRAPH-IGNORE and CONTEXT. */
  lemma TagDisplayNames()
    ensures FormatTagName(RuleTag) == "RULE"
    ensures FormatTagName(DecisionTag) == "DECISION"
    ensures FormatTagName(GraphTag) == "GRAPH"
    ensures FormatTagName(GraphIgnoreTag) == "GRAPH-IGNORE"
    ensures FormatTagName(ContextTag) == "CONTEXT"
  {
    RuleDisplayName();
    DecisionDisplayName();
    GraphDisplayName();
    GraphIgnoreDisplayName();
    ContextDisplayName();
  }

  lemma RuleDisplayName()
    ensures FormatTagName(RuleTag) == "RULE"
  {
    ShortNameHasNoPrefix("rule");
    DisplayName("rule", "RULE", RuleTag);
  }

  lemma DecisionDisplayName()
    ensures FormatTagName(DecisionTag) == "DECISION"
  {
    ShortNameHasNoPrefix("decision");
    DisplayName("decision", "DECISION", DecisionTag);
  }

  lemma GraphDisplayName()
    ensures FormatTagName(GraphTag) == "GRAPH"
  {
    ShortNameHasNoPrefix("graph");
    DisplayName("graph", "GRAPH", GraphTag);
  }

  lemma GraphIgnoreDisplayName()
    ensures FormatTagName(GraphIgnoreTag) == "GRAPH-IGNORE"
  {
    GraphIgnoreHasNoPrefix();
    DisplayName("graph-ignore", "GRAPH-IGNORE", GraphIgnoreTag);
  }

  lemma ContextDisplayName()
    ensures FormatTagName(ContextTag) == "CONTEXT"
  {
    ShortNameHasNoPrefix("context");
    DisplayName("context", "CONTEXT", ContextTag);
  }

  /** One tag's display name, from its short name written out in upper case. */
  lemma DisplayName(short: string, shown: string, tagName: string)
    requires !Contains(short, TagPrefix) && tagName == TagPrefix + short
    requires |shown| == |short| && forall i | 0 <= i < |short| :: shown[i] == ToUpperChar(short[i])
    ensures FormatTagName(tagName) == shown
  {
    FormatPrefixedTagName(short);
  }

  // ===========================================================================
  // register
  // ===========================================================================

  /** A taglet, known by the tag name it handles (`getName()`). */
  datatype Taglet = AIContextTaglet(tagName: string)

  /** The caller's `Map<String, Taglet>` that `register` fills. */
  class TagletMap {
    var entries: map<string, Taglet>

    constructor ()
      ensures entries == map[]
    {
      entries := map[];
    }

    /** `put`: the key is bound to the value, every other key keeps its value. */
    method Put(key: string, value: Taglet)
      modifies this
      ensures entries == old(entries)[key := value]
    {
      entries := entries[key := value];
    }
  }

  /** The map after registering: each of the five names bound to its own taglet. */
  function WithTaglets(m: map<string, Taglet>): (r: map<string, Taglet>)
    ensures forall k :: k in r <==> k in m || k in TagNames
    ensures forall k | k in TagNames :: r[k] == AIContextTaglet(k)
    ensures forall k | k in m && k !in TagNames :: r[k] == m[k]
  {
    m[RuleTag := AIContextTaglet(RuleTag)][DecisionTag := AIContextTaglet(DecisionTag)]
     [GraphTag := AIContextTaglet(GraphTag)][GraphIgnoreTag := AIContextTaglet(GraphIgnoreTag)]
     [ContextTag := AIContextTaglet(ContextTag)]
  }

  /** `register`: puts one taglet per tag name, keyed by the taglet's own name. */
  method Register(tagletMap: TagletMap)
    modifies tagletMap
    ensures tagletMap.entries == WithTaglets(old(tagletMap.entries))
  {
    var ruleTag := AIContextTaglet(RuleTag);
    var decisionTag := AIContextTaglet(DecisionTag);
    var graphTag := AIContextTaglet(GraphTag);
    var graphIgnoreTag := AIContextTaglet(GraphIgnoreTag);
    var contextTag := AIContextTaglet(ContextTag);
    tagletMap.Put(ruleTag.tagName, ruleTag);
    tagletMap.Put(decisionTag.tagName, decisionTag);
    tagletMap.Put(graphTag.tagName, graphTag);
    tagletMap.Put(graphIgnoreTag.tagName, graphIgnoreTag);
    tagletMap.Put(contextTag.tagName, contextTag);
  }

  /** Registering into an empty map leaves exactly five taglets. */
  lemma RegistersFive()
    ensures |WithTaglets(map[]).Keys| == 5
  {
    var keys := WithTaglets(map[]).Keys;
    assert keys == {RuleTag, DecisionTag, GraphTag, GraphIgnoreTag, ContextTag};
    assert RuleTag[10] == 'r' && DecisionTag[10] == 'd' && GraphTag[10] == 'g' && ContextTag[10] == 'c';
    assert |GraphTag| != |GraphIgnoreTag|;
  }

  /** Registering twice changes nothing more. */
  lemma RegisterIdempotent(m: map<string, Taglet>)
    ensures WithTaglets(WithTaglets(m)) == WithTaglets(m)
  {
  }

  // ===========================================================================
  // toString
  // ===========================================================================

  /** A block tag of a doc comment: an `@aicontext-*` tag with its text, or any other kind. */
  datatype DocTag = UnknownBlockTag(name: string, content: string) | OtherTag

  const OpenTags: string := "<div class=\"aicontext-tags\">"
  const CloseDiv: string := "</div>"

  /**
   * `formatTag`: one tag as a `div` with its display name, priority label and trimmed text. The
   * `div` opens with the tag's own class and is closed at the end.
   */
  function FormatTag(name: string, content: string): (r: string)
    ensures StartsWith(r, "<div class=\"aicontext-tag " + name + "\">")
    ensures EndsWith(r, CloseDiv)
  {
    "<div class=\"aicontext-tag " + name + "\">"
      + "<strong>" + FormatTagName(name) + "</strong> [Priority: " + GetPriorityLabel(name) + "]: "
      + Trim(content) + CloseDiv
  }

  /** What the loop appends for one tag: a block tag formatted, any other tag nothing. */
  function TagHtml(t: DocTag): string {
    if t.UnknownBlockTag? then FormatTag(t.name, t.content) else ""
  }

  /** What the loop appends for the tags, in order. */
  function RenderedTags(tags: seq<DocTag>): string
    decreases |tags|
  {
    if tags == [] then "" else RenderedTags(tags[..|tags| - 1]) + TagHtml(tags[|tags| - 1])
  }

  /** `toString`: `null` for no tags, otherwise the rendered tags inside one wrapping `div`. */
  function Rendered(tags: seq<DocTag>): (r: Option<string>)
    ensures r.None? <==> tags == []
    ensures r.Some? ==> StartsWith(r.value, OpenTags) && EndsWith(r.value, CloseDiv)
  {
    if tags == [] then None
    else
      var text := OpenTags + RenderedTags(tags) + CloseDiv;
      assert text[..|OpenTags|] == OpenTags;
      Some(text)
  }

  lemma AppendStep(a: string, b: string, c: string, bc: string)
    requires bc == b + c
    ensures a + b + c == a + bc
  {
  }

  lemma RenderedTagsStep(tags: seq<DocTag>, i: nat)
    requires i < |tags|
    ensures RenderedTags(tags[..i + 1]) == RenderedTags(tags[..i]) + TagHtml(tags[i])
  {
    assert tags[..i + 1][..i] == tags[..i];
  }

  method ToString(tags: seq<DocTag>) returns (r: Option<string>)
    ensures r == Rendered(tags)
  {
    if tags == [] {
      return None;
    }
    var result := OpenTags;
    var i := 0;
    while i < |tags|
      invariant i <= |tags|
      invariant result == OpenTags + RenderedTags(tags[..i])
    {
      var piece := "";
      if tags[i].UnknownBlockTag? {
        piece := FormatTag(tags[i].name, tags[i].content);
      }
      RenderedTagsStep(tags, i);
      AppendStep(OpenTags, RenderedTags(tags[..i]), piece, RenderedTags(tags[..i + 1]));
      result := result + piece;
      i := i + 1;
    }
    assert tags[..i] == tags;
    result := result + CloseDiv;
    r := Some(result);
  }

  /** The block tags among the tags, in order: the only ones that show. */
  function BlockTags(tags: seq<DocTag>): (r: seq<DocTag>)
    ensures forall i | 0 <= i < |r| :: r[i].UnknownBlockTag?
    decreases |tags|
  {
    if tags == [] then []
    else BlockTags(tags[..|tags| - 1]) + (if tags[|tags| - 1].UnknownBlockTag? then [tags[|tags| - 1]] else [])
  }

  lemma RenderedTagsSnoc(tags: seq<DocTag>, t: DocTag)
    ensures RenderedTags(tags + [t]) == RenderedTags(tags) + TagHtml(t)
  {
    assert (tags + [t])[..|tags|] == tags;
  }

  lemma AppendEmpty(s: string)
    ensures s + "" == s
  {
  }

  /** The rendering is that of the block tags alone: other tags leave no trace. */
  lemma {:induction false} RenderedBlockTags(tags: seq<DocTag>)
    ensures RenderedTags(BlockTags(tags)) == RenderedTags(tags)
    decreases |tags|
  {
    if tags != [] {
      var init := tags[..|tags| - 1];
      var last := tags[|tags| - 1];
      var blocks := BlockTags(init);
      assert tags == init + [last];
      RenderedBlockTags(init);
      RenderedTagsSnoc(init, last);
      if last.UnknownBlockTag? {
        assert BlockTags(tags) == blocks + [last];
        RenderedTagsSnoc(blocks, last);
      } else {
        assert BlockTags(tags) == blocks + [];
        assert blocks + [] == blocks;
        assert TagHtml(last) == "";
        AppendEmpty(RenderedTags(init));
      }
    }
  }

  lemma {:induction false} NoBlockTags(tags: seq<DocTag>)
    requires forall i | 0 <= i < |tags| :: tags[i].OtherTag?
    ensures BlockTags(tags) == []
    decreases |tags|
  {
    if tags != [] {
      NoBlockTags(tags[..|tags| - 1]);
    }
  }

  /** Tags of other kinds alone render as the empty wrapper. */
  lemma OtherTagsOnly(tags: seq<DocTag>)
    requires tags != [] && forall i | 0 <= i < |tags| :: tags[i].OtherTag?
    ensures Rendered(tags) == Some(OpenTags + CloseDiv)
  {
    RenderedBlockTags(tags);
    NoBlockTags(tags);
    assert RenderedTags(tags) == "";
    assert OpenTags + "" == OpenTags;
  }

  // ===========================================================================
  // AIContextData
  // ===========================================================================

  datatype DataLevel = ARCHITECTURAL | IMPLEMENTATION | INFORMATIONAL

  datatype TagType = RULE | DECISION | CONTEXT

  /** The record the taglet extracts for one tag. */
  datatype AIContextData = AIContextData(
    location: string,
    level: DataLevel,
    tagType: TagType,
    content: string,
    timestamp: string)

  /** `getPriority`: 100, 50 or 10 by level, plus 20, 15 or 10 by type. */
  function GetPriority(d: AIContextData): (p: int)
    ensures 20 <= p <= 120
    ensures d.level == ARCHITECTURAL <==> p >= 110
    ensures d.level == INFORMATIONAL <==> p <= 30
  {
    var basePriority := match d.level
      case ARCHITECTURAL => 100
      case IMPLEMENTATION => 50
      case INFORMATIONAL => 10;
    var typePriority := match d.tagType
      case RULE => 20
      case DECISION => 15
      case CONTEXT => 10;
    basePriority + typePriority
  }

  /** The level outranks the type: a higher level wins whatever the two types are. */
  lemma LevelDominates(a: AIContextData, b: AIContextData)
    requires (a.level == ARCHITECTURAL && b.level != ARCHITECTURAL)
          || (a.level == IMPLEMENTATION && b.level == INFORMATIONAL)
    ensures GetPriority(a) > GetPriority(b)
  {
  }

  /** At one level, a rule comes before a decision and a decision before context. */
  lemma TypeOrderAtOneLevel(rule: AIContextData, decision: AIContextData, context: AIContextData)
    requires rule.level == decision.level == context.level
    requires rule.tagType == RULE && decision.tagType == DECISION && context.tagType == CONTEXT
    ensures GetPriority(rule) > GetPriority(decision) > GetPriority(context)
  {
  }

  /** The priority tells level and type apart: no two combinations share a value. */
  lemma PriorityDeterminesLevelAndType(a: AIContextData, b: AIContextData)
    requires GetPriority(a) == GetPriority(b)
    ensures a.level == b.level && a.tagType == b.tagType
  {
  }
}
