/**
 * `AIContextMojo.AIContextEntry`: one `@aicontext-*` tag found in a source file, and the
 * priority used to order entries.
 */
module AIContextEntries {

  /** How far an entry reaches: the whole architecture, or one implementation detail. */
  datatype Level = ARCHITECTURAL | IMPLEMENTATION

  /** An entry: where the tag sits, its level and type (`rule`, `graph`, ...) and its text. */
  datatype AIContextEntry = AIContextEntry(
    location: string,
    filePath: string,
    level: Level,
    tagType: string,
    content: string,
    timestamp: string,
    lineNumber: int)

  /** The part of the priority that comes from the tag type. */
  function TypePriority(tagType: string): (p: int)
    ensures p == 20 <==> tagType == "rule"
    ensures p == 15 <==> tagType == "decision"
    ensures p == 10 <==> tagType == "context"
    ensures p == 0 <==> tagType !in {"rule", "decision", "context"}
  {
    match tagType
    case "rule" => 20
    case "decision" => 15
    case "context" => 10
    case _ => 0
  }

  /**
   * `getPriority`: 100 for an architectural entry, 50 for an implementation one, plus 20
   * for a rule, 15 for a decision and 10 for context.
   */
  function GetPriority(e: AIContextEntry): (p: int)
    ensures 50 <= p <= 120
    ensures e.level == ARCHITECTURAL <==> p >= 100
  {
    (if e.level == ARCHITECTURAL then 100 else 50) + TypePriority(e.tagType)
  }

  /** Any architectural entry comes before any implementation entry, whatever their types. */
  lemma ArchitecturalFirst(a: AIContextEntry, b: AIContextEntry)
    requires a.level == ARCHITECTURAL && b.level == IMPLEMENTATION
    ensures GetPriority(a) > GetPriority(b)
  {
  }

  /** At one level, rules come before decisions, decisions before context, context before the rest. */
  lemma TypeOrderAtOneLevel(rule: AIContextEntry, decision: AIContextEntry, context: AIContextEntry, other: AIContextEntry)
    requires rule.level == decision.level == context.level == other.level
    requires rule.tagType == "rule" && decision.tagType == "decision" && context.tagType == "context"
    requires other.tagType !in {"rule", "decision", "context"}
    ensures GetPriority(rule) > GetPriority(decision) > GetPriority(context) > GetPriority(other)
  {
  }
}
