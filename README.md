# aicontext core, modelled in Dafny

aicontext is a Maven plugin and a javadoc taglet. Developers annotate Java code with
`@aicontext-rule`, `@aicontext-decision`, `@aicontext-context`, `@aicontext-graph` and
`@aicontext-graph-ignore` tags. The plugin collects these tags into entries, writes assistant
context files from them, and checks that each `@aicontext-graph` tag documents every project
class its class uses. This project models the logic at the centre of that work:

- `GraphNotationParser` (module `GraphNotationParser`) parses the compact graph notation
  (`NodeName` followed by lines such as `├─[uses]→ A, B`). The edge regular expression, the
  line split and the blank-line block split are written as deterministic scanners. The
  bracket-aware target split is the source's loop, proved equal to a specification by
  segments.
- `GraphEdge` and `GraphNode` (modules `GraphEdges`, `GraphNodes`) are the values the parser
  builds.
- `ClassDependencyAnalyzer` finds the project classes a class uses through the declared types
  of its fields, constructor parameters, method parameters and return types. It also lists
  the class names declared in a compilation unit. The syntax tree becomes a small datatype.
- In `AIContextMojo`, graph validation and the ignore-list parser live in module
  `GraphValidation`. The file-naming helpers (`truncate`, `locationToSlug`,
  `substituteEntryFilename`, `extractLocationComponents` and the per-key `indexByKey`
  counter) live in `MojoHelpers`. The entry record and its priority live in
  `AIContextEntries`.
- `GenerateGraphsMojo.formatSuggestedGraph` (module `GenerateGraphs`) writes the suggested
  graph text. The model proves that this text parses back to exactly the sorted list of used
  types.
- `FilterDefinition.matches` and `fromMap` (module `FilterDefinitions`) are modelled over a
  small YAML value datatype, including the casts that throw.
- `AIContextTaglet` (module `AIContextTaglets`) covers the priorities and labels, tag names,
  `register` (a class over a mutable map), `toString`, and `AIContextData.getPriority`.

Support modules:
- `Wrappers` holds `Option` for Java `null` and for thrown exceptions.
- `JavaString` holds the `java.lang.String` operations the core relies on: `trim`, `isBlank`,
  `indexOf`, `lastIndexOf`, `replace`, `split` and `String.join`, with their exact
  whitespace notions.
- `StringOrder` holds `String.compareTo` and the list sort.

Where the source loops or mutates, the model does too:
- methods with `while` loops, each proved equal to a specification function;
- an in-place insertion sort on an `array` for `List.sort`;
- a `TagletMap` class whose `Put` and `Register` change its map field.

The properties are proved as lemmas about those specification functions.

## Model

Source paths are relative to the repository root.

| member | source | states |
|---|---|---|
| AIContextEntries.TypePriority | src/main/java/com/aicontext/maven/AIContextMojo.java:1740-1745 | Each type's bonus holds exactly for that type: `rule` 20, `decision` 15, `context` 10, any other type 0. |
| AIContextEntries.GetPriority | src/main/java/com/aicontext/maven/AIContextMojo.java:1738-1747 | The priority lies in 50..120. It is at least 100 exactly when the entry is architectural. |
| AIContextEntries.ArchitecturalFirst | src/main/java/com/aicontext/maven/AIContextMojo.java:1739-1746 | Any architectural entry has a higher priority than any implementation entry, whatever the two types. |
| AIContextEntries.TypeOrderAtOneLevel | src/main/java/com/aicontext/maven/AIContextMojo.java:1740-1746 | At one level: rule > decision > context > any other type. |
| AIContextTaglets.TagPriority | src/main/java/com/aicontext/taglet/AIContextTaglet.java:27-36 | The table gives 0 exactly for names that are not one of the five tags. The five tags get values in 80..100. |
| AIContextTaglets.GetPriorityLabel | src/main/java/com/aicontext/taglet/AIContextTaglet.java:123-130 | Each label holds exactly for its tags: ARCHITECTURAL for rule and decision; IMPLEMENTATION for graph, graph-ignore and context; INFORMATIONAL for any other name. |
| AIContextTaglets.FormatTagName | src/main/java/com/aicontext/taglet/AIContextTaglet.java:118-120 | The display name has no lower-case ASCII letter. A name without `aicontext-` is only upper-cased. |
| AIContextTaglets.PrefixOnlyAtStart | src/main/java/com/aicontext/taglet/AIContextTaglet.java:118-120 | When the rest contains no `aicontext-`, removing every `aicontext-` from `aicontext-` + rest leaves exactly the rest. |
| AIContextTaglets.FormatPrefixedTagName | src/main/java/com/aicontext/taglet/AIContextTaglet.java:118-120 | The display name of `aicontext-x` is `x` upper-cased, for every short name `x` that has no `aicontext-` inside. |
| AIContextTaglets.TagDisplayNames | src/main/java/com/aicontext/taglet/AIContextTaglet.java:118-120 | The five tags are shown as RULE, DECISION, GRAPH, GRAPH-IGNORE and CONTEXT. |
| AIContextTaglets.TagletMap.Put | src/main/java/com/aicontext/taglet/AIContextTaglet.java:69-73 | `put` maps the key to the taglet and leaves every other key unchanged. |
| AIContextTaglets.WithTaglets | src/main/java/com/aicontext/taglet/AIContextTaglet.java:62-74 | After registration the keys are the old keys plus the five tag names. Each tag name maps to the taglet of that name. Every other old key keeps its value. |
| AIContextTaglets.Register | src/main/java/com/aicontext/taglet/AIContextTaglet.java:62-74 | `register`'s five `put` calls leave the map equal to `WithTaglets` of the old map. |
| AIContextTaglets.RegistersFive | src/main/java/com/aicontext/taglet/AIContextTaglet.java:62-74 | Registering into an empty map gives exactly five entries. |
| AIContextTaglets.RegisterIdempotent | src/main/java/com/aicontext/taglet/AIContextTaglet.java:62-74 | Registering twice gives the same map as registering once. |
| AIContextTaglets.FormatTag | src/main/java/com/aicontext/taglet/AIContextTaglet.java:100-116 | One tag renders as a `div` that opens with the tag name as its class and closes at the end. |
| AIContextTaglets.Rendered | src/main/java/com/aicontext/taglet/AIContextTaglet.java:83-99 | `toString` returns `null` exactly when there are no tags. Otherwise the result starts with the wrapping `aicontext-tags` div and ends with `</div>`. |
| AIContextTaglets.ToString | src/main/java/com/aicontext/taglet/AIContextTaglet.java:83-99 | The loop over the tags returns the rendering above. |
| AIContextTaglets.RenderedBlockTags | src/main/java/com/aicontext/taglet/AIContextTaglet.java:91-95 | Only unknown block tags contribute: rendering just the block tags gives the same text. |
| AIContextTaglets.OtherTagsOnly | src/main/java/com/aicontext/taglet/AIContextTaglet.java:84-98 | A non-empty tag list with no block tag renders as the empty wrapping div, not as `null`. |
| AIContextTaglets.GetPriority | src/main/java/com/aicontext/taglet/AIContextTaglet.java:186-196 | `AIContextData` priority lies in 20..120. It is at least 110 exactly for architectural data and at most 30 exactly for informational data. |
| AIContextTaglets.LevelDominates | src/main/java/com/aicontext/taglet/AIContextTaglet.java:187-195 | Data at a higher level always has the higher priority. |
| AIContextTaglets.TypeOrderAtOneLevel | src/main/java/com/aicontext/taglet/AIContextTaglet.java:189-193 | At one level: rule > decision > context. |
| AIContextTaglets.PriorityDeterminesLevelAndType | src/main/java/com/aicontext/taglet/AIContextTaglet.java:186-196 | Equal priorities imply equal level and equal type. |
| ClassDependencyAnalyzer.SimpleName | src/main/java/com/aicontext/maven/graph/ClassDependencyAnalyzer.java:90-94 | The result has no `.`. It is a suffix of the name, preceded by a `.` when shorter. It is the whole name when there is no `.`. |
| ClassDependencyAnalyzer.ProjectNames | src/main/java/com/aicontext/maven/graph/ClassDependencyAnalyzer.java:76-80 | A mentioned simple name is kept exactly when it is a project class other than the analysed class. |
| ClassDependencyAnalyzer.CollectClassSimpleNames | src/main/java/com/aicontext/maven/graph/ClassDependencyAnalyzer.java:68-88 | The output set grows by exactly the kept names that the type mentions. |
| ClassDependencyAnalyzer.CollectAll | src/main/java/com/aicontext/maven/graph/ClassDependencyAnalyzer.java:82-83 | The walk over a list of type arguments adds the kept names of all of them. |
| ClassDependencyAnalyzer.FindUsedProjectTypes | src/main/java/com/aicontext/maven/graph/ClassDependencyAnalyzer.java:34-66 | It returns exactly the kept names from the member types. The result is a subset of the project classes and never holds the class itself. |
| ClassDependencyAnalyzer.CollectFields | src/main/java/com/aicontext/maven/graph/ClassDependencyAnalyzer.java:42-48 | The field loop adds the kept names of every field type. |
| ClassDependencyAnalyzer.CollectConstructors | src/main/java/com/aicontext/maven/graph/ClassDependencyAnalyzer.java:50-54 | The constructor loop adds the kept names of every parameter type. |
| ClassDependencyAnalyzer.CollectMethods | src/main/java/com/aicontext/maven/graph/ClassDependencyAnalyzer.java:56-63 | The method loop adds the kept names of every parameter type and every return type. |
| ClassDependencyAnalyzer.TypeArgumentsAreSearched | src/main/java/com/aicontext/maven/graph/ClassDependencyAnalyzer.java:81-83 | Every name that a type argument mentions is mentioned by the generic type. |
| ClassDependencyAnalyzer.ScopeIsSearched | src/main/java/com/aicontext/maven/graph/ClassDependencyAnalyzer.java:84-86 | Every name that the qualifying scope mentions is mentioned by the qualified type. |
| ClassDependencyAnalyzer.ArraysAndWildcardsMentionNothing | src/main/java/com/aicontext/maven/graph/ClassDependencyAnalyzer.java:73-74 | Array and wildcard types are not class types, so they mention no name. |
| ClassDependencyAnalyzer.FieldNamesHas | src/main/java/com/aicontext/maven/graph/ClassDependencyAnalyzer.java:42-48 | The field at any index contributes all names of its type. |
| ClassDependencyAnalyzer.ConstructorNamesHas | src/main/java/com/aicontext/maven/graph/ClassDependencyAnalyzer.java:50-54 | The constructor at any index contributes all names of its parameter types. |
| ClassDependencyAnalyzer.MethodNamesHas | src/main/java/com/aicontext/maven/graph/ClassDependencyAnalyzer.java:56-63 | The method at any index contributes all names of its parameter and return types. |
| ClassDependencyAnalyzer.MemberTypesAreUsed | src/main/java/com/aicontext/maven/graph/ClassDependencyAnalyzer.java:34-66 | A project class, other than the class itself, that a member's declared type mentions is reported as used. |
| ClassDependencyAnalyzer.UntypedMembersMentionNothing | src/main/java/com/aicontext/maven/graph/ClassDependencyAnalyzer.java:41-63 | Members that are not fields, constructors or methods (nested classes, initialisers) contribute nothing. |
| ClassDependencyAnalyzer.NoTypedMembersUseNothing | src/main/java/com/aicontext/maven/graph/ClassDependencyAnalyzer.java:34-66 | A class without fields, constructors or methods uses no project class. |
| ClassDependencyAnalyzer.AllDeclsHasTopLevel | src/main/java/com/aicontext/maven/graph/ClassDependencyAnalyzer.java:98-102 | `findAll` visits every top-level declaration of the unit. |
| ClassDependencyAnalyzer.NestedDeclsHas | src/main/java/com/aicontext/maven/graph/ClassDependencyAnalyzer.java:98-102 | `findAll` visits every class nested in a member. |
| ClassDependencyAnalyzer.AllDeclsClosed | src/main/java/com/aicontext/maven/graph/ClassDependencyAnalyzer.java:98-102 | Everything nested in a visited declaration is visited too. |
| ClassDependencyAnalyzer.ClassSimpleNamesInCu | src/main/java/com/aicontext/maven/graph/ClassDependencyAnalyzer.java:98-102 | The name of every outermost class declaration of a unit, including one inside a top-level enum, record or annotation, is in its name set. |
| ClassDependencyAnalyzer.NestedDeclsHasBodyDecl | src/main/java/com/aicontext/maven/graph/ClassDependencyAnalyzer.java:98-102 | `findAll` visits every class declared inside a member's body: a local class, a member of an anonymous class, or a class inside a nested enum, record or annotation. |
| ClassDependencyAnalyzer.ClassSimpleNamesInCuHasLocal | src/main/java/com/aicontext/maven/graph/ClassDependencyAnalyzer.java:98-102 | The name of every class declared inside a member of a visited declaration is in the unit's name set. |
| ClassDependencyAnalyzer.ClassSimpleNamesInCuHasNested | src/main/java/com/aicontext/maven/graph/ClassDependencyAnalyzer.java:98-102 | The name of every nested class of a visited declaration is in the unit's name set. |
| FilterDefinitions.AnyMatchSome | src/main/java/com/aicontext/maven/scaffolding/FilterDefinition.java:60 | `anyMatch` over the sub-filters from an index on holds exactly when some sub-filter from that index matches. |
| FilterDefinitions.OrMatchesIffSomeMatches | src/main/java/com/aicontext/maven/scaffolding/FilterDefinition.java:59-61 | A filter with sub-filters matches an entry exactly when one of its sub-filters does. |
| FilterDefinitions.OrIgnoresOwnCriteria | src/main/java/com/aicontext/maven/scaffolding/FilterDefinition.java:59-61 | A filter with sub-filters gives the same verdict whatever its own level, type and content criteria are. |
| FilterDefinitions.CriteriaMatch | src/main/java/com/aicontext/maven/scaffolding/FilterDefinition.java:63-85 | Without sub-filters, a filter matches exactly when three things hold: the level name is unset or equal; the type is unset or equal; the content is unset or found in the entry's content, case-insensitively. |
| FilterDefinitions.Matches | src/main/java/com/aicontext/maven/scaffolding/FilterDefinition.java:57-86 | A filter with nothing set matches every entry. |
| FilterDefinitions.ContentCaseInsensitive | src/main/java/com/aicontext/maven/scaffolding/FilterDefinition.java:79-83 | Lower-casing the content fragment does not change any verdict. |
| FilterDefinitions.VerbatimContentMatches | src/main/java/com/aicontext/maven/scaffolding/FilterDefinition.java:79-83 | A content-only filter matches every entry whose content contains the fragment verbatim. |
| FilterDefinitions.CastToString | src/main/java/com/aicontext/maven/scaffolding/FilterDefinition.java:91-93 | The `(String)` cast throws exactly when the value is present, not `null` and not a string. |
| FilterDefinitions.FromMap | src/main/java/com/aicontext/maven/scaffolding/FilterDefinition.java:89-105 | The method, with its loop over the `or` list, returns the filter the specification gives, or throws exactly when it does. |
| FilterDefinitions.FromMapKeepsMapItems | src/main/java/com/aicontext/maven/scaffolding/FilterDefinition.java:95-102 | The sub-filters are built from the map items of the `or` list, one each, in order. Other items are skipped. |
| FilterDefinitions.ScalarCriterionThrows | src/main/java/com/aicontext/maven/scaffolding/FilterDefinition.java:91-93 | A non-string value under `level`, `type` or `content` makes `fromMap` throw. |
| FilterDefinitions.FromMapRoundTrip | src/main/java/com/aicontext/maven/scaffolding/FilterDefinition.java:89-105 | Writing any filter as a YAML map and reading it back with `fromMap` gives the same filter. |
| FilterDefinitions.SubFiltersRoundTrip | src/main/java/com/aicontext/maven/scaffolding/FilterDefinition.java:95-102 | Reading back the written `or` list gives the sub-filters in order. |
| GenerateGraphs.FormatSuggestedGraph | src/main/java/com/aicontext/maven/GenerateGraphsMojo.java:98-110 | The text is the class line, then the `uses` line over the used types in ascending order (or the `(none detected)` comment), then the closing comment. |
| GenerateGraphs.SortedCopy | src/main/java/com/aicontext/maven/GenerateGraphsMojo.java:104-105 | Copying the set into a list and sorting it gives the unique ascending listing of the set. |
| GenerateGraphs.MoreEdgesComment | src/main/java/com/aicontext/maven/GenerateGraphsMojo.java:108 | The closing line is an indented `#` line. |
| GenerateGraphs.NoneDetectedComment | src/main/java/com/aicontext/maven/GenerateGraphsMojo.java:102 | The `(none detected)` line is an indented `#` line. |
| GenerateGraphs.UsesLine | src/main/java/com/aicontext/maven/GenerateGraphsMojo.java:106 | The parser reads the written `uses` line as an outbound `uses` edge whose targets are the split target text. |
| GenerateGraphs.UsesTargetList | src/main/java/com/aicontext/maven/GenerateGraphsMojo.java:106 | Splitting the `, `-joined names gives the names back. |
| GenerateGraphs.ClassifyMiddleLine | src/main/java/com/aicontext/maven/GenerateGraphsMojo.java:101-107 | The second line is indented. With no names it is not an edge. Otherwise it is the outbound `uses` edge to exactly those names. |
| GenerateGraphs.SuggestedGraphParses | src/main/java/com/aicontext/maven/GenerateGraphsMojo.java:98-110 | The written text parses as one node: the class, with the `uses` edge when there are names. |
| GenerateGraphs.NoneDetectedHasNoEdges | src/main/java/com/aicontext/maven/GenerateGraphsMojo.java:101-102 | With nothing used, the text parses as the class with no edges. |
| GenerateGraphs.SuggestedGraphRoundTrip | src/main/java/com/aicontext/maven/GenerateGraphsMojo.java:98-110 | Take distinct simple identifiers in any order. `getDocumentedUses` of the written text, for the class, returns exactly those names in that order. |
| GenerateGraphs.FormatSuggestedGraphRoundTrip | src/main/java/com/aicontext/maven/GenerateGraphsMojo.java:98-110 | `getDocumentedUses` of the suggested graph returns exactly the sorted used set. |
| GraphEdges.NewGraphEdge | src/main/java/com/aicontext/maven/graph/GraphEdge.java:20-24 | A `null` relation type is stored as "". A `null` target list is stored as empty. Everything else is kept as given. |
| GraphEdges.ExactlyOneDirection | src/main/java/com/aicontext/maven/graph/GraphEdge.java:38-44 | Every edge is outbound or inbound, never both. |
| GraphNodes.NewGraphNode | src/main/java/com/aicontext/maven/graph/GraphNode.java:14-17 | The stored name is trimmed; it is "" for `null` and unchanged when already trimmed. `null` edges become the empty list. |
| GraphNodes.NewGraphNodeTrimsPadding | src/main/java/com/aicontext/maven/graph/GraphNode.java:15 | Padding around a trimmed name is removed exactly. |
| GraphNotationParser.StripJavadocPrefix | src/main/java/com/aicontext/maven/graph/GraphNotationParser.java:30-37 | The normalised line is always trimmed. |
| GraphNotationParser.StripJavadocPrefixOfCommentLine | src/main/java/com/aicontext/maven/graph/GraphNotationParser.java:29-37 | A line inside a Javadoc comment (` * ` + line) normalises like the bare line, unless the line itself starts with `*`. |
| GraphNotationParser.TextCommentLine | src/main/java/com/aicontext/maven/graph/GraphNotationParser.java:32-36 | ` * ` followed by padded text normalises to the text. |
| GraphNotationParser.MatchEdgeLine | src/main/java/com/aicontext/maven/graph/GraphNotationParser.java:25-27 | A match has arrow `→` or `←`, a non-empty relation and a non-empty target text. |
| GraphNotationParser.MatchOutboundEdgeLine | src/main/java/com/aicontext/maven/graph/GraphNotationParser.java:25-27 | `├─[rel]→ text` matches with exactly that relation, arrow and target text, for every `rel` without `]`. |
| GraphNotationParser.NotAnEdgeLine | src/main/java/com/aicontext/maven/graph/GraphNotationParser.java:25-27 | A line starting with neither white space nor a branch mark is not an edge. |
| GraphNotationParser.TargetList | src/main/java/com/aicontext/maven/graph/GraphNotationParser.java:153-179 | Every target is non-empty and trimmed. |
| GraphNotationParser.SplitTargets | src/main/java/com/aicontext/maven/graph/GraphNotationParser.java:153-179 | The depth-tracking loop returns the trimmed, non-empty segments between top-level commas. |
| GraphNotationParser.ScanUpToSplits | src/main/java/com/aicontext/maven/graph/GraphNotationParser.java:158-173 | After any prefix, the loop's depth is the bracket depth since the current start. No top-level comma lies between that start and the prefix end. The parts found so far, followed by the rest's segments, are the whole split. |
| GraphNotationParser.SegmentsJoin | src/main/java/com/aicontext/maven/graph/GraphNotationParser.java:160-176 | Joining the segments with commas gives the text back: nothing is lost or moved. |
| GraphNotationParser.SegmentsOfJoin | src/main/java/com/aicontext/maven/graph/GraphNotationParser.java:160-176 | Join bracket-balanced parts that have no comma; splitting the result gives those parts back. |
| GraphNotationParser.SplitLines | src/main/java/com/aicontext/maven/graph/GraphNotationParser.java:51 | With trailing empty lines kept, a block splits into one more line than it has line feeds. No line holds a line feed. |
| GraphNotationParser.SplitLinesCons | src/main/java/com/aicontext/maven/graph/GraphNotationParser.java:51 | Splitting on `\r?\n` yields the first line and then the lines of the rest. |
| GraphNotationParser.Classify | src/main/java/com/aicontext/maven/graph/GraphNotationParser.java:55-77 | A line that names a node gives a non-empty, trimmed name. |
| GraphNotationParser.ParseBlock | src/main/java/com/aicontext/maven/graph/GraphNotationParser.java:46-84 | The loop over the lines returns the node the specification gives: the first name line, and the edges in order. |
| GraphNotationParser.ParsedBlankBlock | src/main/java/com/aicontext/maven/graph/GraphNotationParser.java:47-49 | A `null`, empty or blank block gives an unnamed node without edges. |
| GraphNotationParser.NodeNameIsFirstNameLine | src/main/java/com/aicontext/maven/graph/GraphNotationParser.java:74-77 | The node is named by the first line that is neither empty nor an edge; later such lines are ignored. |
| GraphNotationParser.NoNameLines | src/main/java/com/aicontext/maven/graph/GraphNotationParser.java:80-82 | The name is missing (later stored as "") exactly when no line names a node. |
| GraphNotationParser.EdgesAreTheEdgeLines | src/main/java/com/aicontext/maven/graph/GraphNotationParser.java:61-73 | An edge is in the node exactly when it comes from some edge line of the block. |
| GraphNotationParser.CommentLinesReadAlike | src/main/java/com/aicontext/maven/graph/GraphNotationParser.java:55-59 | Prefixing every line with ` * ` does not change how any line is read. |
| GraphNotationParser.SeparatorAtBlankLine | src/main/java/com/aicontext/maven/graph/GraphNotationParser.java:99 | A match of `\n\s*\n` starts exactly where a blank line starts: a line feed, only white space, another line feed. |
| GraphNotationParser.FirstSeparator | src/main/java/com/aicontext/maven/graph/GraphNotationParser.java:99 | The separator found is a match of the pattern, and no match starts before it. |
| GraphNotationParser.SplitBlocks | src/main/java/com/aicontext/maven/graph/GraphNotationParser.java:99 | There is at least one block, and no block holds a blank line. |
| GraphNotationParser.ParsedBlocks | src/main/java/com/aicontext/maven/graph/GraphNotationParser.java:93-109 | Every parsed node has a non-empty name. |
| GraphNotationParser.NamedNodesAppend | src/main/java/com/aicontext/maven/graph/GraphNotationParser.java:101-106 | Blocks contribute their named nodes independently and in order. |
| GraphNotationParser.ParseBlocks | src/main/java/com/aicontext/maven/graph/GraphNotationParser.java:93-109 | The loop over the blocks returns the named nodes of all blocks, in order. Missing or blank content gives none. |
| GraphNotationParser.SimpleName | src/main/java/com/aicontext/maven/graph/GraphNotationParser.java:144-148 | The result has no `.` and is trimmed. A trimmed name without `.` is returned unchanged. |
| GraphNotationParser.Deduplicated | src/main/java/com/aicontext/maven/graph/GraphNotationParser.java:133-141 | The insertion-ordered set has no duplicates and holds exactly the added values. |
| GraphNotationParser.DeduplicatedDistinct | src/main/java/com/aicontext/maven/graph/GraphNotationParser.java:133-141 | Adding distinct values one by one keeps them all, in order. |
| GraphNotationParser.SelectNodeFallsBackToFirst | src/main/java/com/aicontext/maven/graph/GraphNotationParser.java:124-132 | With a name no node has, or with no name, the first node is used. |
| GraphNotationParser.FindNode | src/main/java/com/aicontext/maven/graph/GraphNotationParser.java:123-132 | The search loop returns the first node with the name, else the first node. |
| GraphNotationParser.CollectUses | src/main/java/com/aicontext/maven/graph/GraphNotationParser.java:133-141 | The edge loop returns the distinct simple names of the outbound `uses` targets, in order. |
| GraphNotationParser.AddSimpleNames | src/main/java/com/aicontext/maven/graph/GraphNotationParser.java:136-138 | The target loop adds each target's simple name once, keeping first-insertion order. |
| GraphNotationParser.GetDocumentedUses | src/main/java/com/aicontext/maven/graph/GraphNotationParser.java:120-142 | The method returns what the specification gives. |
| GraphNotationParser.UsesTargetsMembers | src/main/java/com/aicontext/maven/graph/GraphNotationParser.java:134-139 | A name is collected exactly when it is the simple name of a target of some outbound `uses` edge. Collected names have no `.`. |
| GraphNotationParser.DocumentedUsesMembers | src/main/java/com/aicontext/maven/graph/GraphNotationParser.java:120-142 | The result is empty when nothing parses. Otherwise a name is documented exactly when it is the simple name of a target of an outbound `uses` edge of the selected node. Each name appears once and has no `.`. |
| GraphValidation.GraphEntries | src/main/java/com/aicontext/maven/AIContextMojo.java:419-421 | Every entry kept is an architectural `graph` entry of the input, and every such entry is kept. |
| GraphValidation.IgnoreByLocation | src/main/java/com/aicontext/maven/AIContextMojo.java:425-427 | Every ignore text in the map is the content of an architectural `graph-ignore` entry at that location. |
| GraphValidation.IgnoreByLocationKeys | src/main/java/com/aicontext/maven/AIContextMojo.java:425-427 | A location is a key exactly when an architectural `graph-ignore` entry sits there. |
| GraphValidation.IgnoreFirstWins | src/main/java/com/aicontext/maven/AIContextMojo.java:427 | With several `graph-ignore` entries at one location, the first one's content is kept. |
| GraphValidation.GraphIgnore | src/main/java/com/aicontext/maven/AIContextMojo.java:502-512 | Every ignored name is non-empty and trimmed. |
| GraphValidation.ParseGraphIgnore | src/main/java/com/aicontext/maven/AIContextMojo.java:502-512 | The split-trim-keep loop returns the specified set. It is empty for missing or blank text. |
| GraphValidation.IgnoreListRoundTrip | src/main/java/com/aicontext/maven/AIContextMojo.java:502-512 | A comma-joined list of trimmed names reads back as the set of those names. |
| GraphValidation.BuildProjectClassSet | src/main/java/com/aicontext/maven/AIContextMojo.java:429-442 | The walk over the units collects the class names of all of them. |
| GraphValidation.ProjectClassesHas | src/main/java/com/aicontext/maven/AIContextMojo.java:438 | Every class declared in any unit, nested or not, is a project class. |
| GraphValidation.ClassNameOf | src/main/java/com/aicontext/maven/AIContextMojo.java:451 | The class name has no `.` and is a suffix of the location, after its last `.` when there is one. Otherwise it is the whole location. |
| GraphValidation.FirstNamed | src/main/java/com/aicontext/maven/AIContextMojo.java:469-471 | When a declaration has the name, the first such one is found; none is found exactly when no declaration has the name. |
| GraphValidation.FindClass | src/main/java/com/aicontext/maven/AIContextMojo.java:469-473 | A class is found exactly when the unit declares a class of that name anywhere, and what is found has that name and is one of the unit's declarations. |
| GraphValidation.CheckGraphEntry | src/main/java/com/aicontext/maven/AIContextMojo.java:450-477 | An entry is skipped when its file or class is missing. Otherwise the check compares the used, documented and ignored names. |
| GraphValidation.AddMissing | src/main/java/com/aicontext/maven/AIContextMojo.java:479-485 | The loop adds one error for each used name that is neither documented nor ignored, and nothing else. |
| GraphValidation.AddUnused | src/main/java/com/aicontext/maven/AIContextMojo.java:486-491 | The loop adds, in order, one warning for each documented name that is neither used nor ignored. |
| GraphValidation.ValidateGraphDocumentation | src/main/java/com/aicontext/maven/AIContextMojo.java:418-500 | Without graph entries the report is empty. Otherwise the errors (as a multiset) and the warnings are those of all checked entries. The run fails exactly when there is an error. |
| GraphValidation.Log | src/main/java/com/aicontext/maven/AIContextMojo.java:486-496 | The log holds each warning's message in order, then each error's message, so no warning follows an error. |
| GraphValidation.ErrorLoggedIffFailure | src/main/java/com/aicontext/maven/AIContextMojo.java:493-499 | An error line is logged exactly when the run fails. |
| GraphValidation.ErrorsAreUndocumentedUses | src/main/java/com/aicontext/maven/AIContextMojo.java:479-485 | Every error names a used class that its entry's graph neither documents nor ignores. |
| GraphValidation.UndocumentedUsesAreErrors | src/main/java/com/aicontext/maven/AIContextMojo.java:479-485 | Every used class that a checked entry neither documents nor ignores is reported as an error. |
| GraphValidation.UnusedDocumentationIsHarmless | src/main/java/com/aicontext/maven/AIContextMojo.java:486-491 | Documenting extra names the code does not use never adds an error. |
| GraphValidation.ErrorsIffSomeUndocumentedUse | src/main/java/com/aicontext/maven/AIContextMojo.java:493-499 | There is an error exactly when some checked entry uses a class it neither documents nor ignores. |
| MojoHelpers.Truncate | src/main/java/com/aicontext/maven/AIContextMojo.java:1657-1662 | `null` gives "". Text within the limit is unchanged. Longer text becomes its first `maxLength` characters plus `...`. |
| MojoHelpers.TruncateAgain | src/main/java/com/aicontext/maven/AIContextMojo.java:1657-1662 | A result is at most 3 characters over the limit. Truncating it again at limit + 3 changes nothing. |
| MojoHelpers.KeepSlugChars | src/main/java/com/aicontext/maven/AIContextMojo.java:737 | Only letters, digits, `_` and `-` survive, and the text does not grow. |
| MojoHelpers.LocationToSlug | src/main/java/com/aicontext/maven/AIContextMojo.java:734-738 | Every slug is made of slug characters. `null` gives "". |
| MojoHelpers.SlugIdempotent | src/main/java/com/aicontext/maven/AIContextMojo.java:734-738 | Slugging a slug changes nothing. |
| MojoHelpers.DottedNameSlug | src/main/java/com/aicontext/maven/AIContextMojo.java:736 | For a name of slug characters and dots, the slug is the name with each `.` turned into `-`. |
| MojoHelpers.SubstituteEntryFilename | src/main/java/com/aicontext/maven/AIContextMojo.java:740-751 | Without a pattern, the name starts with `type-slug` and ends with `.md`, and an index of at most 1 adds no suffix. |
| MojoHelpers.DefaultFilenamesDistinct | src/main/java/com/aicontext/maven/AIContextMojo.java:741 | Without a pattern, different indexes (all at least 1) give different file names. |
| MojoHelpers.PatternFilenamesDistinct | src/main/java/com/aicontext/maven/AIContextMojo.java:742-749 | Take a pattern that ends in `.md` and does not use `{{index}}`. Different indexes (all at least 1) give different file names. |
| MojoHelpers.AssignIndices | src/main/java/com/aicontext/maven/AIContextMojo.java:707-713 | The `merge` loop gives each entry its 1-based occurrence number among the entries with its `type:slug` key. |
| MojoHelpers.SameKeyIncreasingIndex | src/main/java/com/aicontext/maven/AIContextMojo.java:713 | A later entry with the same key gets a strictly larger index. |
| MojoHelpers.FirstOfKeyIndexOne | src/main/java/com/aicontext/maven/AIContextMojo.java:713 | The first entry with a key gets index 1. |
| MojoHelpers.DefaultFilesDistinct | src/main/java/com/aicontext/maven/AIContextMojo.java:707-726 | Without a pattern, two entries with the same type and location never get the same file name. |
| MojoHelpers.StripCallParens | src/main/java/com/aicontext/maven/AIContextMojo.java:1281 | Only a final `()` is removed, and nothing else changes. |
| MojoHelpers.DropTrailingEmpty | src/main/java/com/aicontext/maven/AIContextMojo.java:1283 | `split` drops exactly the trailing empty parts. |
| MojoHelpers.SplitDots | src/main/java/com/aicontext/maven/AIContextMojo.java:1283 | A location without `.` is its only part. No part holds a `.`, and there are at most as many parts as dots plus one. |
| MojoHelpers.ExtractLocationComponents | src/main/java/com/aicontext/maven/AIContextMojo.java:1272-1313 | A `null` or empty location gives three empty components. Any other location that does not throw gives a non-empty class name. |
| MojoHelpers.MethodLocation | src/main/java/com/aicontext/maven/AIContextMojo.java:1283-1295 | `pkg.Class.method`, with or without `()`, splits into package, class and method. |
| MojoHelpers.ClassLocation | src/main/java/com/aicontext/maven/AIContextMojo.java:1296-1306 | `pkg.Class`, with a lower-case last package part, splits into package and class, with no method. |
| MojoHelpers.UndottedLocation | src/main/java/com/aicontext/maven/AIContextMojo.java:1308-1312 | A location without `.` is the class name as a whole. |
| MojoHelpers.SplitDotsOfJoin | src/main/java/com/aicontext/maven/AIContextMojo.java:1283 | Splitting dot-joined non-empty parts on `.` gives the parts back. |
| StringOrder.CompareTo | src/main/java/com/aicontext/maven/GenerateGraphsMojo.java:105 | `compareTo` is zero exactly for equal strings. |
| StringOrder.CompareToLe | src/main/java/com/aicontext/maven/GenerateGraphsMojo.java:105 | `compareTo(a, b) <= 0` is exactly the lexicographic order with prefixes first. |
| StringOrder.LeTotal | src/main/java/com/aicontext/maven/GenerateGraphsMojo.java:105 | Any two strings compare one way or the other. |
| StringOrder.LeAntisymmetric | src/main/java/com/aicontext/maven/GenerateGraphsMojo.java:105 | Strings that compare both ways are equal. |
| StringOrder.LeTransitive | src/main/java/com/aicontext/maven/GenerateGraphsMojo.java:105 | The natural order is transitive. |
| StringOrder.SortedListing | src/main/java/com/aicontext/maven/GenerateGraphsMojo.java:104-105 | The listing holds each element of the set once, in ascending order. |
| StringOrder.SortedListingUnique | src/main/java/com/aicontext/maven/GenerateGraphsMojo.java:104-105 | Any ascending, duplicate-free listing of the set is that listing: the sorted output is determined. |
| StringOrder.SortInPlace | src/main/java/com/aicontext/maven/GenerateGraphsMojo.java:105 | The in-place sort leaves the array ascending and a permutation of what it held. |
| StringOrder.ListOfSet | src/main/java/com/aicontext/maven/GenerateGraphsMojo.java:104 | `new ArrayList<>(set)` holds the set's elements, each once. |

## Left out

- Everything around the core is not modelled:
  - file and directory access, parsing by JavaParser, the Maven lifecycle and logging;
  - Mustache templates, the YAML parser, tag extraction by regular expression, timestamps and the recency boost;
  - writing signed files.
- Graph validation receives the parsed compilation units and a map from file path to unit as parameters. A missing key stands for a file that is not found, fails to parse, or yields no unit.
- Hash-set iteration order is not specified. Validation errors are therefore stated as a multiset, and `new ArrayList<>(set)` as some order of the set's elements.
- `String.format` and `StringBuilder` are modelled as string concatenation.
- The javadoc `DocTree` plumbing is replaced by a tag datatype. Each tag carries its concatenated content.
- Case mapping (`toUpperCase`, `toLowerCase`, `Character.isUpperCase`) covers ASCII letters only. Other letters map to themselves.
- JavaString.ToUpper: the source calls `toUpperCase()` with the default locale. Under a Turkish locale `i` becomes `İ`, so the tag name `decision` is shown as `DECİSİON`. The model always maps `i` to `I`.
- JavaString.ToLower: the source calls `toLowerCase()` with the default locale. Under a Turkish locale `I` becomes a dotless `ı`, so content with a capital `I` no longer contains a fragment spelled with `i`. The model always maps `I` to `i`.
- MojoHelpers.Truncate: lengths and the cut point count characters, not UTF-16 code units. For text with characters outside the Basic Multilingual Plane the source keeps fewer characters, and it may cut a surrogate pair in half.
- Characters are Unicode scalar values. `String.compareTo` compares UTF-16 code units, so characters outside the Basic Multilingual Plane may order differently in the source than in the model.
- Java's `split` drops trailing empty strings. This is modelled in `extractLocationComponents`, where it changes the result. For lines, blocks, targets and ignore lists every empty piece is skipped afterwards anyway, so it is not modelled there.
- FilterDefinitions.FromMap: YAML map keys are strings only.
- GraphValidation.IgnoreByLocationKeys: entry contents are never `null` in the model, so the exception `Collectors.toMap` throws for a `null` value is not modelled.
- FilterDefinitions.FilterDefinition is an immutable value: the setters, getters and aliasing of the mutable `or` list are not modelled.
- MojoHelpers.AssignIndices: the counter is an unbounded integer. Java's `int` would wrap only after 2^31 - 1 entries with one key.
- MojoHelpers.Truncate: `maxLength` is a natural number. A negative limit, for which `substring` throws, is never passed by the source (it passes 80).
- `register` adds five taglets (rule, decision, graph, graph-ignore, context). The model follows the code; the repository's own test still expects three.
- `parseBlock` keeps an edge whose target list splits to nothing (for example `├─[uses]→ ,`). The model keeps it too.
