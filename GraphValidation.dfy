/**
 * `AIContextMojo.validateGraphDocumentation` and `parseGraphIgnore`: every project class a
 * class with an `@aicontext-graph` tag uses must be documented as a `uses` edge of its graph
 * or listed in its `@aicontext-graph-ignore` tag.
 *
 * Hard errors are the used names neither documented nor ignored; documented names the code
 * does not use (and that are not ignored) only give warnings. Errors are gathered over all
 * graph entries and the run fails at the end when there is at least one.
 *
 * File access is abstracted: the project's parsed compilation units stand for the walk over
 * the source directory, and a map from file path to compilation unit stands for resolving
 * and parsing an entry's file (a missing key is a file that is not found or not parsed).
 */
module GraphValidation {
  import opened Wrappers
  import opened JavaString
  import opened AIContextEntries
  import ClassDependencyAnalyzer
  import GraphNotationParser

  type CompilationUnit = ClassDependencyAnalyzer.CompilationUnit
  type ClassDecl = ClassDependencyAnalyzer.ClassDecl

  // ===========================================================================
  // Selecting the entries
  // ===========================================================================

  predicate IsGraphEntry(e: AIContextEntry) {
    e.level == ARCHITECTURAL && e.tagType == "graph"
  }

  predicate IsGraphIgnoreEntry(e: AIContextEntry) {
    e.level == ARCHITECTURAL && e.tagType == "graph-ignore"
  }

  /** The architectural `graph` entries, in order. */
  function GraphEntries(entries: seq<AIContextEntry>): (r: seq<AIContextEntry>)
    ensures forall e | e in r :: IsGraphEntry(e) && e in entries
    ensures forall e | e in entries && IsGraphEntry(e) :: e in r
    decreases |entries|
  {
    if entries == [] then []
    else
      var e := entries[|entries| - 1];
      GraphEntries(entries[..|entries| - 1]) + (if IsGraphEntry(e) then [e] else [])
  }

  /**
   * The ignore text per location: the content of the first `graph-ignore` entry there. Every
   * text in the map is the content of a `graph-ignore` entry at its location.
   */
  function IgnoreByLocation(entries: seq<AIContextEntry>): (r: map<string, string>)
    ensures forall l | l in r :: exists k | 0 <= k < |entries| ::
      IsGraphIgnoreEntry(entries[k]) && entries[k].location == l && entries[k].content == r[l]
    decreases |entries|
  {
    if entries == [] then map[]
    else
      var init := entries[..|entries| - 1];
      var m := IgnoreByLocation(init);
      var e := entries[|entries| - 1];
      assert forall k | 0 <= k < |init| :: entries[k] == init[k];
      if IsGraphIgnoreEntry(e) && e.location !in m then m[e.location := e.content] else m
  }

  /** A location is a key exactly when some `graph-ignore` entry sits there. */
  lemma {:induction false} IgnoreByLocationKeys(entries: seq<AIContextEntry>, location: string)
    ensures location in IgnoreByLocation(entries) <==>
      exists k | 0 <= k < |entries| :: IsGraphIgnoreEntry(entries[k]) && entries[k].location == location
    decreases |entries|
  {
    if entries != [] {
      var init := entries[..|entries| - 1];
      IgnoreByLocationKeys(init, location);
      if exists k | 0 <= k < |init| :: IsGraphIgnoreEntry(init[k]) && init[k].location == location {
        var k :| 0 <= k < |init| && IsGraphIgnoreEntry(init[k]) && init[k].location == location;
        assert entries[k] == init[k];
      }
      if exists k | 0 <= k < |entries| :: IsGraphIgnoreEntry(entries[k]) && entries[k].location == location {
        var k :| 0 <= k < |entries| && IsGraphIgnoreEntry(entries[k]) && entries[k].location == location;
        if k < |init| {
          assert init[k] == entries[k];
        }
      }
    }
  }

  /** The first `graph-ignore` entry at a location gives its ignore text; later ones are discarded. */
  lemma {:induction false} IgnoreFirstWins(entries: seq<AIContextEntry>, k: nat)
    requires k < |entries| && IsGraphIgnoreEntry(entries[k])
    requires forall j | 0 <= j < k :: !(IsGraphIgnoreEntry(entries[j]) && entries[j].location == entries[k].location)
    ensures entries[k].location in IgnoreByLocation(entries)
    ensures IgnoreByLocation(entries)[entries[k].location] == entries[k].content
    decreases |entries|
  {
    var init := entries[..|entries| - 1];
    if k < |entries| - 1 {
      forall j | 0 <= j < k
        ensures !(IsGraphIgnoreEntry(init[j]) && init[j].location == init[k].location)
      {
        assert init[j] == entries[j];
      }
      IgnoreFirstWins(init, k);
    } else {
      forall j | 0 <= j < |init|
        ensures !(IsGraphIgnoreEntry(init[j]) && init[j].location == entries[k].location)
      {
        assert init[j] == entries[j];
      }
      IgnoreByLocationKeys(init, entries[k].location);
    }
  }

  // ===========================================================================
  // parseGraphIgnore
  // ===========================================================================

  /** `parseGraphIgnore`: nothing for missing or blank text, else the trimmed non-empty comma parts. */
  function GraphIgnore(content: Option<string>): (r: set<string>)
    ensures forall t | t in r :: t != "" && IsTrimmed(t)
  {
    if content.None? || IsBlank(content.value) then {}
    else
      Elements(TrimmedNonEmpty(SplitOn(content.value, ',')))
  }

  /** The strings of a sequence, as a set. */
  function Elements(xs: seq<string>): set<string> {
    set x | x in xs
  }

  lemma ElementsAppend(a: seq<string>, b: seq<string>)
    ensures Elements(a + b) == Elements(a) + Elements(b)
  {
  }

  /** The loop of `parseGraphIgnore`: split on commas, trim, keep the non-empty parts in a set. */
  method ParseGraphIgnore(content: Option<string>) returns (ignore: set<string>)
    ensures ignore == GraphIgnore(content)
  {
    if content.None? || IsBlank(content.value) {
      return {};
    }
    var parts := SplitOn(content.value, ',');
    ignore := {};
    var i := 0;
    while i < |parts|
      invariant i <= |parts|
      invariant ignore == Elements(TrimmedNonEmpty(parts[..i]))
    {
      IgnoreStep(parts, i);
      var t := Trim(parts[i]);
      if t != "" {
        ignore := ignore + {t};
      }
      i := i + 1;
    }
    assert parts[..i] == parts;
  }

  /** One more comma part adds its trimmed text to the ignore set, unless that is empty. */
  lemma IgnoreStep(parts: seq<string>, i: nat)
    requires i < |parts|
    ensures Elements(TrimmedNonEmpty(parts[..i + 1]))
            == Elements(TrimmedNonEmpty(parts[..i])) + (if Trim(parts[i]) == "" then {} else {Trim(parts[i])})
  {
    assert parts[..i + 1] == parts[..i] + [parts[i]];
    TrimmedNonEmptyAppend(parts[..i], [parts[i]]);
    TrimmedNonEmptySingle(parts[i]);
    ElementsAppend(TrimmedNonEmpty(parts[..i]), TrimmedNonEmpty([parts[i]]));
  }

  /** A comma-separated list of names reads back as the set of those names. */
  lemma IgnoreListRoundTrip(names: seq<string>)
    requires |names| > 0
    requires forall i | 0 <= i < |names| :: !IsBlank(names[i]) && IsTrimmed(names[i]) && ',' !in names[i]
    ensures GraphIgnore(Some(Join(names, ","))) == Elements(names)
  {
    var text := Join(names, ",");
    assert !IsBlank(text) by {
      var c :| 0 <= c < |names[0]| && !IsJavaWhitespace(names[0][c]);
      JoinStartsWithFirst(names, ",");
      assert text[c] == names[0][c];
    }
    SplitOnJoin(names, ',');
    forall i | 0 <= i < |names|
      ensures names[i] != ""
    {
      assert !IsBlank(names[i]);
    }
    TrimmedNonEmptyKeeps(names);
  }

  // ===========================================================================
  // The project class set and the class of an entry
  // ===========================================================================

  /** The simple names of all classes and interfaces declared in the project's units. */
  function ProjectClasses(units: seq<CompilationUnit>): set<string>
    decreases |units|
  {
    if units == [] then {}
    else ProjectClasses(units[..|units| - 1]) + ClassDependencyAnalyzer.ClassSimpleNamesInCu(units[|units| - 1])
  }

  /** The walk over the source files, adding every unit's class names to the set. */
  method BuildProjectClassSet(units: seq<CompilationUnit>) returns (projectClasses: set<string>)
    ensures projectClasses == ProjectClasses(units)
  {
    projectClasses := {};
    var i := 0;
    while i < |units|
      invariant i <= |units|
      invariant projectClasses == ProjectClasses(units[..i])
    {
      assert units[..i + 1][..i] == units[..i];
      projectClasses := projectClasses + ClassDependencyAnalyzer.ClassSimpleNamesInCu(units[i]);
      i := i + 1;
    }
    assert units[..i] == units;
  }

  /** Every class declared anywhere in the project, nested or not, is a project class. */
  lemma {:induction false} ProjectClassesHas(units: seq<CompilationUnit>, k: nat, d: ClassDecl)
    requires k < |units| && d in ClassDependencyAnalyzer.AllDecls(units[k].types)
    ensures d.name in ProjectClasses(units)
    decreases |units|
  {
    if k < |units| - 1 {
      ProjectClassesHas(units[..|units| - 1], k, d);
    }
  }

  /** The class name of a location: the text after its last `.`, or all of it. */
  function ClassNameOf(location: string): (r: string)
    ensures '.' !in r && EndsWith(location, r)
    ensures '.' !in location ==> r == location
    ensures '.' in location ==> location[|location| - |r| - 1] == '.'
  {
    AfterLast(location, '.')
  }

  /** The first declaration called `name`, as `findFirst` gives it. */
  function FirstNamed(decls: seq<ClassDecl>, name: string): (r: Option<ClassDecl>)
    ensures r.Some? ==> r.value in decls && r.value.name == name
    ensures r.None? <==> forall d | d in decls :: d.name != name
    decreases |decls|
  {
    if decls == [] then None
    else if decls[0].name == name then Some(decls[0])
    else FirstNamed(decls[1..], name)
  }

  /**
   * The class called `name` in a unit, nested and local classes included. It is found exactly
   * when the unit's name set holds `name`.
   */
  function FindClass(cu: CompilationUnit, name: string): (r: Option<ClassDecl>)
    ensures r.Some? ==> r.value.name == name && r.value in ClassDependencyAnalyzer.AllDecls(cu.types)
    ensures r.Some? <==> name in ClassDependencyAnalyzer.ClassSimpleNamesInCu(cu)
  {
    FirstNamed(ClassDependencyAnalyzer.AllDecls(cu.types), name)
  }

  // ===========================================================================
  // What one entry contributes
  // ===========================================================================

  /** A reported name and the `file:line` of the graph entry it belongs to. */
  datatype Finding = Finding(at: string, name: string)

  function ErrorMessage(f: Finding): string {
    f.at + ": Class dependency '" + f.name
      + "' found but not in graph. Add to @aicontext-graph or @aicontext-graph-ignore."
  }

  function WarningMessage(f: Finding): string {
    f.at + " Graph documents '" + f.name + "' but code does not use it (lenient)."
  }

  const FailureMessage: string := "Graph validation failed: dependency found but not documented. See errors above."

  /** What is compared for one checked entry: used, documented and ignored names. */
  datatype EntryCheck = EntryCheck(at: string, actual: set<string>, documented: seq<string>, ignore: set<string>)

  function Where(e: AIContextEntry): string {
    e.filePath + ":" + IntToString(e.lineNumber)
  }

  function IgnoreTextAt(ignoreMap: map<string, string>, location: string): string {
    if location in ignoreMap then ignoreMap[location] else ""
  }

  /**
   * The comparison made for a graph entry, or `None` when the entry is skipped: its file
   * is not found or not parsed, or no class there has the location's class name.
   */
  function CheckEntry(e: AIContextEntry, ignoreMap: map<string, string>, project: set<string>,
                      files: map<string, CompilationUnit>): Option<EntryCheck>
  {
    var className := ClassNameOf(e.location);
    if e.filePath !in files then None
    else
      match FindClass(files[e.filePath], className)
      case None => None
      case Some(cls) =>
        Some(EntryCheck(Where(e),
                        ClassDependencyAnalyzer.UsedProjectTypes(cls, project),
                        GraphNotationParser.DocumentedUses(Some(e.content), Some(className)),
                        GraphIgnore(Some(IgnoreTextAt(ignoreMap, e.location)))))
  }

  /** Used names that are neither documented nor ignored: the hard errors. */
  function MissingNames(actual: set<string>, documented: seq<string>, ignore: set<string>): set<string> {
    set d | d in actual && d !in documented && d !in ignore
  }

  /** Documented names that are neither used nor ignored, in documented order: the warnings. */
  function UnusedNames(documented: seq<string>, actual: set<string>, ignore: set<string>): (r: seq<string>)
    ensures forall d | d in r :: d in documented && d !in actual && d !in ignore
    decreases |documented|
  {
    if documented == [] then []
    else
      var d := documented[|documented| - 1];
      UnusedNames(documented[..|documented| - 1], actual, ignore) + (if d !in actual && d !in ignore then [d] else [])
  }

  /** One finding per name, all at the same place. */
  function Findings(at: string, names: set<string>): multiset<Finding> {
    multiset(set n | n in names :: Finding(at, n))
  }

  lemma FindingsHas(at: string, names: set<string>, n: string)
    requires n in names
    ensures Finding(at, n) in Findings(at, names)
  {
    assert Finding(at, n) in (set m | m in names :: Finding(at, m));
  }

  lemma FindingsOnly(at: string, names: set<string>, f: Finding)
    requires f in Findings(at, names)
    ensures f.at == at && f.name in names
  {
    assert f in (set m | m in names :: Finding(at, m));
  }

  function At(at: string, names: seq<string>): (r: seq<Finding>)
    ensures |r| == |names| && forall i | 0 <= i < |r| :: r[i] == Finding(at, names[i])
  {
    seq(|names|, i requires 0 <= i < |names| => Finding(at, names[i]))
  }

  /** The errors one entry contributes: none when it is skipped. */
  function EntryErrors(check: Option<EntryCheck>): multiset<Finding> {
    match check
    case None => multiset{}
    case Some(c) => Findings(c.at, MissingNames(c.actual, c.documented, c.ignore))
  }

  /** The warnings one entry contributes: none when it is skipped. */
  function EntryWarnings(check: Option<EntryCheck>): seq<Finding> {
    match check
    case None => []
    case Some(c) => At(c.at, UnusedNames(c.documented, c.actual, c.ignore))
  }

  /** The comparison made for each graph entry, in order. */
  function EntryChecks(graphEntries: seq<AIContextEntry>, ignoreMap: map<string, string>,
                       project: set<string>, files: map<string, CompilationUnit>): (r: seq<Option<EntryCheck>>)
    ensures |r| == |graphEntries|
    ensures forall k | 0 <= k < |r| :: r[k] == CheckEntry(graphEntries[k], ignoreMap, project, files)
  {
    seq(|graphEntries|, k requires 0 <= k < |graphEntries| => CheckEntry(graphEntries[k], ignoreMap, project, files))
  }

  /** The errors of all checked entries. */
  function ExpectedErrors(checks: seq<Option<EntryCheck>>): multiset<Finding>
    decreases |checks|
  {
    if checks == [] then multiset{}
    else ExpectedErrors(checks[..|checks| - 1]) + EntryErrors(checks[|checks| - 1])
  }

  /** The warnings of all checked entries, in order. */
  function ExpectedWarnings(checks: seq<Option<EntryCheck>>): seq<Finding>
    decreases |checks|
  {
    if checks == [] then []
    else ExpectedWarnings(checks[..|checks| - 1]) + EntryWarnings(checks[|checks| - 1])
  }

  lemma ExpectedStep(checks: seq<Option<EntryCheck>>, i: nat)
    requires i < |checks|
    ensures ExpectedErrors(checks[..i + 1]) == ExpectedErrors(checks[..i]) + EntryErrors(checks[i])
    ensures ExpectedWarnings(checks[..i + 1]) == ExpectedWarnings(checks[..i]) + EntryWarnings(checks[i])
  {
    assert checks[..i + 1][..i] == checks[..i];
  }

  // ===========================================================================
  // validateGraphDocumentation
  // ===========================================================================

  /** The comparisons a run over these entries, project units and files makes. */
  function Checks(entries: seq<AIContextEntry>, units: seq<CompilationUnit>,
                  files: map<string, CompilationUnit>): seq<Option<EntryCheck>> {
    EntryChecks(GraphEntries(entries), IgnoreByLocation(entries), ProjectClasses(units), files)
  }

  /** The outcome of a validation run: errors and warnings logged, and the failure, if any. */
  datatype Report = Report(errors: seq<Finding>, warnings: seq<Finding>, failure: Option<string>)

  /** A line written to the build log: a warning or an error. */
  datatype LogLine = Warn(text: string) | Error(text: string)

  /**
   * What a run writes to the log: the warnings as each entry is checked, then, after the loop,
   * all the errors. No warning follows an error.
   */
  function Log(report: Report): (r: seq<LogLine>)
    ensures |r| == |report.warnings| + |report.errors|
    ensures forall i | 0 <= i < |report.warnings| :: r[i] == Warn(WarningMessage(report.warnings[i]))
    ensures forall j | 0 <= j < |report.errors| :: r[|report.warnings| + j] == Error(ErrorMessage(report.errors[j]))
    ensures forall i, j | 0 <= i < j < |r| :: !(r[i].Error? && r[j].Warn?)
  {
    seq(|report.warnings|, i requires 0 <= i < |report.warnings| => Warn(WarningMessage(report.warnings[i])))
      + seq(|report.errors|, j requires 0 <= j < |report.errors| => Error(ErrorMessage(report.errors[j])))
  }

  /** For a report as `ValidateGraphDocumentation` makes it, an error is logged exactly when the run fails. */
  lemma ErrorLoggedIffFailure(report: Report)
    requires report.failure == if |report.errors| > 0 then Some(FailureMessage) else None
    ensures (exists i | 0 <= i < |Log(report)| :: Log(report)[i].Error?) <==> report.failure.Some?
  {
    if |report.errors| > 0 {
      assert Log(report)[|report.warnings| + 0].Error?;
    }
  }

  /**
   * `validateGraphDocumentation`. The errors of an entry come in the iteration order of a
   * hash set, which is not specified, so they are stated as a multiset.
   */
  method ValidateGraphDocumentation(entries: seq<AIContextEntry>, units: seq<CompilationUnit>,
                                    files: map<string, CompilationUnit>) returns (report: Report)
    ensures GraphEntries(entries) == [] ==> report == Report([], [], None)
    ensures multiset(report.errors) == ExpectedErrors(Checks(entries, units, files))
    ensures report.warnings == ExpectedWarnings(Checks(entries, units, files))
    ensures report.failure == if |report.errors| > 0 then Some(FailureMessage) else None
    ensures report.failure.Some? <==> ExpectedErrors(Checks(entries, units, files)) != multiset{}
  {
    var graphEntries := GraphEntries(entries);
    if graphEntries == [] {
      return Report([], [], None);
    }
    var ignoreByLocation := IgnoreByLocation(entries);
    var projectClasses := BuildProjectClassSet(units);
    ghost var checks := EntryChecks(graphEntries, ignoreByLocation, projectClasses, files);
    var errors: seq<Finding> := [];
    var warnings: seq<Finding> := [];
    var i := 0;
    while i < |graphEntries|
      invariant i <= |graphEntries|
      invariant multiset(errors) == ExpectedErrors(checks[..i])
      invariant warnings == ExpectedWarnings(checks[..i])
    {
      ExpectedStep(checks, i);
      var check := CheckGraphEntry(graphEntries[i], ignoreByLocation, projectClasses, files);
      if check.Some? {
        errors := AddMissing(errors, check.value.at, check.value.actual, check.value.documented, check.value.ignore);
        warnings := AddUnused(warnings, check.value.at, check.value.actual, check.value.documented, check.value.ignore);
      }
      i := i + 1;
    }
    assert checks[..i] == checks;
    report := Report(errors, warnings, if |errors| > 0 then Some(FailureMessage) else None);
  }

  /**
   * The body of the loop over graph entries up to the comparison: find the entry's file
   * and class, or skip it, then compute used, documented and ignored names.
   */
  method CheckGraphEntry(e: AIContextEntry, ignoreMap: map<string, string>, project: set<string>,
                         files: map<string, CompilationUnit>) returns (check: Option<EntryCheck>)
    ensures check == CheckEntry(e, ignoreMap, project, files)
  {
    var className := ClassNameOf(e.location);
    if e.filePath !in files {
      return None;
    }
    var cls := FindClass(files[e.filePath], className);
    if cls.None? {
      return None;
    }
    var actual := ClassDependencyAnalyzer.FindUsedProjectTypes(cls.value, project);
    var documented := GraphNotationParser.GetDocumentedUses(Some(e.content), Some(className));
    var ignoreSet := ParseGraphIgnore(Some(IgnoreTextAt(ignoreMap, e.location)));
    check := Some(EntryCheck(Where(e), actual, documented, ignoreSet));
  }

  /** Adding one more name to those already looked at adds at most its one finding. */
  lemma FindingsAdd(at: string, names: set<string>, n: string)
    requires n !in names
    ensures Findings(at, names + {n}) == Findings(at, names) + multiset{Finding(at, n)}
  {
    var before := set m | m in names :: Finding(at, m);
    assert (set m | m in names + {n} :: Finding(at, m)) == before + {Finding(at, n)};
    assert Finding(at, n) !in before;
  }

  /** The loop over `actual` that adds an error for each name neither documented nor ignored. */
  method AddMissing(errors0: seq<Finding>, at: string, actual: set<string>, documented: seq<string>,
                    ignore: set<string>) returns (errors: seq<Finding>)
    ensures multiset(errors) == multiset(errors0) + Findings(at, MissingNames(actual, documented, ignore))
  {
    errors := errors0;
    var remaining := actual;
    while remaining != {}
      invariant remaining <= actual
      invariant multiset(errors)
                == multiset(errors0) + Findings(at, MissingNames(actual - remaining, documented, ignore))
      decreases |remaining|
    {
      var dep :| dep in remaining;
      ghost var done := MissingNames(actual - remaining, documented, ignore);
      if dep !in documented && dep !in ignore {
        assert MissingNames(actual - (remaining - {dep}), documented, ignore) == done + {dep};
        FindingsAdd(at, done, dep);
        errors := errors + [Finding(at, dep)];
      } else {
        assert MissingNames(actual - (remaining - {dep}), documented, ignore) == done;
      }
      remaining := remaining - {dep};
    }
    assert actual - remaining == actual;
  }

  lemma UnusedStep(at: string, documented: seq<string>, i: nat, actual: set<string>, ignore: set<string>)
    requires i < |documented|
    ensures At(at, UnusedNames(documented[..i + 1], actual, ignore))
            == At(at, UnusedNames(documented[..i], actual, ignore))
               + (if documented[i] !in actual && documented[i] !in ignore then [Finding(at, documented[i])] else [])
  {
    assert documented[..i + 1][..i] == documented[..i];
    var before := UnusedNames(documented[..i], actual, ignore);
    if documented[i] !in actual && documented[i] !in ignore {
      assert At(at, before + [documented[i]]) == At(at, before) + [Finding(at, documented[i])];
    } else {
      assert At(at, before) + [] == At(at, before);
    }
  }

  /** The loop over `documented` that warns about each name neither used nor ignored. */
  method AddUnused(warnings0: seq<Finding>, at: string, actual: set<string>, documented: seq<string>,
                   ignore: set<string>) returns (warnings: seq<Finding>)
    ensures warnings == warnings0 + At(at, UnusedNames(documented, actual, ignore))
  {
    warnings := warnings0;
    var i := 0;
    while i < |documented|
      invariant i <= |documented|
      invariant warnings == warnings0 + At(at, UnusedNames(documented[..i], actual, ignore))
    {
      UnusedStep(at, documented, i, actual, ignore);
      var doc := documented[i];
      if doc !in actual && doc !in ignore {
        warnings := warnings + [Finding(at, doc)];
      }
      i := i + 1;
    }
    assert documented[..i] == documented;
  }

  // ===========================================================================
  // Properties of the validation
  // ===========================================================================

  /** `f` is an error of this checked entry: a used name neither documented nor ignored. */
  predicate ReportsMissing(check: Option<EntryCheck>, f: Finding) {
    check.Some? && f.at == check.value.at
    && f.name in check.value.actual && f.name !in check.value.documented && f.name !in check.value.ignore
  }

  /** Each error names a used class that the entry's graph neither documents nor ignores. */
  lemma {:induction false} ErrorsAreUndocumentedUses(checks: seq<Option<EntryCheck>>, f: Finding)
    requires f in ExpectedErrors(checks)
    ensures exists k | 0 <= k < |checks| :: ReportsMissing(checks[k], f)
    decreases |checks|
  {
    var init := checks[..|checks| - 1];
    var last := checks[|checks| - 1];
    if f in ExpectedErrors(init) {
      ErrorsAreUndocumentedUses(init, f);
      var j :| 0 <= j < |init| && ReportsMissing(init[j], f);
      assert checks[j] == init[j];
    } else {
      FindingsOnly(last.value.at, MissingNames(last.value.actual, last.value.documented, last.value.ignore), f);
      assert ReportsMissing(checks[|checks| - 1], f);
    }
  }

  /** Conversely, every used name that a checked entry neither documents nor ignores is an error. */
  lemma {:induction false} UndocumentedUsesAreErrors(checks: seq<Option<EntryCheck>>, k: nat, f: Finding)
    requires k < |checks| && ReportsMissing(checks[k], f)
    ensures f in ExpectedErrors(checks)
    decreases |checks|
  {
    var init := checks[..|checks| - 1];
    if k < |checks| - 1 {
      assert init[k] == checks[k];
      UndocumentedUsesAreErrors(init, k, f);
    } else {
      var c := checks[k].value;
      FindingsHas(c.at, MissingNames(c.actual, c.documented, c.ignore), f.name);
    }
  }

  /**
   * Documented names that the code does not use and that are not ignored never change the
   * errors, so they never decide whether the run fails.
   */
  lemma UnusedDocumentationIsHarmless(actual: set<string>, documented: seq<string>, extra: seq<string>, ignore: set<string>)
    requires forall d | d in extra :: d !in actual
    ensures MissingNames(actual, documented + extra, ignore) == MissingNames(actual, documented, ignore)
  {
  }

  /**
   * There are errors, and so the run fails, exactly when some checked entry uses a class
   * it neither documents nor ignores.
   */
  lemma ErrorsIffSomeUndocumentedUse(checks: seq<Option<EntryCheck>>)
    ensures ExpectedErrors(checks) != multiset{} <==> exists k, f | 0 <= k < |checks| :: ReportsMissing(checks[k], f)
  {
    if ExpectedErrors(checks) != multiset{} {
      var f :| f in ExpectedErrors(checks);
      ErrorsAreUndocumentedUses(checks, f);
    }
    if exists k, f | 0 <= k < |checks| :: ReportsMissing(checks[k], f) {
      var k, f :| 0 <= k < |checks| && ReportsMissing(checks[k], f);
      UndocumentedUsesAreErrors(checks, k, f);
    }
  }
}
