/**
 * `FilterDefinition`: a filter over entries read from a YAML scaffolding file. A filter with
 * sub-filters matches when any of them does; otherwise it matches when every criterion that is
 * set holds. `fromMap` builds a filter from the parsed YAML map.
 */
module FilterDefinitions {
  import opened Wrappers
  import opened JavaString
  import opened AIContextEntries

  /**
   * A filter: the level name, the tag type and a content fragment (each `null` when not set),
   * and the `or` list of sub-filters.
   */
  datatype FilterDefinition = FilterDefinition(
    level: Option<string>,
    tagType: Option<string>,
    content: Option<string>,
    orFilters: seq<FilterDefinition>)

  /** `Level.name()`. */
  function LevelName(l: Level): string {
    match l
    case ARCHITECTURAL => "ARCHITECTURAL"
    case IMPLEMENTATION => "IMPLEMENTATION"
  }

  // ===========================================================================
  // matches
  // ===========================================================================

  /**
   * `matches`: with a non-empty `or` list, whether any sub-filter matches; otherwise the level
   * name and the type must be equal when set, and the lower-cased content must contain the
   * lower-cased fragment when set. A filter with nothing set matches every entry.
   */
  predicate Matches(f: FilterDefinition, e: AIContextEntry)
    ensures f == FilterDefinition(None, None, None, []) ==> Matches(f, e)
    decreases f, |f.orFilters| + 1
  {
    if f.orFilters != [] then AnyMatch(f, 0, e)
    else if f.level.Some? && f.level.value != LevelName(e.level) then false
    else if f.tagType.Some? && f.tagType.value != e.tagType then false
    else if f.content.Some? && !Contains(ToLower(e.content), ToLower(f.content.value)) then false
    else true
  }

  /** `or.stream().anyMatch(...)` over the sub-filters from index `i` on. */
  predicate AnyMatch(f: FilterDefinition, i: nat, e: AIContextEntry)
    requires i <= |f.orFilters|
    decreases f, |f.orFilters| - i
  {
    i < |f.orFilters| && (Matches(f.orFilters[i], e) || AnyMatch(f, i + 1, e))
  }

  lemma {:induction false} AnyMatchSome(f: FilterDefinition, i: nat, e: AIContextEntry)
    requires i <= |f.orFilters|
    ensures AnyMatch(f, i, e) <==> exists k | i <= k < |f.orFilters| :: Matches(f.orFilters[k], e)
    decreases |f.orFilters| - i
  {
    if i < |f.orFilters| {
      AnyMatchSome(f, i + 1, e);
      if Matches(f.orFilters[i], e) {
        assert i <= i < |f.orFilters|;
      }
    }
  }

  /** With a non-empty `or` list, a filter matches exactly when some sub-filter matches. */
  lemma OrMatchesIffSomeMatches(f: FilterDefinition, e: AIContextEntry)
    requires f.orFilters != []
    ensures Matches(f, e) <==> exists g | g in f.orFilters :: Matches(g, e)
  {
    AnyMatchSome(f, 0, e);
    if exists g | g in f.orFilters :: Matches(g, e) {
      var g :| g in f.orFilters && Matches(g, e);
      var k :| 0 <= k < |f.orFilters| && f.orFilters[k] == g;
    }
  }

  /** Once there are sub-filters, the filter's own level, type and content play no part. */
  lemma OrIgnoresOwnCriteria(f: FilterDefinition, e: AIContextEntry, level: Option<string>, tagType: Option<string>, content: Option<string>)
    requires f.orFilters != []
    ensures Matches(f, e) == Matches(FilterDefinition(level, tagType, content, f.orFilters), e)
  {
    var g := FilterDefinition(level, tagType, content, f.orFilters);
    AnyMatchSome(f, 0, e);
    AnyMatchSome(g, 0, e);
  }

  /** Without sub-filters a filter matches exactly when each criterion that is set holds. */
  lemma CriteriaMatch(f: FilterDefinition, e: AIContextEntry)
    requires f.orFilters == []
    ensures Matches(f, e) <==>
      (f.level.None? || f.level.value == LevelName(e.level))
      && (f.tagType.None? || f.tagType.value == e.tagType)
      && (f.content.None? || Contains(ToLower(e.content), ToLower(f.content.value)))
  {
  }

  // ---------------------------------------------------------------------------
  // The content criterion ignores case
  // ---------------------------------------------------------------------------

  lemma ToLowerIdempotent(s: string)
    ensures ToLower(ToLower(s)) == ToLower(s)
  {
  }

  /** Lower-casing both sides keeps an occurrence where it was. */
  lemma ContainsLower(s: string, sub: string)
    requires Contains(s, sub)
    ensures Contains(ToLower(s), ToLower(sub))
  {
    var i :| 0 <= i <= |s| - |sub| && OccursAt(s, sub, i);
    forall k | 0 <= k < |sub|
      ensures ToLower(s)[i + k] == ToLower(sub)[k]
    {
      assert s[i + k] == s[i..i + |sub|][k];
    }
    assert ToLower(s)[i..i + |sub|] == ToLower(sub);
    assert OccursAt(ToLower(s), ToLower(sub), i);
  }

  /** A fragment written in any case selects the same entries as its lower-case form. */
  lemma ContentCaseInsensitive(f: FilterDefinition, e: AIContextEntry, fragment: string)
    requires f.orFilters == [] && f.content == Some(fragment)
    ensures Matches(f, e) == Matches(f.(content := Some(ToLower(fragment))), e)
  {
    ToLowerIdempotent(fragment);
  }

  /** An entry whose content holds the fragment verbatim passes the content criterion. */
  lemma VerbatimContentMatches(f: FilterDefinition, e: AIContextEntry)
    requires f.orFilters == [] && f.level.None? && f.tagType.None? && f.content.Some?
    requires Contains(e.content, f.content.value)
    ensures Matches(f, e)
  {
    ContainsLower(e.content, f.content.value);
  }

  // ===========================================================================
  // fromMap
  // ===========================================================================

  /** A value of the parsed YAML document. */
  datatype YamlValue =
    | YMap(entries: map<string, YamlValue>)
    | YList(items: seq<YamlValue>)
    | YString(text: string)
    | YNull
    | YScalar(literal: string)   // numbers, booleans and other non-string scalars

  /** `map.get(key)`: `null` when the key is absent. */
  function Get(m: map<string, YamlValue>, key: string): Option<YamlValue> {
    if key in m then Some(m[key]) else None
  }

  /**
   * `(String) value`: `null` stays `null`, a string is kept, anything else throws a
   * `ClassCastException` (the outer `None`).
   */
  function CastToString(v: Option<YamlValue>): (r: Option<Option<string>>)
    ensures r.None? <==> v.Some? && !v.value.YNull? && !v.value.YString?
  {
    match v
    case None => Some(None)
    case Some(YNull) => Some(None)
    case Some(YString(s)) => Some(Some(s))
    case Some(_) => None
  }

  /**
   * What `fromMap` returns for a map value, `None` when a cast throws. A list under `or`
   * contributes one sub-filter per map element; any other value under `or` is ignored.
   */
  function FilterOf(v: YamlValue): Option<FilterDefinition>
    requires v.YMap?
    decreases v, 0
  {
    var m := v.entries;
    var level := CastToString(Get(m, "level"));
    var tagType := CastToString(Get(m, "type"));
    var content := CastToString(Get(m, "content"));
    if level.None? || tagType.None? || content.None? then None
    else
      var subs := if "or" in m && m["or"].YList? then SubFilters(m["or"], |m["or"].items|) else Some([]);
      if subs.None? then None
      else Some(FilterDefinition(level.value, tagType.value, content.value, subs.value))
  }

  /** The sub-filters built from the first `n` elements of the `or` list. */
  function SubFilters(list: YamlValue, n: nat): Option<seq<FilterDefinition>>
    requires list.YList? && n <= |list.items|
    decreases list, n
  {
    if n == 0 then Some([])
    else
      var before := SubFilters(list, n - 1);
      var item := list.items[n - 1];
      if before.None? then None
      else if !item.YMap? then before
      else
        var sub := FilterOf(item);
        if sub.None? then None else Some(before.value + [sub.value])
  }

  /** `fromMap`: sets the three criteria, then appends one sub-filter per map in the `or` list. */
  method FromMap(m: map<string, YamlValue>) returns (filter: Option<FilterDefinition>)
    ensures filter == FilterOf(YMap(m))
    decreases YMap(m)
  {
    var level := CastToString(Get(m, "level"));
    var tagType := CastToString(Get(m, "type"));
    var content := CastToString(Get(m, "content"));
    if level.None? || tagType.None? || content.None? {
      return None;
    }
    var orFilters: seq<FilterDefinition> := [];
    if "or" in m && m["or"].YList? {
      var list := m["or"];
      var i := 0;
      while i < |list.items|
        invariant i <= |list.items|
        invariant SubFilters(list, i) == Some(orFilters)
      {
        var item := list.items[i];
        if item.YMap? {
          assert item in list.items;
          var sub := FromMap(item.entries);
          if sub.None? {
            SubFiltersFailed(list, i + 1, |list.items|);
            return None;
          }
          orFilters := orFilters + [sub.value];
        }
        i := i + 1;
      }
    }
    filter := Some(FilterDefinition(level.value, tagType.value, content.value, orFilters));
  }

  /** Once building a sub-filter has thrown, the whole list throws. */
  lemma {:induction false} SubFiltersFailed(list: YamlValue, i: nat, n: nat)
    requires list.YList? && i <= n <= |list.items| && SubFilters(list, i).None?
    ensures SubFilters(list, n).None?
    decreases n
  {
    if n > i {
      SubFiltersFailed(list, i, n - 1);
    }
  }

  // ---------------------------------------------------------------------------
  // What fromMap keeps
  // ---------------------------------------------------------------------------

  /** The map elements of a list, in order: the elements `fromMap` turns into sub-filters. */
  function MapItems(items: seq<YamlValue>): (r: seq<YamlValue>)
    ensures forall j | 0 <= j < |r| :: r[j].YMap? && r[j] in items
    decreases |items|
  {
    if items == [] then []
    else MapItems(items[..|items| - 1]) + (if items[|items| - 1].YMap? then [items[|items| - 1]] else [])
  }

  /**
   * Built sub-filters correspond one to one, in order, to the map elements of the list:
   * other elements are skipped.
   */
  lemma {:induction false} SubFiltersOfMapItems(list: YamlValue, n: nat)
    requires list.YList? && n <= |list.items|
    requires SubFilters(list, n).Some?
    ensures var fs := SubFilters(list, n).value;
      var ms := MapItems(list.items[..n]);
      |fs| == |ms| && forall j | 0 <= j < |fs| :: FilterOf(ms[j]) == Some(fs[j])
    decreases n
  {
    if n > 0 {
      SubFiltersOfMapItems(list, n - 1);
      assert list.items[..n][..n - 1] == list.items[..n - 1];
    }
  }

  /** The sub-filters `fromMap` keeps are exactly those built from the map elements of `or`. */
  lemma FromMapKeepsMapItems(m: map<string, YamlValue>)
    requires FilterOf(YMap(m)).Some?
    ensures var f := FilterOf(YMap(m)).value;
      var ms := if "or" in m && m["or"].YList? then MapItems(m["or"].items) else [];
      |f.orFilters| == |ms| && forall j | 0 <= j < |ms| :: FilterOf(ms[j]) == Some(f.orFilters[j])
  {
    if "or" in m && m["or"].YList? {
      var list := m["or"];
      SubFiltersOfMapItems(list, |list.items|);
      assert list.items[..|list.items|] == list.items;
    }
  }

  /** A scalar under `level`, `type` or `content` makes `fromMap` throw. */
  lemma ScalarCriterionThrows(m: map<string, YamlValue>, key: string)
    requires key in {"level", "type", "content"} && key in m && m[key].YScalar?
    ensures FilterOf(YMap(m)).None?
  {
  }

  // ---------------------------------------------------------------------------
  // Round trip: a filter written as YAML reads back as itself
  // ---------------------------------------------------------------------------

  function StringValue(s: Option<string>): YamlValue {
    if s.Some? then YString(s.value) else YNull
  }

  /** The YAML map a filter is written as: the three criteria and the `or` list. */
  function ToYaml(f: FilterDefinition): (v: YamlValue)
    ensures v.YMap?
    decreases f, 1
  {
    YMap(map["level" := StringValue(f.level), "type" := StringValue(f.tagType),
             "content" := StringValue(f.content), "or" := YList(ToYamlList(f, |f.orFilters|))])
  }

  /** The first `n` sub-filters of `f`, written as YAML maps. */
  function ToYamlList(f: FilterDefinition, n: nat): (items: seq<YamlValue>)
    requires n <= |f.orFilters|
    ensures |items| == n
    ensures forall j | 0 <= j < n :: items[j] == ToYaml(f.orFilters[j])
    decreases f, 0, n
  {
    if n == 0 then [] else ToYamlList(f, n - 1) + [ToYaml(f.orFilters[n - 1])]
  }

  /** One more map item read by the `or` loop adds its filter to those read before. */
  lemma SubFiltersStep(list: YamlValue, m: nat, n: nat, before: seq<FilterDefinition>, sub: FilterDefinition)
    requires list.YList? && n == m + 1 && n <= |list.items|
    requires SubFilters(list, m) == Some(before)
    requires list.items[m].YMap? && FilterOf(list.items[m]) == Some(sub)
    ensures SubFilters(list, n) == Some(before + [sub])
  {
  }

  lemma TakeOneMore<T>(xs: seq<T>, m: nat, n: nat)
    requires n == m + 1 && n <= |xs|
    ensures xs[..n] == xs[..m] + [xs[m]]
  {
  }

  /** `fromMap` reads a filter written as YAML back unchanged. */
  lemma {:induction false} FromMapRoundTrip(f: FilterDefinition)
    ensures FilterOf(ToYaml(f)) == Some(f)
    decreases f, 1
  {
    var list := YList(ToYamlList(f, |f.orFilters|));
    assert ToYaml(f).entries["or"] == list;
    SubFiltersRoundTrip(f, list, |f.orFilters|);
    assert f.orFilters[..|f.orFilters|] == f.orFilters;
    assert f.level.Some? ==> CastToString(Get(ToYaml(f).entries, "level")) == Some(f.level);
  }

  lemma {:induction false} SubFiltersRoundTrip(f: FilterDefinition, list: YamlValue, n: nat)
    requires list == YList(ToYamlList(f, |f.orFilters|)) && n <= |f.orFilters|
    ensures SubFilters(list, n) == Some(f.orFilters[..n])
    decreases f, 0, n
  {
    if n > 0 {
      var m := n - 1;
      var sub := f.orFilters[m];
      SubFiltersRoundTrip(f, list, m);
      assert list.items[m] == ToYaml(sub);
      FromMapRoundTrip(sub);
      SubFiltersStep(list, m, n, f.orFilters[..m], sub);
      TakeOneMore(f.orFilters, m, n);
    }
  }
}
