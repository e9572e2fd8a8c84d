/**
 * The string helpers of `AIContextMojo` used when one file is generated per entry:
 * `truncate`, `locationToSlug`, `substituteEntryFilename`, `extractLocationComponents`,
 * and the per-key counter (`indexByKey`) that numbers entries sharing a type and a slug.
 */
module MojoHelpers {
  import opened Wrappers
  import opened JavaString
  import opened AIContextEntries

  // ===========================================================================
  // truncate
  // ===========================================================================

  /** `truncate`: `""` for null, short text unchanged, else the first `maxLength` characters and `...`. */
  function Truncate(text: Option<string>, maxLength: nat): (r: string)
    ensures text.None? ==> r == ""
    ensures text.Some? && |text.value| <= maxLength ==> r == text.value
    ensures text.Some? && |text.value| > maxLength ==>
              |r| == maxLength + 3 && r[..maxLength] == text.value[..maxLength] && EndsWith(r, "...")
  {
    match text
    case None => ""
    case Some(t) => if |t| <= maxLength then t else t[..maxLength] + "..."
  }

  /** The result is never longer than `maxLength + 3`, so truncating it again with that bound keeps it. */
  lemma TruncateAgain(text: Option<string>, maxLength: nat)
    ensures |Truncate(text, maxLength)| <= maxLength + 3
    ensures Truncate(Some(Truncate(text, maxLength)), maxLength + 3) == Truncate(text, maxLength)
  {
  }

  // ===========================================================================
  // locationToSlug
  // ===========================================================================

  /** The characters a slug keeps: `[a-zA-Z0-9_-]`. */
  predicate IsSlugChar(c: char) {
    IsAsciiUpper(c) || IsAsciiLower(c) || IsAsciiDigit(c) || c == '_' || c == '-'
  }

  predicate IsSlug(s: string) {
    forall i | 0 <= i < |s| :: IsSlugChar(s[i])
  }

  /** `replaceAll("[^a-zA-Z0-9_-]", "")`: drop every character outside the slug alphabet. */
  function KeepSlugChars(s: string): (r: string)
    ensures IsSlug(r) && |r| <= |s|
    decreases |s|
  {
    if s == [] then []
    else KeepSlugChars(s[..|s| - 1]) + (if IsSlugChar(s[|s| - 1]) then [s[|s| - 1]] else [])
  }

  lemma {:induction false} KeepSlugCharsOfSlug(s: string)
    requires IsSlug(s)
    ensures KeepSlugChars(s) == s
    decreases |s|
  {
    if s != [] {
      KeepSlugCharsOfSlug(s[..|s| - 1]);
    }
  }

  /**
   * `locationToSlug`: `""` for null; otherwise dots and spaces become dashes, `()` is
   * removed, and every remaining character outside `[a-zA-Z0-9_-]` is dropped.
   */
  function LocationToSlug(location: Option<string>): (r: string)
    ensures IsSlug(r)
    ensures location.None? ==> r == ""
  {
    match location
    case None => ""
    case Some(l) => KeepSlugChars(Replace(Replace(Replace(l, ".", "-"), "()", ""), " ", "-"))
  }

  /** Replacing a one-character target replaces that character everywhere. */
  lemma {:induction false} ReplaceChar(s: string, c: char, d: char)
    ensures Replace(s, [c], [d]) == MapChar(s, c, d)
    decreases |s|
  {
    if |s| >= 1 {
      ReplaceChar(s[1..], c, d);
      assert MapChar(s, c, d) == MapChar(s[..1], c, d) + MapChar(s[1..], c, d);
    }
  }

  /** `s` with every `c` changed to `d`. */
  function MapChar(s: string, c: char, d: char): (r: string)
    ensures |r| == |s| && forall i | 0 <= i < |s| :: r[i] == if s[i] == c then d else s[i]
  {
    seq(|s|, i requires 0 <= i < |s| => if s[i] == c then d else s[i])
  }

  lemma NoCharNoOccurrence(s: string, c: char, target: string)
    requires |target| > 0 && target[0] == c && c !in s
    ensures !Contains(s, target)
  {
  }

  /**
   * A dotted name made of slug characters becomes its slug with each `.` turned into `-`:
   * `com.example.Foo` gives `com-example-Foo`.
   */
  lemma DottedNameSlug(name: string)
    requires forall i | 0 <= i < |name| :: IsSlugChar(name[i]) || name[i] == '.'
    ensures LocationToSlug(Some(name)) == MapChar(name, '.', '-')
  {
    var dashed := Replace(name, ".", "-");
    ReplaceChar(name, '.', '-');
    assert '(' !in dashed && ' ' !in dashed by {
      forall i | 0 <= i < |dashed|
        ensures IsSlugChar(dashed[i])
      {
      }
    }
    NoCharNoOccurrence(dashed, '(', "()");
    ReplaceAbsent(dashed, "()", "");
    NoCharNoOccurrence(dashed, ' ', " ");
    ReplaceAbsent(dashed, " ", "-");
    KeepSlugCharsOfSlug(dashed);
  }

  /** A slug is its own slug. */
  lemma SlugIdempotent(location: Option<string>)
    ensures LocationToSlug(Some(LocationToSlug(location))) == LocationToSlug(location)
  {
    var s := LocationToSlug(location);
    DottedNameSlug(s);
    assert MapChar(s, '.', '-') == s;
  }

  // ===========================================================================
  // substituteEntryFilename
  // ===========================================================================

  /**
   * `substituteEntryFilename`. Without a pattern: `<type>-<slug>.md`, with `-<index>` before
   * `.md` when the index is above one. With a pattern: its `{{type}}`, `{{locationSlug}}` and
   * `{{index}}` placeholders are filled in, and when the index is above one and the result
   * ends with `.md`, `-<index>` is inserted before that extension.
   */
  function SubstituteEntryFilename(pattern: Option<string>, tagType: string, locationSlug: string, index: int): (r: string)
    ensures pattern.None? ==> StartsWith(r, tagType + "-" + locationSlug) && EndsWith(r, ".md")
    ensures pattern.None? && index <= 1 ==> r == tagType + "-" + locationSlug + ".md"
  {
    match pattern
    case None => tagType + "-" + locationSlug + IndexSuffix(index) + ".md"
    case Some(p) =>
      var s := Replace(Replace(Replace(p, "{{type}}", tagType), "{{locationSlug}}", locationSlug),
                       "{{index}}", IntToString(index));
      if index > 1 && EndsWith(s, ".md") then s[..|s| - 3] + IndexSuffix(index) + ".md" else s
  }

  /** `-<index>` for an index above one, nothing otherwise. */
  function IndexSuffix(index: int): string {
    if index > 1 then "-" + IntToString(index) else ""
  }

  /** Different positive numbers have different decimal forms. */
  lemma {:induction false} NatToStringInjective(a: nat, b: nat)
    requires NatToString(a) == NatToString(b)
    ensures a == b
    decreases a
  {
    var sa := NatToString(a);
    assert sa[|sa| - 1] == '0' + (a % 10) as char;
    assert sa[|sa| - 1] == '0' + (b % 10) as char;
    if a >= 10 && b >= 10 {
      assert NatToString(a / 10) == sa[..|sa| - 1] == NatToString(b / 10);
      NatToStringInjective(a / 10, b / 10);
    }
  }

  /** Indices from one up give pairwise different suffixes. */
  lemma IndexSuffixInjective(base: string, i: int, j: int)
    requires 1 <= i && 1 <= j && i != j
    ensures base + IndexSuffix(i) + ".md" != base + IndexSuffix(j) + ".md"
  {
    var a := base + IndexSuffix(i) + ".md";
    var b := base + IndexSuffix(j) + ".md";
    if a == b {
      assert IndexSuffix(i) == a[|base|..|a| - 3] == IndexSuffix(j);
      if i > 1 && j > 1 {
        assert NatToString(i) == IndexSuffix(i)[1..];
        NatToStringInjective(i, j);
      }
    }
  }

  /** The default file names of entries with one type and slug differ for different indices. */
  lemma DefaultFilenamesDistinct(tagType: string, locationSlug: string, i: int, j: int)
    requires 1 <= i && 1 <= j && i != j
    ensures SubstituteEntryFilename(None, tagType, locationSlug, i)
            != SubstituteEntryFilename(None, tagType, locationSlug, j)
  {
    IndexSuffixInjective(tagType + "-" + locationSlug, i, j);
  }

  /**
   * With a pattern that ends in `.md` and does not use `{{index}}` once type and slug are
   * filled in, different indices still give different file names.
   */
  lemma PatternFilenamesDistinct(p: string, tagType: string, locationSlug: string, i: int, j: int)
    requires 1 <= i && 1 <= j && i != j
    requires EndsWith(Replace(Replace(p, "{{type}}", tagType), "{{locationSlug}}", locationSlug), ".md")
    requires !Contains(Replace(Replace(p, "{{type}}", tagType), "{{locationSlug}}", locationSlug), "{{index}}")
    ensures SubstituteEntryFilename(Some(p), tagType, locationSlug, i)
            != SubstituteEntryFilename(Some(p), tagType, locationSlug, j)
  {
    var s := Replace(Replace(p, "{{type}}", tagType), "{{locationSlug}}", locationSlug);
    ReplaceAbsent(s, "{{index}}", IntToString(i));
    ReplaceAbsent(s, "{{index}}", IntToString(j));
    var base := s[..|s| - 3];
    assert s == base + IndexSuffix(1) + ".md";
    IndexSuffixInjective(base, i, j);
  }

  // ===========================================================================
  // The indexByKey counter
  // ===========================================================================

  /** Entries are numbered per `<type>:<slug>` key. */
  function EntryKey(e: AIContextEntry): string {
    e.tagType + ":" + LocationToSlug(Some(e.location))
  }

  /** The keys of the entries, in order. */
  function EntryKeys(entries: seq<AIContextEntry>): (keys: seq<string>)
    ensures |keys| == |entries| && forall i | 0 <= i < |entries| :: keys[i] == EntryKey(entries[i])
  {
    seq(|entries|, i requires 0 <= i < |entries| => EntryKey(entries[i]))
  }

  /** How many of `keys` equal `key`. */
  function KeyCount(keys: seq<string>, key: string): (n: nat)
    ensures n <= |keys|
    decreases |keys|
  {
    if keys == [] then 0
    else KeyCount(keys[..|keys| - 1], key) + (if keys[|keys| - 1] == key then 1 else 0)
  }

  /** The index of the key at `i`: one more than the earlier occurrences of that key. */
  function KeyIndex(keys: seq<string>, i: nat): int
    requires i < |keys|
  {
    1 + KeyCount(keys[..i], keys[i])
  }

  /** The counts `indexByKey` holds after these keys: a key is present once it has occurred. */
  function KeyCounts(keys: seq<string>): (m: map<string, int>)
    decreases |keys|
  {
    if keys == [] then map[]
    else
      var m := KeyCounts(keys[..|keys| - 1]);
      var key := keys[|keys| - 1];
      m[key := if key in m then m[key] + 1 else 1]
  }

  /** The map holds exactly the occurrence count of every key that occurred. */
  lemma {:induction false} KeyCountsAgree(keys: seq<string>, key: string)
    ensures key in KeyCounts(keys) ==> KeyCounts(keys)[key] == KeyCount(keys, key)
    ensures key !in KeyCounts(keys) ==> KeyCount(keys, key) == 0
    decreases |keys|
  {
    if keys != [] {
      KeyCountsAgree(keys[..|keys| - 1], key);
    }
  }

  /**
   * The loop of `generateFilePerEntry` that computes each entry's index with
   * `indexByKey.merge(key, 1, Integer::sum)`.
   */
  method AssignIndices(entries: seq<AIContextEntry>) returns (indices: seq<int>)
    ensures |indices| == |entries|
    ensures forall i | 0 <= i < |entries| :: indices[i] == KeyIndex(EntryKeys(entries), i)
  {
    ghost var keys := EntryKeys(entries);
    var indexByKey: map<string, int> := map[];
    indices := [];
    var i := 0;
    while i < |entries|
      invariant i <= |entries| && |indices| == i
      invariant forall j | 0 <= j < i :: indices[j] == KeyIndex(keys, j)
      invariant indexByKey == KeyCounts(keys[..i])
    {
      ghost var current, before, counts := i, indices, indexByKey;
      var key := EntryKey(entries[i]);
      assert key == keys[current];
      var index := if key in indexByKey then indexByKey[key] + 1 else 1;
      indexByKey := indexByKey[key := index];
      indices := indices + [index];
      i := i + 1;
      IndicesStep(keys, current, i, before, indices, counts, index);
    }
  }

  /** One more entry read by the loop of `AssignIndices`: both invariants carry over. */
  lemma IndicesStep(keys: seq<string>, i: nat, next: nat, before: seq<int>, after: seq<int>,
                    counts: map<string, int>, index: int)
    requires i < |keys| && next == i + 1 && |before| == i
    requires forall j | 0 <= j < i :: before[j] == KeyIndex(keys, j)
    requires counts == KeyCounts(keys[..i])
    requires index == if keys[i] in counts then counts[keys[i]] + 1 else 1
    requires after == before + [index]
    ensures forall j | 0 <= j < next :: after[j] == KeyIndex(keys, j)
    ensures counts[keys[i] := index] == KeyCounts(keys[..next])
  {
    IndexStep(keys, i, next);
    forall j | 0 <= j < next
      ensures after[j] == KeyIndex(keys, j)
    {
      if j < i {
        assert after[j] == before[j];
      }
    }
  }

  lemma IndexStep(keys: seq<string>, i: nat, next: nat)
    requires i < |keys| && next == i + 1
    ensures KeyCounts(keys[..next])
            == KeyCounts(keys[..i])[keys[i] := if keys[i] in KeyCounts(keys[..i]) then KeyCounts(keys[..i])[keys[i]] + 1 else 1]
    ensures KeyIndex(keys, i) == if keys[i] in KeyCounts(keys[..i]) then KeyCounts(keys[..i])[keys[i]] + 1 else 1
  {
    assert keys[..next][..i] == keys[..i];
    KeyCountsAgree(keys[..i], keys[i]);
  }

  lemma KeyCountStep(keys: seq<string>, i: nat, key: string)
    requires i < |keys|
    ensures KeyCount(keys[..i + 1], key) == KeyCount(keys[..i], key) + (if keys[i] == key then 1 else 0)
  {
    assert keys[..i + 1][..i] == keys[..i];
  }

  /** Counting over a longer prefix never gives less. */
  lemma {:induction false} KeyCountGrows(keys: seq<string>, i: nat, j: nat, key: string)
    requires i <= j <= |keys|
    ensures KeyCount(keys[..i], key) <= KeyCount(keys[..j], key)
    decreases j - i
  {
    if i < j {
      KeyCountGrows(keys, i, j - 1, key);
      KeyCountStep(keys, j - 1, key);
    }
  }

  /** Two entries with one key get different indices, the later one the larger. */
  lemma SameKeyIncreasingIndex(keys: seq<string>, i: nat, j: nat)
    requires i < j < |keys| && keys[i] == keys[j]
    ensures KeyIndex(keys, i) < KeyIndex(keys, j)
  {
    KeyCountStep(keys, i, keys[i]);
    KeyCountGrows(keys, i + 1, j, keys[i]);
  }

  /** The first entry with a key gets index 1, so its default file name has no index suffix. */
  lemma FirstOfKeyIndexOne(keys: seq<string>, i: nat)
    requires i < |keys| && keys[i] !in keys[..i]
    ensures KeyIndex(keys, i) == 1
  {
    KeyCountNone(keys[..i], keys[i]);
  }

  lemma {:induction false} KeyCountNone(keys: seq<string>, key: string)
    requires key !in keys
    ensures KeyCount(keys, key) == 0
    decreases |keys|
  {
    if keys != [] {
      assert key !in keys[..|keys| - 1];
      KeyCountNone(keys[..|keys| - 1], key);
    }
  }

  /**
   * Entries sharing a type and a location slug get distinct default file names: the file
   * of one is never overwritten by another's.
   */
  lemma DefaultFilesDistinct(entries: seq<AIContextEntry>, i: nat, j: nat)
    requires i < j < |entries|
    requires entries[i].tagType == entries[j].tagType && entries[i].location == entries[j].location
    ensures SubstituteEntryFilename(None, entries[i].tagType, LocationToSlug(Some(entries[i].location)), KeyIndex(EntryKeys(entries), i))
            != SubstituteEntryFilename(None, entries[j].tagType, LocationToSlug(Some(entries[j].location)), KeyIndex(EntryKeys(entries), j))
  {
    var keys := EntryKeys(entries);
    SameKeyIncreasingIndex(keys, i, j);
    DefaultFilenamesDistinct(entries[i].tagType, LocationToSlug(Some(entries[i].location)),
                             KeyIndex(keys, i), KeyIndex(keys, j));
  }

  // ===========================================================================
  // extractLocationComponents
  // ===========================================================================

  /** The package, class and method names derived from a location. */
  datatype LocationComponents = LocationComponents(packageName: string, className: string, methodName: string)

  /**
   * `replaceAll("\\(\\)$", "")`: remove a `()` at the end, where `$` also matches just
   * before one final line terminator (`\r\n` counting as one).
   */
  function StripCallParens(s: string): (r: string)
    ensures |r| == |s| || |r| == |s| - 2
    ensures EndsWith(s, "()") ==> r == s[..|s| - 2]
    ensures |s| == 0 || (s[|s| - 1] != ')' && !IsLineTerminator(s[|s| - 1])) ==> r == s
  {
    var n := |s|;
    if EndsWith(s, "()") then s[..n - 2]
    else if n >= 3 && s[n - 3..n - 1] == "()" && IsLineTerminator(s[n - 1]) then s[..n - 3] + [s[n - 1]]
    else if n >= 4 && s[n - 4..n - 2] == "()" && s[n - 2..] == "\r\n" then s[..n - 4] + "\r\n"
    else s
  }

  /**
   * `split("\\.")`: the input itself when it has no dot, else the parts without trailing empty
   * ones. No part holds a dot, and there are never more parts than dots plus one.
   */
  function SplitDots(s: string): (parts: seq<string>)
    ensures '.' !in s ==> parts == [s]
    ensures |parts| <= multiset(s)['.'] + 1
    ensures forall i | 0 <= i < |parts| :: '.' !in parts[i]
  {
    if '.' !in s then [s] else DropTrailingEmpty(SplitOn(s, '.'))
  }

  function DropTrailingEmpty(parts: seq<string>): (r: seq<string>)
    ensures |r| <= |parts| && r == parts[..|r|]
    ensures |r| > 0 ==> r[|r| - 1] != ""
    decreases |parts|
  {
    if parts == [] || parts[|parts| - 1] != "" then parts else DropTrailingEmpty(parts[..|parts| - 1])
  }

  /** `Character.isUpperCase` on the first character; `None` when the part is empty (the call throws). */
  function StartsUpper(part: string): Option<bool> {
    if part == "" then None else Some(IsAsciiUpper(part[0]))
  }

  /**
   * `extractLocationComponents`. `None` stands for the exception thrown when the
   * second-to-last dotted part is empty (`a..b`, `.b`).
   */
  function ExtractLocationComponents(location: Option<string>): (r: Option<LocationComponents>)
    ensures location.None? || location == Some("") ==> r == Some(LocationComponents("", "", ""))
    ensures r.Some? ==> r.value.className != "" || location.None? || location == Some("")
  {
    if location.None? || location.value == "" then Some(LocationComponents("", "", ""))
    else
      var l := location.value;
      var parts := SplitDots(StripCallParens(l));
      var n := |parts|;
      if n >= 2 then
        var lastName := parts[n - 1];
        var secondLast := parts[n - 2];
        match StartsUpper(secondLast)
        case None => None
        case Some(true) => Some(LocationComponents(Join(parts[..n - 2], "."), secondLast, lastName))
        case Some(false) => Some(LocationComponents(Join(parts[..n - 1], "."), lastName, ""))
      else
        Some(LocationComponents("", l, ""))
  }

  /** A name that can be a part of a dotted location: non-empty, without dots. */
  predicate IsPart(p: string) {
    p != "" && '.' !in p
  }

  lemma DropTrailingEmptyKeeps(parts: seq<string>)
    requires |parts| > 0 && parts[|parts| - 1] != ""
    ensures DropTrailingEmpty(parts) == parts
  {
  }

  lemma SplitDotsOfJoin(parts: seq<string>)
    requires |parts| >= 2 && forall i | 0 <= i < |parts| :: IsPart(parts[i])
    ensures SplitDots(Join(parts, ".")) == parts
  {
    var s := Join(parts, ".");
    assert s == parts[0] + "." + Join(parts[1..], ".");
    assert s[|parts[0]|] == '.';
    SplitOnJoin(parts, '.');
    DropTrailingEmptyKeeps(parts);
  }

  /** A `()` suffix is removed and nothing else changes when the text ends in a plain character. */
  lemma StripParensAfter(text: string, parens: bool)
    requires |text| > 0 && text[|text| - 1] != ')' && !IsLineTerminator(text[|text| - 1])
    ensures StripCallParens(text + (if parens then "()" else "")) == text
  {
    var l := text + (if parens then "()" else "");
    if parens {
      assert EndsWith(l, "()") && l[..|l| - 2] == text;
    }
  }

  lemma AllParts(pkg: seq<string>, tail: seq<string>)
    requires forall i | 0 <= i < |pkg| :: IsPart(pkg[i])
    requires forall i | 0 <= i < |tail| :: IsPart(tail[i])
    ensures forall i | 0 <= i < |pkg + tail| :: IsPart((pkg + tail)[i])
  {
  }

  /** What `extractLocationComponents` makes of a location, given its dotted parts. */
  lemma ComponentsOfParts(l: string, parts: seq<string>)
    requires l != "" && SplitDots(StripCallParens(l)) == parts && |parts| >= 2
    requires parts[|parts| - 2] != ""
    ensures ExtractLocationComponents(Some(l))
            == if IsAsciiUpper(parts[|parts| - 2][0])
               then Some(LocationComponents(Join(parts[..|parts| - 2], "."), parts[|parts| - 2], parts[|parts| - 1]))
               else Some(LocationComponents(Join(parts[..|parts| - 1], "."), parts[|parts| - 1], ""))
  {
  }

  /**
   * `pkg.Class.method` (optionally written `method()`) splits into its package, class and
   * method, whatever the package.
   */
  lemma MethodLocation(pkg: seq<string>, cls: string, methodName: string, parens: bool)
    requires forall i | 0 <= i < |pkg| :: IsPart(pkg[i])
    requires IsPart(cls) && IsAsciiUpper(cls[0])
    requires IsPart(methodName) && methodName[|methodName| - 1] != ')' && !IsLineTerminator(methodName[|methodName| - 1])
    ensures ExtractLocationComponents(Some(Join(pkg + [cls, methodName], ".") + (if parens then "()" else "")))
            == Some(LocationComponents(Join(pkg, "."), cls, methodName))
  {
    var parts := pkg + [cls, methodName];
    var joined := Join(parts, ".");
    AllParts(pkg, [cls, methodName]);
    SplitDotsOfJoin(parts);
    JoinEndsWithLast(parts, ".");
    StripParensAfter(joined, parens);
    assert parts[..|parts| - 2] == pkg;
    ComponentsOfParts(joined + (if parens then "()" else ""), parts);
  }

  /**
   * `pkg.Class` splits into its package and class, with no method, when the package's
   * last part does not start with an upper-case letter.
   */
  lemma ClassLocation(pkg: seq<string>, cls: string)
    requires |pkg| > 0 && forall i | 0 <= i < |pkg| :: IsPart(pkg[i])
    requires StartsUpper(pkg[|pkg| - 1]) == Some(false)
    requires IsPart(cls) && cls[|cls| - 1] != ')' && !IsLineTerminator(cls[|cls| - 1])
    ensures ExtractLocationComponents(Some(Join(pkg + [cls], "."))) == Some(LocationComponents(Join(pkg, "."), cls, ""))
  {
    var parts := pkg + [cls];
    var joined := Join(parts, ".");
    AllParts(pkg, [cls]);
    SplitDotsOfJoin(parts);
    JoinEndsWithLast(parts, ".");
    StripParensAfter(joined, false);
    assert joined + "" == joined;
    assert parts[..|parts| - 1] == pkg;
    ComponentsOfParts(joined, parts);
  }

  /** A location without dots is all class name. */
  lemma UndottedLocation(l: string)
    requires l != "" && '.' !in l
    ensures ExtractLocationComponents(Some(l)) == Some(LocationComponents("", l, ""))
  {
  }
}
