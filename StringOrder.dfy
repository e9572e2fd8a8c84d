/**
 * The natural order of Java strings (`String.compareTo`) and sorting by it: the in-place sort
 * of a list (`List.sort(Comparator.naturalOrder())`) and the sorted listing of a set.
 */
module StringOrder {

  /**
   * `a.compareTo(b)`: the difference of the first differing characters, or of the lengths
   * when one string is a prefix of the other. It is zero exactly for equal strings.
   */
  function CompareTo(a: string, b: string): (r: int)
    ensures r == 0 <==> a == b
    decreases |a|
  {
    if a == [] || b == [] then |a| - |b|
    else if a[0] != b[0] then a[0] as int - b[0] as int
    else CompareTo(a[1..], b[1..])
  }

  /** `a` comes no later than `b`: lexicographic by character, a prefix before its extensions. */
  predicate Le(a: string, b: string)
    decreases |a|
  {
    a == [] || (b != [] && (a[0] < b[0] || (a[0] == b[0] && Le(a[1..], b[1..]))))
  }

  /** `Le` is exactly `compareTo(a, b) <= 0`. */
  lemma {:induction false} CompareToLe(a: string, b: string)
    ensures CompareTo(a, b) <= 0 <==> Le(a, b)
    decreases |a|
  {
    if a != [] && b != [] && a[0] == b[0] {
      CompareToLe(a[1..], b[1..]);
    }
  }

  lemma {:induction false} LeReflexive(a: string)
    ensures Le(a, a)
    decreases |a|
  {
    if a != [] {
      LeReflexive(a[1..]);
    }
  }

  lemma {:induction false} LeTotal(a: string, b: string)
    ensures Le(a, b) || Le(b, a)
    decreases |a|
  {
    if a != [] && b != [] && a[0] == b[0] {
      LeTotal(a[1..], b[1..]);
    }
  }

  lemma {:induction false} LeAntisymmetric(a: string, b: string)
    requires Le(a, b) && Le(b, a)
    ensures a == b
    decreases |a|
  {
    if a != [] {
      LeAntisymmetric(a[1..], b[1..]);
      assert a == [a[0]] + a[1..] && b == [b[0]] + b[1..];
    }
  }

  lemma {:induction false} LeTransitive(a: string, b: string, c: string)
    requires Le(a, b) && Le(b, c)
    ensures Le(a, c)
    decreases |a|
  {
    if a != [] && b != [] && c != [] && a[0] == b[0] == c[0] {
      LeTransitive(a[1..], b[1..], c[1..]);
    }
  }

  /** Ascending order: every element is `Le` every later one. */
  predicate Sorted(xs: seq<string>) {
    forall i, j | 0 <= i < j < |xs| :: Le(xs[i], xs[j])
  }

  /** Each value at most once. */
  predicate Distinct(xs: seq<string>) {
    forall i, j | 0 <= i < j < |xs| :: xs[i] != xs[j]
  }

  // ===========================================================================
  // The sorted listing of a set
  // ===========================================================================

  /** The least element of a non-empty set. */
  ghost function Least(s: set<string>): (m: string)
    requires s != {}
    ensures m in s && forall x | x in s :: Le(m, x)
    decreases |s|
  {
    var x :| x in s;
    if s == {x} then LeReflexive(x); x
    else
      var rest := Least(s - {x});
      LeTotal(x, rest);
      if Le(x, rest) then
        assert forall y | y in s - {x} :: Le(x, y) by {
          forall y | y in s - {x}
            ensures Le(x, y)
          {
            LeTransitive(x, rest, y);
          }
        }
        LeReflexive(x);
        x
      else rest
  }

  /** The elements of a set in ascending order: what sorting any listing of the set gives. */
  ghost function SortedListing(s: set<string>): (xs: seq<string>)
    ensures |xs| == |s|
    ensures forall x :: x in xs <==> x in s
    ensures Sorted(xs) && Distinct(xs)
    decreases |s|
  {
    if s == {} then []
    else
      var m := Least(s);
      var rest := SortedListing(s - {m});
      LeastFirst(m, rest);
      [m] + rest
  }

  /** An element below all of a sorted, distinct listing, and not in it, extends it at the front. */
  lemma LeastFirst(m: string, rest: seq<string>)
    requires Sorted(rest) && Distinct(rest)
    requires forall x | x in rest :: Le(m, x) && x != m
    ensures Sorted([m] + rest) && Distinct([m] + rest)
  {
    var xs := [m] + rest;
    forall i, j | 0 <= i < j < |xs|
      ensures Le(xs[i], xs[j]) && xs[i] != xs[j]
    {
      assert xs[j] == rest[j - 1] && rest[j - 1] in rest;
      if i > 0 {
        assert xs[i] == rest[i - 1];
      }
    }
  }

  lemma MultisetOfSetRemove(s: set<string>, m: string)
    requires m in s
    ensures multiset(s - {m}) == multiset(s) - multiset{m}
  {
    assert forall x :: multiset(s - {m})[x] == (multiset(s) - multiset{m})[x];
  }

  /** A sorted listing of a set, each element once, is the sorted listing: sorting is determined. */
  lemma {:induction false} SortedListingUnique(xs: seq<string>, s: set<string>)
    requires Sorted(xs) && multiset(xs) == multiset(s)
    ensures xs == SortedListing(s)
    decreases |s|
  {
    if s != {} {
      var m := Least(s);
      assert |xs| == |multiset(s)| > 0;
      assert xs[0] in multiset(s);
      assert m in multiset(xs);
      var k :| 0 <= k < |xs| && xs[k] == m;
      if k > 0 {
        assert Le(xs[0], xs[k]);
      } else {
        LeReflexive(m);
      }
      LeAntisymmetric(xs[0], m);
      assert xs == [m] + xs[1..];
      MultisetOfSetRemove(s, m);
      assert multiset(xs[1..]) == multiset(s - {m});
      SortedListingUnique(xs[1..], s - {m});
    } else {
      assert |xs| == |multiset(s)| == 0;
    }
  }

  // ===========================================================================
  // List.sort(Comparator.naturalOrder()) on an array list
  // ===========================================================================

  /** Insertion sort: the array ends up ascending and holds the same values. */
  method SortInPlace(a: array<string>)
    modifies a
    ensures Sorted(a[..])
    ensures multiset(a[..]) == multiset(old(a[..]))
  {
    var i := 0;
    while i < a.Length
      invariant i <= a.Length
      invariant forall m, n | 0 <= m < n < i :: Le(a[m], a[n])
      invariant multiset(a[..]) == multiset(old(a[..]))
    {
      Insert(a, i);
      i := i + 1;
    }
  }

  /** Moves `a[i]` left into the sorted prefix `a[..i]`, leaving `a[..i + 1]` sorted. */
  method Insert(a: array<string>, i: nat)
    requires i < a.Length
    requires forall m, n | 0 <= m < n < i :: Le(a[m], a[n])
    modifies a
    ensures forall m, n | 0 <= m < n <= i :: Le(a[m], a[n])
    ensures multiset(a[..]) == multiset(old(a[..]))
  {
    var j := i;
    while j > 0 && !Le(a[j - 1], a[j])
      invariant 0 <= j <= i
      invariant forall m, n | 0 <= m < n <= i && m != j && n != j :: Le(a[m], a[n])
      invariant forall n | j < n <= i :: Le(a[j], a[n])
      invariant multiset(a[..]) == multiset(old(a[..]))
    {
      LeTotal(a[j - 1], a[j]);
      a[j - 1], a[j] := a[j], a[j - 1];
      j := j - 1;
    }
    if j > 0 {
      forall m | 0 <= m < j
        ensures Le(a[m], a[j])
      {
        if m < j - 1 {
          LeTransitive(a[m], a[j - 1], a[j]);
        }
      }
    }
  }

  /** Copying one more element of the set extends the copied multiset by that element. */
  lemma ListStep(s: set<string>, rest: set<string>, x: string, before: seq<string>, after: seq<string>)
    requires x in rest && rest <= s && multiset(before) == multiset(s - rest) && after == before + [x]
    ensures multiset(after) == multiset(s - (rest - {x}))
  {
    assert s - (rest - {x}) == (s - rest) + {x};
    assert multiset((s - rest) + {x}) == multiset(s - rest) + multiset{x};
  }

  /** `new ArrayList<>(set)`: the set's elements, each once, in an order the set chooses. */
  method ListOfSet(s: set<string>) returns (a: array<string>)
    ensures fresh(a) && multiset(a[..]) == multiset(s)
  {
    a := new string[|s|](_ => "");
    var remaining := s;
    var k := 0;
    while remaining != {}
      invariant remaining <= s && k + |remaining| == |s|
      invariant multiset(a[..k]) == multiset(s - remaining)
      modifies a
      decreases |remaining|
    {
      var x :| x in remaining;
      ghost var before, rest := a[..k], remaining;
      a[k] := x;
      remaining := remaining - {x};
      k := k + 1;
      assert a[..k] == before + [x];
      ListStep(s, rest, x, before, a[..k]);
    }
    assert a[..k] == a[..];
  }
}
