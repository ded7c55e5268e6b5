/**
 * Go's `sort.Slice(s, less)`, written as an insertion sort over a sequence.
 *
 * `sort.Slice` promises a sorted permutation of its input; which one it picks
 * among elements that `less` cannot tell apart is unspecified. Every use in the
 * analyzer either orders elements that `less` separates (so the result is
 * unique, see `SortedUnique`) or only relies on sortedness and permutation.
 */
module Sorting {

  /** `less` is a strict partial order: irreflexive and transitive. */
  ghost predicate StrictOrder<T(!new)>(less: (T, T) -> bool) {
    && (forall x :: !less(x, x))
    && (forall x, y, z :: less(x, y) && less(y, z) ==> less(x, z))
  }

  /** No later element is `less` than an earlier one: what `sort.Slice` guarantees. */
  predicate SortedBy<T>(s: seq<T>, less: (T, T) -> bool) {
    forall i, j :: 0 <= i < j < |s| ==> !less(s[j], s[i])
  }

  /** Inserts `x` before the first element it is `less` than. */
  function Insert<T>(x: T, s: seq<T>, less: (T, T) -> bool): (r: seq<T>)
    ensures multiset(r) == multiset(s) + multiset{x}
    ensures |r| == |s| + 1
  {
    if s == [] then [x]
    else if less(x, s[0]) then [x] + s
    else
      assert s == [s[0]] + s[1..];
      [s[0]] + Insert(x, s[1..], less)
  }

  /** Insertion sort, taking the input's elements from left to right. */
  function InsertionSort<T>(s: seq<T>, less: (T, T) -> bool): (r: seq<T>)
    ensures multiset(r) == multiset(s)
    ensures |r| == |s|
  {
    if s == [] then []
    else
      assert s == s[..|s| - 1] + [s[|s| - 1]];
      Insert(s[|s| - 1], InsertionSort(s[..|s| - 1], less), less)
  }

  lemma {:induction false} InsertSorted<T(!new)>(x: T, s: seq<T>, less: (T, T) -> bool)
    requires StrictOrder(less) && SortedBy(s, less)
    ensures SortedBy(Insert(x, s, less), less)
  {
    if s != [] && !less(x, s[0]) {
      var tail := Insert(x, s[1..], less);
      InsertSorted(x, s[1..], less);
      forall y | y in tail ensures !less(y, s[0]) {
        assert y in multiset(tail);
        if y != x {
          assert y in multiset(s[1..]);
          var k :| 0 <= k < |s[1..]| && s[1..][k] == y;
          assert s[k + 1] == y;
        }
      }
    }
  }

  /** The insertion sort is a sorted permutation of its input. */
  lemma {:induction false} InsertionSortSorted<T(!new)>(s: seq<T>, less: (T, T) -> bool)
    requires StrictOrder(less)
    ensures SortedBy(InsertionSort(s, less), less)
    ensures multiset(InsertionSort(s, less)) == multiset(s)
  {
    if s != [] {
      InsertionSortSorted(s[..|s| - 1], less);
      InsertSorted(s[|s| - 1], InsertionSort(s[..|s| - 1], less), less);
    }
  }

  /** Under the same conditions, two non-empty sorted permutations start alike. */
  lemma SortedHeads<T(!new)>(s: seq<T>, t: seq<T>, less: (T, T) -> bool)
    requires StrictOrder(less)
    requires SortedBy(s, less) && SortedBy(t, less)
    requires multiset(s) == multiset(t) && s != []
    requires forall x, y :: x in s && y in s && x != y ==> less(x, y) || less(y, x)
    ensures t != [] && s[0] == t[0]
  {
    assert s[0] in multiset(t);
    assert t != [] && t[0] in multiset(s);
  }

  /**
   * When `less` separates any two different elements, a sorted permutation is
   * unique: two sorted sequences with the same elements are equal.
   */
  lemma {:induction false} SortedUnique<T(!new)>(s: seq<T>, t: seq<T>, less: (T, T) -> bool)
    requires StrictOrder(less)
    requires SortedBy(s, less) && SortedBy(t, less)
    requires multiset(s) == multiset(t)
    requires forall x, y :: x in s && y in s && x != y ==> less(x, y) || less(y, x)
    ensures s == t
  {
    if s == [] {
      assert |multiset(t)| == 0;
    } else {
      SortedHeads(s, t, less);
      var s', t' := s[1..], t[1..];
      assert s == [s[0]] + s' && t == [t[0]] + t';
      assert multiset(s) == multiset{s[0]} + multiset(s');
      assert multiset(t) == multiset{s[0]} + multiset(t');
      forall z ensures multiset(s')[z] == multiset(t')[z] {
        assert multiset(s)[z] == multiset{s[0]}[z] + multiset(s')[z];
        assert multiset(t)[z] == multiset{s[0]}[z] + multiset(t')[z];
      }
      assert multiset(s') == multiset(t');
      assert SortedBy(s', less) && SortedBy(t', less);
      assert forall x, y :: x in s' && y in s' && x != y ==> less(x, y) || less(y, x);
      SortedUnique(s', t', less);
    }
  }

  /** Cutting `s` at `p > 0` is cutting its tail at `p - 1` behind its head. */
  lemma ConsCut<T>(s: seq<T>, p: nat, x: T)
    requires 0 < p <= |s|
    ensures [s[0]] + (s[1..][..p - 1] + [x] + s[1..][p - 1..]) == s[..p] + [x] + s[p..]
  {
    var t := s[1..];
    assert s[..p] == [s[0]] + t[..p - 1];
    assert s[p..] == t[p - 1..];
  }

  lemma InsertFront<T>(x: T, s: seq<T>, less: (T, T) -> bool)
    requires s == [] || less(x, s[0])
    ensures Insert(x, s, less) == [x] + s
  {
  }

  lemma InsertSkips<T>(x: T, s: seq<T>, less: (T, T) -> bool)
    requires s != [] && !less(x, s[0])
    ensures Insert(x, s, less) == [s[0]] + Insert(x, s[1..], less)
  {
  }

  /** `Insert` puts `x` right before the first element it is `less` than. */
  lemma {:induction false} InsertAt<T>(x: T, s: seq<T>, p: nat, less: (T, T) -> bool)
    requires p <= |s|
    requires forall k :: 0 <= k < p ==> !less(x, s[k])
    requires p == |s| || less(x, s[p])
    ensures Insert(x, s, less) == s[..p] + [x] + s[p..]
  {
    if p == 0 {
      InsertFront(x, s, less);
      assert s[..0] == [] && s[0..] == s;
    } else {
      var t := s[1..];
      forall k | 0 <= k < p - 1 ensures !less(x, t[k]) {
        assert t[k] == s[k + 1];
      }
      assert p - 1 < |t| ==> t[p - 1] == s[p];
      InsertAt(x, t, p - 1, less);
      InsertSkips(x, s, less);
      ConsCut(s, p, x);
    }
  }

  /** Inserts `x` into `s` at the first position whose element `x` is `less` than. */
  method InsertInto<T>(x: T, s: seq<T>, less: (T, T) -> bool) returns (r: seq<T>)
    ensures r == Insert(x, s, less)
  {
    var p := 0;
    while p < |s| && !less(x, s[p])
      invariant 0 <= p <= |s|
      invariant forall k :: 0 <= k < p ==> !less(x, s[k])
    {
      p := p + 1;
    }
    InsertAt(x, s, p, less);
    r := s[..p] + [x] + s[p..];
  }

  lemma InsertionSortExtend<T>(s: seq<T>, i: nat, less: (T, T) -> bool)
    requires i < |s|
    ensures InsertionSort(s[..i + 1], less) == Insert(s[i], InsertionSort(s[..i], less), less)
  {
    assert s[..i + 1][..i] == s[..i];
  }

  /** `sort.Slice(s, less)`: returns the sorted sequence instead of sorting in place. */
  method SortSlice<T>(s: seq<T>, less: (T, T) -> bool) returns (r: seq<T>)
    ensures r == InsertionSort(s, less)
  {
    r := [];
    var i := 0;
    while i < |s|
      invariant 0 <= i <= |s|
      invariant r == InsertionSort(s[..i], less)
    {
      InsertionSortExtend(s, i, less);
      r := InsertInto(s[i], r, less);
      i := i + 1;
    }
    assert s[..|s|] == s;
  }

  /** An element found at two positions is counted at least twice. */
  lemma TwiceCounted<T>(s: seq<T>, p: nat, q: nat)
    requires p < q < |s| && s[p] == s[q]
    ensures multiset(s)[s[p]] >= 2
  {
    assert s == s[..q] + s[q..];
    assert s[..q][p] == s[p];
    assert s[q..][0] == s[p];
  }

  /** Some sequence holding each element of a finite set once. */
  ghost function Enumerate<T>(s: set<T>): (r: seq<T>)
    ensures multiset(r) == multiset(s)
    decreases s
  {
    if s == {} then []
    else
      var x :| x in s;
      assert s == (s - {x}) + {x};
      Enumerate(s - {x}) + [x]
  }

  /** One element of a non-empty set, in no particular order: a step of Go's `range` over a map. */
  method Pick<T>(s: set<T>) returns (x: T)
    requires s != {}
    ensures x in s
  {
    x :| x in s;
  }
}
