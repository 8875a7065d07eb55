/**
 * The sorted copy `[...data].sort((a, b) => a - b)` that the statistics engine
 * and the visualization panel index into, and the sequence helpers built on it.
 */
module Sorting {

  /** Ascending order (duplicates allowed). */
  predicate Sorted(s: seq<int>) {
    forall i, j :: 0 <= i < j < |s| ==> s[i] <= s[j]
  }

  /** Ascending order without duplicates. */
  predicate StrictlyIncreasing(s: seq<int>) {
    forall i, j :: 0 <= i < j < |s| ==> s[i] < s[j]
  }

  /** Inserts x into a sorted sequence at its place. */
  function Insert(x: int, s: seq<int>): (r: seq<int>)
    requires Sorted(s)
    ensures Sorted(r)
    ensures multiset(r) == multiset(s) + multiset{x}
    ensures |r| == |s| + 1
  {
    if s == [] || x <= s[0] then
      SortedCons(x, s);
      [x] + s
    else
      assert s == [s[0]] + s[1..];
      SortedTail(s);
      var tail := Insert(x, s[1..]);
      HeadBelowInsert(s, x, tail);
      SortedCons(s[0], tail);
      [s[0]] + tail
  }

  /** The head of a sorted sequence lies below its tail with a larger value inserted. */
  lemma HeadBelowInsert(s: seq<int>, x: int, tail: seq<int>)
    requires Sorted(s) && s != [] && s[0] < x
    requires multiset(tail) == multiset(s[1..]) + multiset{x}
    ensures forall v :: v in tail ==> s[0] <= v
  {
    forall v | v in tail ensures s[0] <= v {
      assert v in multiset(tail);
      if v != x {
        assert v in multiset(s[1..]);
        var k :| 0 <= k < |s[1..]| && s[1..][k] == v;
        assert s[k + 1] == v;
      }
    }
  }

  /** Putting a lower bound in front of a sorted sequence keeps it sorted. */
  lemma SortedCons(x: int, t: seq<int>)
    requires Sorted(t)
    requires forall v :: v in t ==> x <= v
    ensures Sorted([x] + t)
  {
    forall i, j | 0 <= i < j < |[x] + t| ensures ([x] + t)[i] <= ([x] + t)[j] {
      if i > 0 {
        assert ([x] + t)[i] == t[i - 1];
      }
      assert ([x] + t)[j] == t[j - 1];
      assert t[j - 1] in t;
    }
  }

  /** Insertion sort: ascending and holding exactly the elements of s. */
  function InsertionSort(s: seq<int>): (r: seq<int>)
    ensures Sorted(r)
    ensures multiset(r) == multiset(s)
  {
    if s == [] then
      []
    else
      assert s == [s[0]] + s[1..];
      Insert(s[0], InsertionSort(s[1..]))
  }

  /**
   * The sorted copy of s: the one ascending sequence holding exactly the
   * elements of s. The input itself is a value and is left as it was.
   */
  function SortedCopy(s: seq<int>): (r: seq<int>)
    ensures Sorted(r)
    ensures multiset(r) == multiset(s)
    ensures |r| == |s|
  {
    SortedArrangementUnique(s);
    assert Sorted(InsertionSort(s)) && multiset(InsertionSort(s)) == multiset(s);
    var r :| Sorted(r) && multiset(r) == multiset(s);
    assert |r| == |multiset(r)| == |multiset(s)| == |s|;
    r
  }

  /** Any two sorted arrangements of s are equal. */
  lemma SortedArrangementUnique(s: seq<int>)
    ensures forall a, b :: Sorted(a) && multiset(a) == multiset(s) && Sorted(b) && multiset(b) == multiset(s) ==> a == b
  {
    forall a, b | Sorted(a) && multiset(a) == multiset(s) && Sorted(b) && multiset(b) == multiset(s) {
      SortedUnique(a, b);
    }
  }

  /** There is only one sorted arrangement of a multiset of numbers. */
  lemma {:induction false} SortedUnique(a: seq<int>, b: seq<int>)
    requires Sorted(a) && Sorted(b)
    requires multiset(a) == multiset(b)
    ensures a == b
    decreases |a|
  {
    if a != [] {
      SortedHeads(a, b);
      assert a == [a[0]] + a[1..];
      assert b == [b[0]] + b[1..];
      assert multiset(a[1..]) == multiset(a) - multiset{a[0]};
      assert multiset(b[1..]) == multiset(b) - multiset{b[0]};
      SortedTail(a);
      SortedTail(b);
      SortedUnique(a[1..], b[1..]);
    } else {
      assert |b| == |multiset(b)| == 0;
    }
  }

  /** Two sorted arrangements of the same non-empty multiset start with its least element. */
  lemma SortedHeads(a: seq<int>, b: seq<int>)
    requires Sorted(a) && Sorted(b) && a != []
    requires multiset(a) == multiset(b)
    ensures b != [] && a[0] == b[0]
  {
    assert a[0] in multiset(b);
    var i :| 0 <= i < |b| && b[i] == a[0];
    assert b[0] in multiset(a);
    var j :| 0 <= j < |a| && a[j] == b[0];
    assert b[0] <= b[i] && a[0] <= a[j];
  }

  /** Dropping the first element keeps a sequence sorted. */
  lemma SortedTail(s: seq<int>)
    requires Sorted(s) && s != []
    ensures Sorted(s[1..])
  {
    forall i, j | 0 <= i < j < |s| - 1 ensures s[1..][i] <= s[1..][j] {
      assert s[1..][i] == s[i + 1] && s[1..][j] == s[j + 1];
    }
  }

  /** Sorting a sequence that is already sorted gives it back. */
  lemma SortedCopyOfSorted(s: seq<int>)
    requires Sorted(s)
    ensures SortedCopy(s) == s
  {
    SortedUnique(SortedCopy(s), s);
  }

  /** Sequences with the same elements (counted with multiplicity) sort alike. */
  lemma SortedCopyOfPermutation(a: seq<int>, b: seq<int>)
    requires multiset(a) == multiset(b)
    ensures SortedCopy(a) == SortedCopy(b)
  {
    SortedUnique(SortedCopy(a), SortedCopy(b));
  }

  /** Every value of s lies between the first and the last element of a sorted arrangement of s. */
  lemma SortedBounds(s: seq<int>, sorted: seq<int>, v: int)
    requires Sorted(sorted) && multiset(sorted) == multiset(s) && v in s
    ensures |sorted| == |s| > 0 && sorted[0] <= v <= sorted[|s| - 1]
  {
    assert |sorted| == |multiset(sorted)| == |multiset(s)| == |s|;
    assert v in multiset(sorted);
    var k :| 0 <= k < |sorted| && sorted[k] == v;
    assert sorted[0] <= sorted[k] <= sorted[|sorted| - 1];
  }

  /**
   * The distinct values of s, in the order of their first occurrence; on a
   * sorted sequence this is the ascending list of its distinct values.
   */
  function Distinct(s: seq<int>): (r: seq<int>)
    ensures forall v :: v in r <==> v in s
    ensures Sorted(s) ==> StrictlyIncreasing(r)
  {
    if |s| <= 1 then
      s
    else if s[0] == s[1] then
      Distinct(s[1..])
    else
      var tail := Distinct(s[1..]);
      assert Sorted(s) ==> StrictlyIncreasing([s[0]] + tail) by {
        if Sorted(s) {
          forall v | v in tail ensures s[0] < v {
            assert v in s[1..];
            var k :| 0 <= k < |s[1..]| && s[1..][k] == v;
            assert s[1] <= s[k + 1];
          }
          SortedTail(s);
          StrictCons(s[0], tail);
        }
      }
      [s[0]] + tail
  }

  /** Putting a strict lower bound in front of a strictly increasing sequence keeps it so. */
  lemma StrictCons(x: int, t: seq<int>)
    requires StrictlyIncreasing(t)
    requires forall v :: v in t ==> x < v
    ensures StrictlyIncreasing([x] + t)
  {
    forall i, j | 0 <= i < j < |[x] + t| ensures ([x] + t)[i] < ([x] + t)[j] {
      if i > 0 {
        assert ([x] + t)[i] == t[i - 1];
      }
      assert ([x] + t)[j] == t[j - 1];
      assert t[j - 1] in t;
    }
  }
}
