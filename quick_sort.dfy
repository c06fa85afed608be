/**
  The three-way quicksort of `Dsa/quick_sort.py`: the last element is the pivot,
  one pass splits the list into the elements smaller than, equal to and larger
  than it, and the result is the sorted smaller part, the equal part and the sorted
  larger part. The input is never changed; the elements are modelled as integers.
*/
module QuickSort {

  predicate Sorted(s: seq<int>) {
    forall i, j :: 0 <= i < j < |s| ==> s[i] <= s[j]
  }

  /**
    The `for num in arr` pass: each element goes to exactly one of the three parts,
    in its original order.
  */
  function Partition(s: seq<int>, pivot: int): (parts: (seq<int>, seq<int>, seq<int>))
    ensures forall x :: x in parts.0 ==> x < pivot
    ensures forall x :: x in parts.1 ==> x == pivot
    ensures forall x :: x in parts.2 ==> x > pivot
    ensures multiset(parts.0) + multiset(parts.1) + multiset(parts.2) == multiset(s)
  {
    if s == [] then ([], [], [])
    else
      var (smaller, equal, larger) := Partition(s[..|s| - 1], pivot);
      var num := s[|s| - 1];
      assert s == s[..|s| - 1] + [num];
      if num < pivot then (smaller + [num], equal, larger)
      else if num == pivot then (smaller, equal + [num], larger)
      else (smaller, equal, larger + [num])
  }

  /** The pivot lands in the equal part, so both recursive calls get strictly shorter lists. */
  lemma PartsShorter(s: seq<int>)
    requires |s| >= 1
    ensures var parts := Partition(s, s[|s| - 1]);
            |parts.0| < |s| && |parts.2| < |s| && |parts.1| >= 1
  {
    var parts := Partition(s, s[|s| - 1]);
    assert s[|s| - 1] in multiset(s);
    assert s[|s| - 1] in multiset(parts.1);
    assert |multiset(s)| == |multiset(parts.0)| + |multiset(parts.1)| + |multiset(parts.2)|;
  }

  /** `quick_sort`: a sorted permutation of the input; lists of length at most one come back as they are. */
  function QuickSort(s: seq<int>): (r: seq<int>)
    ensures Sorted(r)
    ensures multiset(r) == multiset(s)
    ensures |s| <= 1 ==> r == s
    decreases |s|
  {
    if |s| <= 1 then s
    else
      var pivot := s[|s| - 1];
      var parts := Partition(s, pivot);
      PartsShorter(s);
      var left := QuickSort(parts.0);
      var right := QuickSort(parts.2);
      SameElements(left, parts.0);
      SameElements(right, parts.2);
      JoinSorted(left, parts.1, right, pivot);
      left + parts.1 + right
  }

  /** Lists with the same multiset have the same members. */
  lemma SameElements(a: seq<int>, b: seq<int>)
    requires multiset(a) == multiset(b)
    ensures forall x :: x in a <==> x in b
  {
    forall x
      ensures x in a <==> x in b
    {
      assert x in a <==> x in multiset(a);
      assert x in b <==> x in multiset(b);
    }
  }

  /** Sorted parts on either side of a run of pivots join into a sorted list. */
  lemma JoinSorted(left: seq<int>, equal: seq<int>, right: seq<int>, pivot: int)
    requires Sorted(left) && Sorted(right)
    requires forall x :: x in left ==> x < pivot
    requires forall x :: x in equal ==> x == pivot
    requires forall x :: x in right ==> x > pivot
    ensures Sorted(left + equal + right)
  {
    var r := left + equal + right;
    forall i, j | 0 <= i < j < |r|
      ensures r[i] <= r[j]
    {
      if i < |left| {
        assert left[i] in left;
      }
      if j >= |left| + |equal| {
        assert right[j - |left| - |equal|] in right;
      }
      if i >= |left| && i < |left| + |equal| {
        assert equal[i - |left|] in equal;
      }
      if j >= |left| && j < |left| + |equal| {
        assert equal[j - |left|] in equal;
      }
    }
  }

  /** Two sorted lists with the same elements are the same list. */
  lemma {:induction false} SortedUnique(a: seq<int>, b: seq<int>)
    requires Sorted(a) && Sorted(b) && multiset(a) == multiset(b)
    ensures a == b
  {
    if a != [] {
      SameHead(a, b);
      assert a == [a[0]] + a[1..];
      assert b == [b[0]] + b[1..];
      assert multiset(a[1..]) == multiset(a) - multiset{a[0]};
      assert multiset(b[1..]) == multiset(b) - multiset{b[0]};
      SortedUnique(a[1..], b[1..]);
    }
  }

  /** Two sorted lists with the same elements start with the same, least, element. */
  lemma SameHead(a: seq<int>, b: seq<int>)
    requires Sorted(a) && Sorted(b) && multiset(a) == multiset(b) && a != []
    ensures b != [] && a[0] == b[0]
  {
    assert a[0] in multiset(a);
    assert a[0] in multiset(b);
    var i :| 0 <= i < |b| && b[i] == a[0];
    assert b[0] in multiset(a);
    var j :| 0 <= j < |a| && a[j] == b[0];
    assert b[0] <= b[i] && a[0] <= a[j];
  }

  /** The sort is determined by its contents: it agrees with every other sort of the same list. */
  lemma QuickSortIsTheSort(s: seq<int>, t: seq<int>)
    requires Sorted(t) && multiset(t) == multiset(s)
    ensures QuickSort(s) == t
  {
    SortedUnique(QuickSort(s), t);
  }

  /** Sorting a sorted list changes nothing; in particular sorting twice is sorting once. */
  lemma QuickSortIdempotent(s: seq<int>)
    ensures Sorted(s) ==> QuickSort(s) == s
    ensures QuickSort(QuickSort(s)) == QuickSort(s)
  {
    if Sorted(s) {
      QuickSortIsTheSort(s, s);
    }
    QuickSortIsTheSort(QuickSort(s), QuickSort(s));
  }
}
