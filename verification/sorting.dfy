/** Sorting by a caller-supplied `isOrderedBefore` closure, as Swift's `sort`,
    `sortInPlace` and `sorted` do. Swift asks the closure to be a strict weak
    ordering and does not promise stability, so the contract is "a permutation
    of the input, ordered by the closure" and nothing more. */
module Sorting {

  /** Swift's precondition on `isOrderedBefore`: asymmetric, and "not before"
      is transitive (which also makes `less` itself transitive). */
  ghost predicate StrictWeakOrder<T(!new)>(less: (T, T) -> bool) {
    && (forall a, b :: less(a, b) ==> !less(b, a))
    && (forall a, b, c :: !less(a, b) && !less(b, c) ==> !less(a, c))
  }

  /** Asymmetric, transitive, and any two distinct values are ordered. */
  ghost predicate StrictTotalOrder<T(!new)>(less: (T, T) -> bool) {
    && (forall a, b :: less(a, b) ==> !less(b, a))
    && (forall a, b, c :: less(a, b) && less(b, c) ==> less(a, c))
    && (forall a, b :: a != b ==> less(a, b) || less(b, a))
  }

  lemma StrictTotalOrderIsWeak<T(!new)>(less: (T, T) -> bool)
    requires StrictTotalOrder(less)
    ensures StrictWeakOrder(less)
  {
    forall a, b, c | !less(a, b) && !less(b, c)
      ensures !less(a, c)
    {
      if a != b && b != c {
        assert less(b, a) && less(c, b);
      }
    }
  }

  /** Reversing the arguments of a strict total order (`>` for `<`) gives one. */
  lemma ConverseIsStrictTotalOrder<T(!new)>(less: (T, T) -> bool, greater: (T, T) -> bool)
    requires StrictTotalOrder(less)
    requires forall a, b :: greater(a, b) == less(b, a)
    ensures StrictTotalOrder(greater)
  {
  }

  /** No element is ordered before one that precedes it. */
  predicate Sorted<T>(less: (T, T) -> bool, s: seq<T>) {
    forall i, j :: 0 <= i < j < |s| ==> !less(s[j], s[i])
  }

  /** Every two distinct elements of `s` are ordered one way or the other. */
  ghost predicate TotalOn<T>(less: (T, T) -> bool, s: seq<T>) {
    forall x, y :: x in s && y in s && x != y ==> less(x, y) || less(y, x)
  }

  /** No element of `s` is ordered before `y`. */
  ghost predicate NoneBefore<T>(less: (T, T) -> bool, s: seq<T>, y: T) {
    forall k :: 0 <= k < |s| ==> !less(s[k], y)
  }

  lemma ConsSorted<T>(less: (T, T) -> bool, y: T, s: seq<T>)
    requires Sorted(less, s) && NoneBefore(less, s, y)
    ensures Sorted(less, [y] + s)
  {
  }

  /** Inserts `x` before the first element it is not ordered after. */
  function Insert<T(!new)>(less: (T, T) -> bool, x: T, s: seq<T>): (r: seq<T>)
    requires StrictWeakOrder(less) && Sorted(less, s)
    ensures Sorted(less, r)
    ensures multiset(r) == multiset(s) + multiset{x}
    ensures r[0] == x || (|s| > 0 && r[0] == s[0])
  {
    if |s| == 0 then [x]
    else if less(s[0], x) then
      var rest := Insert(less, x, s[1..]);
      assert s == [s[0]] + s[1..];
      HeadBound(less, s[0], rest);
      ConsSorted(less, s[0], rest);
      [s[0]] + rest
    else
      HeadBound(less, x, s);
      ConsSorted(less, x, s);
      [x] + s
  }

  /** If `x` is not ordered after the head of a sorted list, it is not ordered
      after any of its elements. */
  lemma HeadBound<T(!new)>(less: (T, T) -> bool, x: T, s: seq<T>)
    requires StrictWeakOrder(less) && Sorted(less, s)
    requires |s| > 0 && !less(s[0], x)
    ensures NoneBefore(less, s, x)
  {
    forall k | 0 <= k < |s|
      ensures !less(s[k], x)
    {
      assert !less(s[k], s[0]);
    }
  }

  /** `sort(isOrderedBefore)`: insertion sort standing in for Swift's algorithm. */
  function Sort<T(!new)>(less: (T, T) -> bool, s: seq<T>): (r: seq<T>)
    requires StrictWeakOrder(less)
    ensures Sorted(less, r)
    ensures multiset(r) == multiset(s)
  {
    if |s| == 0 then []
    else
      assert s == [s[0]] + s[1..];
      Insert(less, s[0], Sort(less, s[1..]))
  }

  lemma DropHead<T>(s: seq<T>)
    requires |s| > 0
    ensures multiset(s[1..]) == multiset(s) - multiset{s[0]}
    ensures forall x :: x in s[1..] ==> x in s
  {
    assert s == [s[0]] + s[1..];
  }

  /** When the order is total on the elements, there is only one sorted
      permutation: any two sorting algorithms agree. */
  lemma {:induction false} SortedPermutationUnique<T>(less: (T, T) -> bool, a: seq<T>, b: seq<T>)
    requires Sorted(less, a) && Sorted(less, b)
    requires multiset(a) == multiset(b)
    requires TotalOn(less, a)
    ensures a == b
    decreases |a|
  {
    if |a| == 0 {
      assert |b| == |multiset(b)| == 0;
    } else {
      assert |b| == |multiset(b)| == |multiset(a)| == |a|;
      assert a[0] in multiset(b);
      var j :| 0 <= j < |b| && b[j] == a[0];
      assert b[0] in multiset(a);
      var i :| 0 <= i < |a| && a[i] == b[0];
      if a[0] != b[0] {
        // Both heads are in `a`, so one is ordered before the other; yet each
        // also occurs later in the other sequence, which is sorted.
        assert false;
      }
      DropHead(a);
      DropHead(b);
      SortedPermutationUnique(less, a[1..], b[1..]);
    }
  }

  /** Two closures that agree on every pair sort every input the same way. */
  lemma {:induction false} SortRespectsExtensionality<T(!new)>(less: (T, T) -> bool, less': (T, T) -> bool, s: seq<T>)
    requires StrictWeakOrder(less) && StrictWeakOrder(less')
    requires forall a, b :: less(a, b) == less'(a, b)
    ensures Sort(less, s) == Sort(less', s)
    decreases |s|
  {
    if |s| > 0 {
      SortRespectsExtensionality(less, less', s[1..]);
      InsertRespectsExtensionality(less, less', s[0], Sort(less, s[1..]));
    }
  }

  lemma {:induction false} InsertRespectsExtensionality<T(!new)>(less: (T, T) -> bool, less': (T, T) -> bool, x: T, s: seq<T>)
    requires StrictWeakOrder(less) && StrictWeakOrder(less')
    requires forall a, b :: less(a, b) == less'(a, b)
    requires Sorted(less, s)
    ensures Sorted(less', s)
    ensures Insert(less, x, s) == Insert(less', x, s)
    decreases |s|
  {
    if |s| > 0 {
      InsertRespectsExtensionality(less, less', x, s[1..]);
    }
  }
}
