/** The sorting closures of the two playgrounds: by character count (Swift 1.2)
    and by string order, ascending, descending and through the named function
    `backwards` (Swift 2). */
module Closures {
  import opened Sorting
  import opened LexOrder
  import opened Counting

  /** `func backwards(s1: String, s2: String) -> Bool { return s1 > s2 }`. */
  function Backwards(s1: string, s2: string): (r: bool)
    ensures r ==> !LexLess(s1, s2)
    ensures s1 != s2 && !r ==> LexLess(s1, s2)
    ensures r ==> s1 != s2
  {
    LexTotal(s1, s2);
    LexAsymmetric(s1, s2);
    LexLess(s2, s1)
  }

  /** Swift 1.2's `{ count($0) < count($1) }` and its three longer spellings. */
  const ByCount: (string, string) -> bool := (a: string, b: string) => |a| < |b|

  lemma AscendingIsStrictTotalOrder()
    ensures StrictTotalOrder(Ascending)
    ensures StrictWeakOrder(Ascending)
  {
    forall a, b ensures Ascending(a, b) ==> !Ascending(b, a) {
      LexAsymmetric(a, b);
    }
    forall a, b, c ensures Ascending(a, b) && Ascending(b, c) ==> Ascending(a, c) {
      LexTransitive(a, b, c);
    }
    forall a, b ensures a != b ==> Ascending(a, b) || Ascending(b, a) {
      LexTotal(a, b);
    }
    StrictTotalOrderIsWeak(Ascending);
  }

  lemma DescendingIsStrictTotalOrder()
    ensures StrictTotalOrder(Descending) && StrictWeakOrder(Descending)
    ensures StrictTotalOrder(Backwards) && StrictWeakOrder(Backwards)
  {
    AscendingIsStrictTotalOrder();
    ConverseIsStrictTotalOrder(Ascending, Descending);
    ConverseIsStrictTotalOrder(Ascending, Backwards);
    StrictTotalOrderIsWeak(Descending);
    StrictTotalOrderIsWeak(Backwards);
  }

  lemma ByCountIsStrictWeakOrder()
    ensures StrictWeakOrder(ByCount)
  {
  }

  /** Swift 1.2's `clients.sort { count($0) < count($1) }` (in place) and
      `sorted(permanentClients, { count(a) < count(b) })` (a new array). */
  function SortByCount(clients: seq<string>): (r: seq<string>)
    ensures multiset(r) == multiset(clients)
    ensures forall i, j :: 0 <= i < j < |r| ==> |r[i]| <= |r[j]|
  {
    ByCountIsStrictWeakOrder();
    Sort(ByCount, clients)
  }

  /** Swift 2's `sort { $0 < $1 }` and its three longer spellings. */
  function SortAscending(clients: seq<string>): (r: seq<string>)
    ensures multiset(r) == multiset(clients)
    ensures forall i, j :: 0 <= i < j < |r| ==> !LexLess(r[j], r[i])
  {
    AscendingIsStrictTotalOrder();
    Sort(Ascending, clients)
  }

  /** Swift 2's `sortInPlace { a > b }`, `sort { a > b }` and `sort { $0 > $1 }`. */
  function SortDescending(clients: seq<string>): (r: seq<string>)
    ensures multiset(r) == multiset(clients)
    ensures forall i, j :: 0 <= i < j < |r| ==> !LexLess(r[i], r[j])
  {
    DescendingIsStrictTotalOrder();
    Sort(Descending, clients)
  }

  /** Swift 2's `sort(backwards)`. */
  function SortBackwards(clients: seq<string>): (r: seq<string>)
    ensures multiset(r) == multiset(clients)
    ensures forall i, j :: 0 <= i < j < |r| ==> !Backwards(r[j], r[i])
  {
    DescendingIsStrictTotalOrder();
    Sort(Backwards, clients)
  }

  /** `clients.sort(backwards)` and `clients.sort { $0 > $1 }` give the same
      array for every input, because the two closures are the same relation. */
  lemma BackwardsSortsLikeDescending(clients: seq<string>)
    ensures SortBackwards(clients) == SortDescending(clients)
  {
    DescendingIsStrictTotalOrder();
    SortRespectsExtensionality(Backwards, Descending, clients);
  }

  /** The ascending result is the only ascending permutation of the input. */
  lemma {:induction false} AscendingUnique(clients: seq<string>, other: seq<string>)
    requires multiset(other) == multiset(clients)
    requires forall i, j :: 0 <= i < j < |other| ==> !LexLess(other[j], other[i])
    ensures other == SortAscending(clients)
  {
    var r := SortAscending(clients);
    assert Sorted(Ascending, other) && Sorted(Ascending, r);
    LexTotalOn(r);
    SortedPermutationUnique(Ascending, r, other);
  }

  function Reverse<T>(s: seq<T>): (r: seq<T>)
    ensures |r| == |s|
    ensures forall i :: 0 <= i < |s| ==> r[i] == s[|s| - 1 - i]
    ensures multiset(r) == multiset(s)
  {
    if |s| == 0 then []
    else
      assert s == [s[0]] + s[1..];
      Reverse(s[1..]) + [s[0]]
  }

  /** Reading a sorted sequence backwards sorts it by the converse relation. */
  lemma ReverseSorted<T>(less: (T, T) -> bool, greater: (T, T) -> bool, s: seq<T>)
    requires forall a, b :: greater(a, b) == less(b, a)
    requires Sorted(less, s)
    ensures Sorted(greater, Reverse(s))
  {
    var rev := Reverse(s);
    forall i, j | 0 <= i < j < |rev|
      ensures !greater(rev[j], rev[i])
    {
      assert rev[i] == s[|s| - 1 - i] && rev[j] == s[|s| - 1 - j];
    }
  }

  lemma ReverseOfAscending(up: seq<string>)
    requires forall i, j :: 0 <= i < j < |up| ==> !LexLess(up[j], up[i])
    ensures Sorted(Descending, Reverse(up))
  {
    assert Sorted(Ascending, up);
    ReverseSorted(Ascending, Descending, up);
  }

  /** Sorting with `>` is sorting with `<` and reading the result backwards. */
  lemma DescendingIsReversedAscending(clients: seq<string>)
    ensures SortDescending(clients) == Reverse(SortAscending(clients))
  {
    var up := SortAscending(clients);
    var down := SortDescending(clients);
    ReverseOfAscending(up);
    assert Sorted(Descending, down);
    LexTotalOn(down);
    SortedPermutationUnique(Descending, down, Reverse(up));
  }

  const IntLess: (int, int) -> bool := (x: int, y: int) => x < y

  /** Every count-sorted permutation of the same input has the same sequence
      of counts, whichever order equal-count names end up in: the four
      spellings of the count closure cannot disagree on lengths. */
  lemma CountSortsAgreeOnCounts(clients: seq<string>, other: seq<string>)
    requires multiset(other) == multiset(clients)
    requires forall i, j :: 0 <= i < j < |other| ==> |other[i]| <= |other[j]|
    ensures Counts(other) == Counts(SortByCount(clients))
  {
    var r := SortByCount(clients);
    CountsOfPermutation(other, r);
    assert Sorted(IntLess, Counts(other));
    assert Sorted(IntLess, Counts(r));
    SortedPermutationUnique(IntLess, Counts(other), Counts(r));
  }

  /** A sorted arrangement of the input is the sorted result, for `>`. */
  lemma {:induction false} DescendingUnique(clients: seq<string>, other: seq<string>)
    requires multiset(other) == multiset(clients)
    requires forall i, j :: 0 <= i < j < |other| ==> !LexLess(other[i], other[j])
    ensures other == SortDescending(clients)
  {
    var r := SortDescending(clients);
    assert Sorted(Descending, other) && Sorted(Descending, r);
    LexTotalOn(r);
    SortedPermutationUnique(Descending, r, other);
  }

  /** The Swift 2 clients: `sortInPlace { a > b }` turns ["Pestov", "Test", "ian"]
      into ["ian", "Test", "Pestov"], since lower-case letters order after
      upper-case ones, and `sort(backwards)` gives the same. `clients2`,
      `reversed` and the playground's `sort(backwards)` re-sort that result;
      since it is already descending, `DescendingUnique` and
      `BackwardsSortsLikeDescending` show they return it unchanged. */
  lemma SortInPlaceExample()
    ensures SortDescending(["Pestov", "Test", "ian"]) == ["ian", "Test", "Pestov"]
    ensures SortBackwards(["Pestov", "Test", "ian"]) == ["ian", "Test", "Pestov"]
  {
    var down := ["ian", "Test", "Pestov"];
    assert LexLess("Test", "ian") && LexLess("Pestov", "Test") && LexLess("Pestov", "ian");
    assert multiset(down) == multiset(["Pestov", "Test", "ian"]);
    DescendingUnique(["Pestov", "Test", "ian"], down);
    BackwardsSortsLikeDescending(["Pestov", "Test", "ian"]);
  }

  /** `clients.sort { $0 < $1 }` on the sorted clients gives ["Pestov", "Test", "ian"]. */
  lemma AscendingClientsExample()
    ensures SortAscending(["ian", "Test", "Pestov"]) == ["Pestov", "Test", "ian"]
  {
    var up := ["Pestov", "Test", "ian"];
    assert LexLess("Test", "ian") && LexLess("Pestov", "Test") && LexLess("Pestov", "ian");
    assert multiset(up) == multiset(["ian", "Test", "Pestov"]);
    AscendingUnique(["ian", "Test", "Pestov"], up);
  }

  /** `permanentClients.sort { $0 < $1 }` keeps ["Apple", "Google"] as it is. */
  lemma PermanentClientsExample()
    ensures SortAscending(["Apple", "Google"]) == ["Apple", "Google"]
  {
    assert LexLess("Apple", "Google");
    AscendingUnique(["Apple", "Google"], ["Apple", "Google"]);
  }

  /** When no two names share a count there is only one count-sorted
      arrangement, so ties are the only freedom Swift's `sort` has. */
  lemma {:induction false} CountUniqueWhenDistinct(clients: seq<string>, other: seq<string>)
    requires multiset(other) == multiset(clients)
    requires forall i, j :: 0 <= i < j < |other| ==> |other[i]| < |other[j]|
    ensures other == SortByCount(clients)
  {
    ByCountIsStrictWeakOrder();
    var r := SortByCount(clients);
    assert TotalOn(ByCount, other) by {
      forall x, y | x in other && y in other && x != y
        ensures |x| < |y| || |y| < |x|
      {
        var i :| 0 <= i < |other| && other[i] == x;
        var j :| 0 <= j < |other| && other[j] == y;
        assert i != j;
      }
    }
    SortedPermutationUnique(ByCount, other, r);
  }

  /** The Swift 1.2 clients: by count, ["Pestov", "Test", "ian"] becomes
      ["ian", "Test", "Pestov"]. */
  lemma CountClientsExample()
    ensures SortByCount(["Pestov", "Test", "ian"]) == ["ian", "Test", "Pestov"]
  {
    var up := ["ian", "Test", "Pestov"];
    assert multiset(up) == multiset(["Pestov", "Test", "ian"]);
    CountUniqueWhenDistinct(["Pestov", "Test", "ian"], up);
  }

  /** `sorted(permanentClients, ...)` by count gives ["NSA", "Apple"]. */
  lemma CountPermanentClientsExample()
    ensures SortByCount(["Apple", "NSA"]) == ["NSA", "Apple"]
  {
    var up := ["NSA", "Apple"];
    assert multiset(up) == multiset(["Apple", "NSA"]);
    CountUniqueWhenDistinct(["Apple", "NSA"], up);
  }
}
