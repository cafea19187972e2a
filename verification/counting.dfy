/** The character counts of a list of names, used to compare count-sorted
    results (Swift 1.2's `count(a) < count(b)` closures). */
module Counting {

  /** The character counts of a list, in order. */
  function Counts(s: seq<string>): (r: seq<int>)
    ensures |r| == |s|
    ensures forall i :: 0 <= i < |s| ==> r[i] == |s[i]|
  {
    if |s| == 0 then [] else [|s[0]|] + Counts(s[1..])
  }

  lemma {:induction false} CountsAppend(a: seq<string>, b: seq<string>)
    ensures Counts(a + b) == Counts(a) + Counts(b)
    decreases |a|
  {
    if |a| > 0 {
      assert (a + b)[1..] == a[1..] + b;
      CountsAppend(a[1..], b);
    } else {
      assert a + b == b;
    }
  }

  lemma CountsAround(left: seq<string>, x: string, right: seq<string>)
    ensures Counts(left + [x] + right) == Counts(left) + [|x|] + Counts(right)
  {
    CountsAppend(left + [x], right);
    CountsAppend(left, [x]);
    assert Counts([x]) == [|x|];
  }

  /** Taking out the element at `j` removes one copy of it from the multiset. */
  lemma RemoveAt<T>(b: seq<T>, j: nat)
    requires j < |b|
    ensures b == b[..j] + [b[j]] + b[j + 1..]
    ensures multiset(b[..j] + b[j + 1..]) == multiset(b) - multiset{b[j]}
  {
    assert b == b[..j] + [b[j]] + b[j + 1..];
  }

  /** Moving one count from the front into the middle keeps the multiset. */
  lemma MultisetShuffle(ca: seq<int>, ct: seq<int>, cb: seq<int>, cl: seq<int>, cr: seq<int>, k: int)
    requires cb == cl + [k] + cr && ca == [k] + ct
    requires multiset(ct) == multiset(cl + cr)
    ensures multiset(ca) == multiset(cb)
  {
  }

  /** Permuting the strings permutes their counts. */
  lemma {:induction false} CountsOfPermutation(a: seq<string>, b: seq<string>)
    requires multiset(a) == multiset(b)
    ensures multiset(Counts(a)) == multiset(Counts(b))
    decreases |a|
  {
    if |a| == 0 {
      assert |b| == |multiset(b)| == 0;
    } else {
      var x := a[0];
      assert x in multiset(b);
      var j :| 0 <= j < |b| && b[j] == x;
      RemoveAt(b, j);
      RemoveAt(a, 0);
      var left, right := b[..j], b[j + 1..];
      CountsOfPermutation(a[1..], left + right);
      CountsAround(left, x, right);
      CountsAround([], x, a[1..]);
      CountsAppend(left, right);
      assert [] + [x] + a[1..] == a;
      MultisetShuffle(Counts(a), Counts(a[1..]), Counts(b), Counts(left), Counts(right), |x|);
    }
  }
}
