/** `nums.reduce(0, combine: { (current, next) -> Int in current + next })` and
    its concise spelling `nums.reduce(0, combine: { $0 + $1 })`. Both closures are
    Swift's `+` on `Int`, which traps on overflow instead of wrapping. */
module Reduce {
  import opened Wrappers
  import Decimal

  /** `reduce(initial, combine:)`: a left fold, first element first. */
  function Reduce<T, A>(initial: A, xs: seq<T>, combine: (A, T) -> A): A
    decreases |xs|
  {
    if |xs| == 0 then initial else Reduce(combine(initial, xs[0]), xs[1..], combine)
  }

  /** Reducing a concatenation reduces the second part starting from the
      reduction of the first: the accumulator is threaded left to right, and in
      particular the last element is combined last. */
  lemma {:induction false} ReduceAppend<T, A>(initial: A, a: seq<T>, b: seq<T>, combine: (A, T) -> A)
    ensures Reduce(initial, a + b, combine) == Reduce(Reduce(initial, a, combine), b, combine)
    decreases |a|
  {
    if |a| == 0 {
      assert a + b == b;
    } else {
      assert (a + b)[1..] == a[1..] + b;
      ReduceAppend(combine(initial, a[0]), a[1..], b, combine);
    }
  }

  /** The mathematical sum, element by element from the front. */
  function Sum(xs: seq<int>): int
    decreases |xs|
  {
    if |xs| == 0 then 0 else xs[0] + Sum(xs[1..])
  }

  /** Swift's `+` on `Int`: the exact sum when it fits, otherwise a trap,
      written `None`; once trapped, the program has stopped. */
  function CheckedAdd(current: Option<int>, next: int): (r: Option<int>)
    ensures r.Some? <==> current.Some? && Decimal.InRange(current.value + next)
    ensures r.Some? ==> r.value == current.value + next
  {
    match current
    case None => None
    case Some(c) => if Decimal.InRange(c + next) then Some(c + next) else None
  }

  /** Every running total of the fold, from `initial` on, fits in `Int`. */
  ghost predicate RunningTotalsFit(initial: int, xs: seq<int>) {
    forall k :: 0 <= k <= |xs| ==> Decimal.InRange(initial + Sum(xs[..k]))
  }

  lemma SumPrefixStep(xs: seq<int>, k: nat)
    requires 0 < k <= |xs|
    ensures Sum(xs[..k]) == xs[0] + Sum(xs[1..][..k - 1])
  {
    assert xs[..k][1..] == xs[1..][..k - 1];
  }

  /** The trapping fold is the sum when every running total fits, and traps
      exactly when one of them does not. */
  lemma {:induction false} ReduceIsSum(initial: int, xs: seq<int>)
    requires Decimal.InRange(initial)
    ensures Reduce(Some(initial), xs, CheckedAdd) ==
      if RunningTotalsFit(initial, xs) then Some(initial + Sum(xs)) else None
    decreases |xs|
  {
    if |xs| == 0 {
      assert xs[..0] == [];
    } else {
      var next := initial + xs[0];
      assert Reduce(Some(initial), xs, CheckedAdd) == Reduce(CheckedAdd(Some(initial), xs[0]), xs[1..], CheckedAdd);
      if Decimal.InRange(next) {
        ReduceIsSum(next, xs[1..]);
        RunningTotalsStep(initial, xs);
      } else {
        ReduceFromTrap(xs[1..], CheckedAdd);
        FirstTotalOverflows(initial, xs);
      }
    }
  }

  /** When the first running total fits, the rest of the totals are those of the
      remaining elements, started from it. */
  lemma RunningTotalsStep(initial: int, xs: seq<int>)
    requires |xs| > 0 && Decimal.InRange(initial) && Decimal.InRange(initial + xs[0])
    ensures RunningTotalsFit(initial, xs) <==> RunningTotalsFit(initial + xs[0], xs[1..])
    ensures initial + Sum(xs) == (initial + xs[0]) + Sum(xs[1..])
  {
    var next := initial + xs[0];
    forall k | 0 < k <= |xs| {
      SumPrefixStep(xs, k);
    }
    assert xs[..0] == [];
    if RunningTotalsFit(initial, xs) {
      forall k | 0 <= k <= |xs| - 1
        ensures Decimal.InRange(next + Sum(xs[1..][..k]))
      {
        assert Decimal.InRange(initial + Sum(xs[..k + 1]));
      }
    }
    if RunningTotalsFit(next, xs[1..]) {
      forall k | 0 <= k <= |xs|
        ensures Decimal.InRange(initial + Sum(xs[..k]))
      {
        if k > 0 {
          assert Decimal.InRange(next + Sum(xs[1..][..k - 1]));
        }
      }
    }
  }

  /** When the first running total overflows, not all totals fit. */
  lemma FirstTotalOverflows(initial: int, xs: seq<int>)
    requires |xs| > 0 && !Decimal.InRange(initial + xs[0])
    ensures !RunningTotalsFit(initial, xs)
  {
    SumPrefixStep(xs, 1);
    assert xs[1..][..0] == [];
    assert !Decimal.InRange(initial + Sum(xs[..1]));
  }

  /** After a trap nothing more is computed. */
  lemma {:induction false} ReduceFromTrap(xs: seq<int>, combine: (Option<int>, int) -> Option<int>)
    requires forall n :: combine(None, n) == None
    ensures Reduce(None, xs, combine) == None
    decreases |xs|
  {
    if |xs| > 0 {
      ReduceFromTrap(xs[1..], combine);
    }
  }

  /** Adding up non-negative numbers whose total fits never traps: every
      running total lies between 0 and the final sum. */
  lemma NonNegativeTotalsFit(xs: seq<int>)
    requires forall i :: 0 <= i < |xs| ==> xs[i] >= 0
    requires Sum(xs) <= Decimal.IntMax
    ensures RunningTotalsFit(0, xs)
  {
    forall k | 0 <= k <= |xs|
      ensures 0 <= Sum(xs[..k]) <= Sum(xs)
    {
      assert xs[..k] + xs[k..] == xs;
      SumAppend(xs[..k], xs[k..]);
      SumBounds(xs[..k]);
      SumBounds(xs[k..]);
    }
  }

  /** `[1, 2, 3, 4, 5, 6].reduce(0, combine: +)` is 21. */
  lemma NumsExample()
    ensures Reduce(Some(0), [1, 2, 3, 4, 5, 6], CheckedAdd) == Some(21)
  {
    var nums := [1, 2, 3, 4, 5, 6];
    assert Sum(nums) == 21;
    NonNegativeTotalsFit(nums);
    ReduceIsSum(0, nums);
  }

  lemma {:induction false} SumAppend(a: seq<int>, b: seq<int>)
    ensures Sum(a + b) == Sum(a) + Sum(b)
    decreases |a|
  {
    if |a| == 0 {
      assert a + b == b;
    } else {
      assert (a + b)[1..] == a[1..] + b;
      SumAppend(a[1..], b);
    }
  }

  lemma {:induction false} SumBounds(xs: seq<int>)
    requires forall i :: 0 <= i < |xs| ==> xs[i] >= 0
    ensures Sum(xs) >= 0
    decreases |xs|
  {
    if |xs| > 0 {
      SumBounds(xs[1..]);
    }
  }
}
