/** String comparison `<` and `>` on Swift `String`, modelled as plain
    lexicographic order on characters, and its order-theoretic facts. */
module LexOrder {
  import opened Sorting

  /** String `<`, taken as plain lexicographic order on characters: a proper
      prefix comes first, otherwise the first differing character decides. */
  function LexLess(a: string, b: string): (r: bool)
    ensures r ==> a != b
    ensures |a| < |b| && a == b[..|a|] ==> r
    ensures r && |a| > 0 ==> |b| > 0 && a[0] <= b[0]
    decreases |a|
  {
    if |b| == 0 then false
    else if |a| == 0 then true
    else if a[0] != b[0] then a[0] < b[0]
    else LexLess(a[1..], b[1..])
  }

  lemma {:induction false} LexAsymmetric(a: string, b: string)
    ensures LexLess(a, b) ==> !LexLess(b, a)
    decreases |a|
  {
    if |a| > 0 && |b| > 0 && a[0] == b[0] {
      LexAsymmetric(a[1..], b[1..]);
    }
  }

  lemma {:induction false} LexTransitive(a: string, b: string, c: string)
    ensures LexLess(a, b) && LexLess(b, c) ==> LexLess(a, c)
    decreases |a|
  {
    if |a| > 0 && |b| > 0 && |c| > 0 && a[0] == b[0] && b[0] == c[0] {
      LexTransitive(a[1..], b[1..], c[1..]);
    }
  }

  lemma {:induction false} LexTotal(a: string, b: string)
    ensures a != b ==> LexLess(a, b) || LexLess(b, a)
    decreases |a|
  {
    if |a| > 0 && |b| > 0 && a[0] == b[0] {
      LexTotal(a[1..], b[1..]);
      assert a == [a[0]] + a[1..] && b == [b[0]] + b[1..];
    }
  }

  /** String `<` as a closure: `{ a, b in a < b }`, `{ $0 < $1 }` and the
      other ascending spellings. */
  const Ascending: (string, string) -> bool := (a: string, b: string) => LexLess(a, b)

  /** String `>` as a closure: `{ a, b in a > b }` and `{ $0 > $1 }`. */
  const Descending: (string, string) -> bool := (a: string, b: string) => LexLess(b, a)

  lemma LexTotalOn(s: seq<string>)
    ensures TotalOn(Ascending, s) && TotalOn(Descending, s)
  {
    forall x, y | x in s && y in s && x != y
      ensures LexLess(x, y) || LexLess(y, x)
    {
      LexTotal(x, y);
    }
  }
}
