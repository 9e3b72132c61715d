/** sort.Slice on numbers: any sorted permutation will do, because there is only one. */
module Sorting {
  ghost predicate Ascending(xs: seq<int>) {
    forall i, j :: 0 <= i < j < |xs| ==> xs[i] <= xs[j]
  }

  method SortInts(xs: seq<int>) returns (r: seq<int>)
    ensures Ascending(r) && multiset(r) == multiset(xs)
  {
    r := [];
    for i := 0 to |xs|
      invariant Ascending(r) && multiset(r) == multiset(xs[..i])
    {
      assert xs[..i + 1] == xs[..i] + [xs[i]];
      r := InsertInt(r, xs[i]);
    }
    assert xs[..|xs|] == xs;
  }

  method InsertInt(xs: seq<int>, x: int) returns (r: seq<int>)
    requires Ascending(xs)
    ensures Ascending(r) && multiset(r) == multiset(xs + [x])
  {
    var k := |xs|;
    while k > 0 && xs[k - 1] > x
      invariant 0 <= k <= |xs|
      invariant forall i :: k <= i < |xs| ==> xs[i] > x
    {
      k := k - 1;
    }
    r := xs[..k] + [x] + xs[k..];
    InsertedAscending(xs, x, k);
    InsertedPermutes(xs, x, k);
  }

  lemma {:induction false} InsertedAscending(xs: seq<int>, x: int, k: nat)
    requires Ascending(xs) && k <= |xs|
    requires k > 0 ==> xs[k - 1] <= x
    requires forall i :: k <= i < |xs| ==> xs[i] > x
    ensures Ascending(xs[..k] + [x] + xs[k..])
  {
    var r := xs[..k] + [x] + xs[k..];
    forall i, j | 0 <= i < j < |r| ensures r[i] <= r[j] {
      assert r[i] == if i < k then xs[i] else if i == k then x else xs[i - 1];
      assert r[j] == if j < k then xs[j] else if j == k then x else xs[j - 1];
    }
  }

  lemma {:induction false} InsertedPermutes(xs: seq<int>, x: int, k: nat)
    requires k <= |xs|
    ensures multiset(xs[..k] + [x] + xs[k..]) == multiset(xs + [x])
  {
    assert xs == xs[..k] + xs[k..];
  }

  lemma HeadIsLeast(a: seq<int>, x: int)
    requires Ascending(a) && x in a
    ensures a[0] <= x
  {
  }

  lemma {:induction false} TailMultiset(a: seq<int>)
    requires a != []
    ensures multiset(a[1..]) == multiset(a) - multiset{a[0]}
  {
    assert a == [a[0]] + a[1..];
  }

  lemma {:induction false} SameHead(a: seq<int>, b: seq<int>)
    requires Ascending(a) && Ascending(b) && multiset(a) == multiset(b) && a != []
    ensures b != [] && a[0] == b[0]
  {
    assert a[0] in multiset(a);
    assert a[0] in multiset(b);
    assert b[0] in multiset(b);
    assert b[0] in multiset(a);
    HeadIsLeast(a, b[0]);
    HeadIsLeast(b, a[0]);
  }

  lemma {:induction false} SortedPermutationUnique(a: seq<int>, b: seq<int>)
    requires Ascending(a) && Ascending(b) && multiset(a) == multiset(b)
    ensures a == b
    decreases |a|
  {
    if a == [] {
      assert |multiset(b)| == 0;
    } else {
      SameHead(a, b);
      TailMultiset(a);
      TailMultiset(b);
      SortedPermutationUnique(a[1..], b[1..]);
      assert a == [a[0]] + a[1..] && b == [b[0]] + b[1..];
    }
  }
}
