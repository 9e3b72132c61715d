/**
 The Mann-Whitney U statistic with ties (internal/analysis/statistics.go:123-172).
 Average ranks are half-integers, so ranks, rank sums and U are kept doubled.
 The independent reference is a count over all cross pairs.
 */
module PairCounts {
  import opened Sums

  // ----- pair counts -----

  /** Twice a pair's contribution: 2 if x is larger, 1 for a tie, 0 otherwise. */
  function Score(x: real, y: real): int {
    if x > y then 2 else if x == y then 1 else 0
  }

  function Beats(x: real): real -> int {
    y => Score(x, y)
  }

  function BeatenBy(y: real): real -> int {
    x => Score(x, y)
  }

  function RowScore(x: real, ys: seq<real>): int {
    Sum(ys, Beats(x))
  }

  function Row(ys: seq<real>): real -> int {
    x => RowScore(x, ys)
  }

  /** Twice the number of pairs in which xs is larger, plus the number of ties. */
  function PairScore(xs: seq<real>, ys: seq<real>): int {
    Sum(xs, Row(ys))
  }

  lemma {:induction false} RowAppend(x: real, a: seq<real>, b: seq<real>)
    ensures RowScore(x, a + b) == RowScore(x, a) + RowScore(x, b)
  {
    SumAppend(a, b, Beats(x));
  }

  /** Splitting the second sample into its first value and the rest. */
  lemma {:induction false} PairColumns(xs: seq<real>, y: real, ys: seq<real>)
    ensures PairScore(xs, [y] + ys) == Sum(xs, BeatenBy(y)) + PairScore(xs, ys)
  {
    forall x | x in xs ensures BeatenBy(y)(x) + Row(ys)(x) == Row([y] + ys)(x) {
      RowAppend(x, [y], ys);
      SumSingle(y, Beats(x));
    }
    SumPointwise(xs, BeatenBy(y), Row(ys), Row([y] + ys));
  }

  lemma {:induction false} PairSecondAppend(xs: seq<real>, a: seq<real>, b: seq<real>)
    ensures PairScore(xs, a + b) == PairScore(xs, a) + PairScore(xs, b)
  {
    forall x | x in xs ensures Row(a)(x) + Row(b)(x) == Row(a + b)(x) {
      RowAppend(x, a, b);
    }
    SumPointwise(xs, Row(a), Row(b), Row(a + b));
  }

  /** Every cross pair contributes 2 in all, split between the two directions. */
  lemma {:induction false} PairComplement(xs: seq<real>, ys: seq<real>)
    ensures PairScore(xs, ys) + PairScore(ys, xs) == 2 * |xs| * |ys|
  {
    if xs == [] {
      forall y | y in ys ensures Row(xs)(y) == 0 {
      }
      SumConstant(ys, Row(xs), 0);
    } else {
      PairComplement(xs[1..], ys);
      assert xs == [xs[0]] + xs[1..];
      PairColumns(ys, xs[0], xs[1..]);
      RowComplement(xs[0], ys);
      assert 2 * |xs| * |ys| == 2 * |xs[1..]| * |ys| + 2 * |ys|;
    }
  }

  lemma {:induction false} RowComplement(x: real, ys: seq<real>)
    ensures RowScore(x, ys) + Sum(ys, BeatenBy(x)) == 2 * |ys|
  {
    if ys != [] {
      RowComplement(x, ys[1..]);
    }
  }

  lemma {:induction false} PairPermutation(xs: seq<real>, xs': seq<real>, ys: seq<real>, ys': seq<real>)
    requires multiset(xs) == multiset(xs') && multiset(ys) == multiset(ys')
    ensures PairScore(xs, ys) == PairScore(xs', ys')
  {
    SumPermutation(xs, xs', Row(ys));
    forall x | x in xs' ensures Row(ys)(x) == Row(ys')(x) {
      SumPermutation(ys, ys', Beats(x));
    }
    SumSame(xs', Row(ys), Row(ys'));
  }

  lemma {:induction false} PairNonNegative(xs: seq<real>, ys: seq<real>)
    ensures PairScore(xs, ys) >= 0
  {
    if xs != [] {
      RowNonNegative(xs[0], ys);
      PairNonNegative(xs[1..], ys);
    }
  }

  lemma {:induction false} RowNonNegative(x: real, ys: seq<real>)
    ensures RowScore(x, ys) >= 0
  {
    if ys != [] {
      RowNonNegative(x, ys[1..]);
    }
  }
}

module MannWhitney {
  import opened Wrappers
  import opened Sums
  import opened PairCounts

  datatype Entry = Entry(value: real, group: int)

  function Values(es: seq<Entry>): (r: seq<real>)
    ensures |r| == |es| && forall i :: 0 <= i < |es| ==> r[i] == es[i].value
  {
    seq(|es|, i requires 0 <= i < |es| => es[i].value)
  }

  function Tagged(xs: seq<real>, group: int): (r: seq<Entry>)
    ensures |r| == |xs| && forall i :: 0 <= i < |xs| ==> r[i] == Entry(xs[i], group)
  {
    seq(|xs|, i requires 0 <= i < |xs| => Entry(xs[i], group))
  }

  ghost predicate ByValue(es: seq<Entry>) {
    forall i, j :: 0 <= i < j < |es| ==> es[i].value <= es[j].value
  }

  /** Twice the average rank of a value among all values. */
  function DoubleRank(x: real, all: seq<real>): int {
    1 + RowScore(x, all)
  }

  /** What an entry adds to the doubled rank sum of group 1. */
  function Contribution(all: seq<real>): Entry -> int {
    (e: Entry) => if e.group == 1 then DoubleRank(e.value, all) else 0
  }

  /** Doubled U: the smaller of the two pair counts. */
  function DoubleU(xs: seq<real>, ys: seq<real>): int {
    Min(PairScore(xs, ys), PairScore(ys, xs))
  }

  // ----- sort.Slice: some sorted permutation -----

  method SortByValue(es: seq<Entry>) returns (r: seq<Entry>)
    ensures ByValue(r) && multiset(r) == multiset(es)
  {
    hide ByValue;
    r := [];
    NothingByValue();
    for i := 0 to |es|
      invariant ByValue(r) && multiset(r) == multiset(es[..i])
    {
      assert es[..i + 1] == es[..i] + [es[i]];
      r := InsertByValue(r, es[i]);
    }
    assert es[..|es|] == es;
  }

  lemma NothingByValue()
    ensures ByValue([])
  {
  }

  method InsertByValue(sorted: seq<Entry>, e: Entry) returns (r: seq<Entry>)
    requires ByValue(sorted)
    ensures ByValue(r) && multiset(r) == multiset(sorted) + multiset{e}
  {
    hide ByValue;
    var k := |sorted|;
    while k > 0 && sorted[k - 1].value > e.value
      invariant 0 <= k <= |sorted|
      invariant forall j :: k <= j < |sorted| ==> sorted[j].value > e.value
    {
      k := k - 1;
    }
    Inserted(sorted, e, k);
    r := sorted[..k] + [e] + sorted[k..];
  }

  lemma {:induction false} Inserted(r: seq<Entry>, e: Entry, k: nat)
    requires ByValue(r) && k <= |r|
    requires k > 0 ==> r[k - 1].value <= e.value
    requires forall j :: k <= j < |r| ==> r[j].value > e.value
    ensures ByValue(r[..k] + [e] + r[k..])
    ensures multiset(r[..k] + [e] + r[k..]) == multiset(r) + multiset{e}
  {
    hide ByValue;
    InsertedInOrder(r, e, k);
    assert r == r[..k] + r[k..];
  }

  lemma {:induction false} InsertedInOrder(r: seq<Entry>, e: Entry, k: nat)
    requires ByValue(r) && k <= |r|
    requires k > 0 ==> r[k - 1].value <= e.value
    requires forall j :: k <= j < |r| ==> r[j].value > e.value
    ensures ByValue(r[..k] + [e] + r[k..])
  {
    var s := r[..k] + [e] + r[k..];
    forall i, j | 0 <= i < j < |s| ensures s[i].value <= s[j].value {
      assert s[i] == if i < k then r[i] else if i == k then e else r[i - 1];
      assert s[j] == if j < k then r[j] else if j == k then e else r[j - 1];
    }
  }

  // ----- tie runs -----

  /** In a sorted sequence a tie run i..j fixes the pair count of its value. */
  lemma {:induction false} TieRunScore(es: seq<Entry>, i: nat, j: nat)
    requires ByValue(es) && i <= j < |es|
    requires i > 0 ==> es[i - 1].value < es[i].value
    requires j + 1 < |es| ==> es[j + 1].value != es[i].value
    requires forall k :: i <= k <= j ==> es[k].value == es[i].value
    ensures DoubleRank(es[i].value, Values(es)) == (i + 1) + (j + 1)
  {
    hide ByValue;
    hide RowScore;
    hide Values;
    hide Score;
    var v, x := Values(es), es[i].value;
    TieSlices(es, i, j);
    assert v == v[0..i] + (v[i..j + 1] + v[j + 1..|v|]);
    RowAppend(x, v[0..i], v[i..j + 1] + v[j + 1..|v|]);
    RowAppend(x, v[i..j + 1], v[j + 1..|v|]);
  }

  /** Everything before the run is smaller, everything in it ties, everything after it is larger. */
  lemma {:induction false} TieSlices(es: seq<Entry>, i: nat, j: nat)
    requires ByValue(es) && i <= j < |es|
    requires i > 0 ==> es[i - 1].value < es[i].value
    requires j + 1 < |es| ==> es[j + 1].value != es[i].value
    requires forall k :: i <= k <= j ==> es[k].value == es[i].value
    ensures var v, x := Values(es), es[i].value;
            RowScore(x, v[0..i]) == 2 * i && RowScore(x, v[i..j + 1]) == j + 1 - i && RowScore(x, v[j + 1..|v|]) == 0
  {
    hide ByValue;
    hide RowScore;
    var v, x := Values(es), es[i].value;
    RunBounds(es, i, j);
    UniformSlice(v, 0, i, x, 2);
    UniformSlice(v, i, j + 1, x, 1);
    UniformSlice(v, j + 1, |v|, x, 0);
  }

  lemma {:induction false} RunBounds(es: seq<Entry>, i: nat, j: nat)
    requires ByValue(es) && i <= j < |es| && es[j].value == es[i].value
    requires i > 0 ==> es[i - 1].value < es[i].value
    requires j + 1 < |es| ==> es[j + 1].value != es[i].value
    ensures forall k :: 0 <= k < i ==> es[k].value < es[i].value
    ensures forall k :: j < k < |es| ==> es[k].value > es[i].value
  {
    forall k | 0 <= k < i ensures es[k].value < es[i].value {
      assert k < i - 1 ==> es[k].value <= es[i - 1].value;
    }
    forall k | j < k < |es| ensures es[k].value > es[i].value {
      assert es[j].value <= es[j + 1].value;
      assert k > j + 1 ==> es[j + 1].value <= es[k].value;
    }
  }

  lemma {:induction false} UniformSlice(v: seq<real>, lo: nat, hi: nat, x: real, score: int)
    requires lo <= hi <= |v| && forall k :: lo <= k < hi ==> Score(x, v[k]) == score
    ensures RowScore(x, v[lo..hi]) == score * (hi - lo)
  {
    var ys := v[lo..hi];
    forall y | y in ys ensures Beats(x)(y) == score {
      var k :| 0 <= k < |ys| && ys[k] == y;
      assert y == v[lo + k];
    }
    SumConstant(ys, Beats(x), score);
  }

  method AssignRanks(combined: seq<Entry>) returns (result: seq<int>)
    requires ByValue(combined)
    ensures |result| == |combined|
    ensures forall k :: 0 <= k < |combined| ==> result[k] == DoubleRank(combined[k].value, Values(combined))
  {
    hide DoubleRank;
    var ranks := new int[|combined|];
    var i := 0;
    while i < |combined|
      invariant 0 <= i <= |combined|
      invariant 0 < i < |combined| ==> combined[i - 1].value < combined[i].value
      invariant forall k :: 0 <= k < i ==> ranks[k] == DoubleRank(combined[k].value, Values(combined))
    {
      var j := i;
      while j + 1 < |combined| && combined[j + 1].value == combined[i].value
        invariant i <= j < |combined|
        invariant forall k :: i <= k <= j ==> combined[k].value == combined[i].value
      {
        j := j + 1;
      }
      TieRunScore(combined, i, j);
      var doubled := (i + 1) + (j + 1);
      for k := i to j + 1
        invariant forall m :: 0 <= m < i ==> ranks[m] == DoubleRank(combined[m].value, Values(combined))
        invariant forall m :: i <= m < k ==> ranks[m] == doubled
      {
        ranks[k] := doubled;
      }
      i := j + 1;
    }
    result := ranks[..];
  }

  // ----- the two-sided p-value -----

  /** What the source needs of math.Sqrt. */
  ghost predicate PositiveRoots(sqrt: real -> real) {
    forall x: real :: x > 0.0 ==> sqrt(x) > 0.0
  }

  function Half(n: int): real {
    n as real / 2.0
  }

  function Clamp(x: real): real {
    if x > 1.0 then 1.0 else if x < 0.0 then 0.0 else x
  }

  /** Distance of U from its mean, less the continuity correction. */
  function Deviation(u: real, n1: nat, n2: nat): real {
    var gap := u - Half(n1 * n2);
    var diff := (if gap < 0.0 then -gap else gap) - 0.5;
    if diff < 0.0 then 0.0 else diff
  }

  function Variance(n1: nat, n2: nat): real {
    (n1 * n2 * (n1 + n2 + 1)) as real / 12.0
  }

  /** The normal approximation, with the source's square root and standard normal distribution function. */
  function PValue(u: real, n1: nat, n2: nat, sqrt: real -> real, phi: real -> real): real
    requires PositiveRoots(sqrt)
  {
    if Variance(n1, n2) <= 0.0 then 1.0
    else Clamp(2.0 * (1.0 - phi(Deviation(u, n1, n2) / sqrt(Variance(n1, n2)))))
  }

  /** Empty groups have no variance. */
  lemma {:induction false} NoVariance(n1: nat, n2: nat)
    ensures Variance(n1, n2) > 0.0 <==> n1 > 0 && n2 > 0
  {
    if n1 > 0 && n2 > 0 {
      assert n1 * n2 > 0;
      assert n1 * n2 * (n1 + n2 + 1) > 0;
    } else {
      assert n1 * n2 == 0;
    }
  }

  /** The U statistic, doubled, and its p-value. */
  method MannWhitneyU(group1: seq<real>, group2: seq<real>, sqrt: real -> real, phi: real -> real)
    returns (u: int, pValue: real)
    requires PositiveRoots(sqrt)
    ensures group1 == [] || group2 == [] ==> u == 0 && pValue == 1.0
    ensures u == DoubleU(group1, group2)
    ensures pValue == PValue(Half(u), |group1|, |group2|, sqrt, phi)
  {
    var n1, n2 := |group1|, |group2|;
    NoVariance(n1, n2);
    if n1 == 0 || n2 == 0 {
      EmptyGroup(group1, group2);
      return 0, 1.0;
    }
    var combined := Combine(group1, group2);
    ghost var unsorted := combined;
    combined := SortByValue(combined);
    var ranks := AssignRanks(combined);
    var r1 := RankSum(combined, ranks);
    RankSumCounts(group1, group2, combined);
    var u1 := r1 - n1 * (n1 + 1);
    var u2 := 2 * n1 * n2 - u1;
    PairComplement(group1, group2);
    u := Min(u1, u2);
    pValue := TwoSided(Half(u), n1, n2, sqrt, phi);
  }

  method TwoSided(u: real, n1: nat, n2: nat, sqrt: real -> real, phi: real -> real) returns (pValue: real)
    requires PositiveRoots(sqrt)
    ensures pValue == PValue(u, n1, n2, sqrt, phi)
  {
    hide Variance;
    var meanU, varU := Half(n1 * n2), Variance(n1, n2);
    if varU <= 0.0 {
      return 1.0;
    }
    var diff := (if u - meanU < 0.0 then -(u - meanU) else u - meanU) - 0.5;
    if diff < 0.0 {
      diff := 0.0;
    }
    var z := diff / sqrt(varU);
    pValue := 2.0 * (1.0 - phi(z));
    if pValue > 1.0 {
      pValue := 1.0;
    }
    if pValue < 0.0 {
      pValue := 0.0;
    }
  }

  method Combine(group1: seq<real>, group2: seq<real>) returns (combined: seq<Entry>)
    ensures combined == Tagged(group1, 1) + Tagged(group2, 2)
  {
    combined := [];
    for i := 0 to |group1|
      invariant combined == Tagged(group1, 1)[..i]
    {
      combined := combined + [Entry(group1[i], 1)];
    }
    for i := 0 to |group2|
      invariant combined == Tagged(group1, 1) + Tagged(group2, 2)[..i]
    {
      combined := combined + [Entry(group2[i], 2)];
    }
  }

  /** The sum of the doubled ranks of group 1. */
  method RankSum(combined: seq<Entry>, ranks: seq<int>) returns (r1: int)
    requires |ranks| == |combined|
    requires forall k :: 0 <= k < |combined| ==> ranks[k] == DoubleRank(combined[k].value, Values(combined))
    ensures r1 == Sum(combined, Contribution(Values(combined)))
  {
    hide DoubleRank;
    r1 := 0;
    ghost var f := Contribution(Values(combined));
    for k := 0 to |combined|
      invariant r1 == Sum(combined[..k], f)
    {
      assert combined[..k + 1] == combined[..k] + [combined[k]];
      SumAppend(combined[..k], [combined[k]], f);
      SumSingle(combined[k], f);
      if combined[k].group == 1 {
        r1 := r1 + ranks[k];
      }
    }
    assert combined[..|combined|] == combined;
  }

  // ----- the rank sum is a pair count -----

  lemma {:induction false} EmptyGroup(xs: seq<real>, ys: seq<real>)
    requires xs == [] || ys == []
    ensures DoubleU(xs, ys) == 0
  {
    PairComplement(xs, ys);
    PairNonNegative(xs, ys);
    PairNonNegative(ys, xs);
  }

  function BeatsEntry(x: real): Entry -> int {
    (e: Entry) => Score(x, e.value)
  }

  lemma {:induction false} RowOfEntries(es: seq<Entry>, x: real)
    ensures RowScore(x, Values(es)) == Sum(es, BeatsEntry(x))
  {
    if es != [] {
      RowOfEntries(es[1..], x);
      assert Values(es)[1..] == Values(es[1..]);
    }
  }

  lemma {:induction false} GroupContributions(xs: seq<real>, all: seq<real>)
    ensures Sum(Tagged(xs, 1), Contribution(all)) == |xs| + PairScore(xs, all)
    ensures Sum(Tagged(xs, 2), Contribution(all)) == 0
  {
    if xs != [] {
      GroupContributions(xs[1..], all);
      assert Tagged(xs, 1)[1..] == Tagged(xs[1..], 1);
      assert Tagged(xs, 2)[1..] == Tagged(xs[1..], 2);
    }
  }

  /** Whatever order sort.Slice leaves equal values in, the rank sum minus its minimum is the pair count. */
  lemma {:induction false} RankSumCounts(g1: seq<real>, g2: seq<real>, sorted: seq<Entry>)
    requires multiset(sorted) == multiset(Tagged(g1, 1) + Tagged(g2, 2))
    ensures Sum(sorted, Contribution(Values(sorted))) - |g1| * (|g1| + 1) == PairScore(g1, g2)
  {
    hide Sum;
    hide Score;
    var combined, all := Tagged(g1, 1) + Tagged(g2, 2), g1 + g2;
    assert Values(combined) == all;
    forall e | e in sorted ensures Contribution(Values(sorted))(e) == Contribution(all)(e) {
      RowOfEntries(sorted, e.value);
      RowOfEntries(combined, e.value);
      SumPermutation(sorted, combined, BeatsEntry(e.value));
    }
    SumSame(sorted, Contribution(Values(sorted)), Contribution(all));
    SumPermutation(sorted, combined, Contribution(all));
    SumAppend(Tagged(g1, 1), Tagged(g2, 2), Contribution(all));
    GroupContributions(g1, all);
    GroupContributions(g2, all);
    PairSecondAppend(g1, g1, g2);
    PairComplement(g1, g1);
  }

  /** All doubled ranks sum to N(N+1). */
  lemma {:induction false} RanksSum(values: seq<real>)
    ensures Sum(values, (x: real) => DoubleRank(x, values)) == |values| * (|values| + 1)
  {
    var one, rank := (x: real) => 1, (x: real) => DoubleRank(x, values);
    SumConstant(values, one, 1);
    SumPointwise(values, one, Row(values), rank);
    PairComplement(values, values);
  }

  /** 0 <= U <= n1*n2/2; U does not depend on the order of either sample or on which comes first. */
  lemma {:induction false} UProperties(xs: seq<real>, ys: seq<real>, xs': seq<real>, ys': seq<real>)
    requires multiset(xs) == multiset(xs') && multiset(ys) == multiset(ys')
    ensures 0 <= DoubleU(xs, ys) <= |xs| * |ys|
    ensures DoubleU(xs, ys) == DoubleU(xs', ys') == DoubleU(ys', xs')
  {
    PairNonNegative(xs, ys);
    PairNonNegative(ys, xs);
    PairComplement(xs, ys);
    PairPermutation(xs, xs', ys, ys');
    PairPermutation(ys, ys', xs, xs');
  }

  ghost predicate Nondecreasing(phi: real -> real) {
    forall x: real, y: real :: x <= y ==> phi(x) <= phi(y)
  }

  /**
   The p-value is a probability, it is the same for either order of the samples and of
   the groups, and for a nondecreasing distribution function a smaller U is never less
   significant.
   */
  lemma {:induction false} PProperties(xs: seq<real>, ys: seq<real>, xs': seq<real>, ys': seq<real>, v: real,
                                       sqrt: real -> real, phi: real -> real)
    requires PositiveRoots(sqrt) && multiset(xs) == multiset(xs') && multiset(ys) == multiset(ys')
    ensures var u := Half(DoubleU(xs, ys)); var n1, n2 := |xs|, |ys|; var p := PValue(u, n1, n2, sqrt, phi);
            && 0.0 <= p <= 1.0
            && p == PValue(Half(DoubleU(xs', ys')), |xs'|, |ys'|, sqrt, phi) == PValue(Half(DoubleU(ys', xs')), |ys'|, |xs'|, sqrt, phi)
            && (Nondecreasing(phi) && u <= v <= Half(n1 * n2) ==> p <= PValue(v, n1, n2, sqrt, phi))
  {
    hide DoubleU;
    hide Variance;
    hide Deviation;
    var n1, n2 := |xs|, |ys|;
    UProperties(xs, ys, xs', ys');
    assert |xs| == |multiset(xs)| == |xs'| && |ys| == |multiset(ys)| == |ys'|;
    var u := Half(DoubleU(xs, ys));
    Symmetric(u, n1, n2);
    if Nondecreasing(phi) && u <= v <= Half(n1 * n2) && Variance(n1, n2) > 0.0 {
      Significance(u, v, n1, n2, sqrt(Variance(n1, n2)), phi);
    }
  }

  lemma {:induction false} Symmetric(u: real, n1: nat, n2: nat)
    ensures Variance(n1, n2) == Variance(n2, n1) && Deviation(u, n1, n2) == Deviation(u, n2, n1)
  {
    assert n1 * n2 == n2 * n1;
  }

  lemma {:induction false} Significance(u: real, v: real, n1: nat, n2: nat, root: real, phi: real -> real)
    requires Nondecreasing(phi) && root > 0.0 && u <= v <= Half(n1 * n2)
    ensures Clamp(2.0 * (1.0 - phi(Deviation(u, n1, n2) / root))) <= Clamp(2.0 * (1.0 - phi(Deviation(v, n1, n2) / root)))
  {
    var a, b := Deviation(v, n1, n2), Deviation(u, n1, n2);
    assert a <= b;
    Divide(a, b, root);
    assert phi(a / root) <= phi(b / root);
  }

  lemma Divide(a: real, b: real, root: real)
    requires root > 0.0 && a <= b
    ensures a / root <= b / root
  {
  }

  /** Half a step or less from the mean counts as no deviation; anything further is measured from half a step away. */
  ghost predicate Corrected(u: real, n1: nat, n2: nat, d: real) {
    var mean := (n1 * n2) as real / 2.0;
    if mean - 0.5 <= u <= mean + 0.5 then d == 0.0 else if u > mean then d == u - mean - 0.5 else d == mean - u - 0.5
  }

  /**
   The p-value of nonempty groups: twice the upper tail beyond z, cut to a probability, where z
   is the corrected deviation in units of the standard deviation. With a distribution function
   that gives zero a half, a U within half a step of its mean has the p-value 1.
   */
  lemma {:induction false} PExact(u: real, n1: nat, n2: nat, sqrt: real -> real, phi: real -> real, d: real, z: real)
    requires PositiveRoots(sqrt) && n1 > 0 && n2 > 0
    requires var v := Variance(n1, n2); sqrt(v) * sqrt(v) == v && z >= 0.0 && z * z * v == d * d
    requires Corrected(u, n1, n2, d)
    ensures var p, tails := PValue(u, n1, n2, sqrt, phi), 2.0 * (1.0 - phi(z));
            && p == (if tails > 1.0 then 1.0 else if tails < 0.0 then 0.0 else tails)
            && (d == 0.0 && phi(0.0) == 0.5 ==> p == 1.0)
  {
    NoVariance(n1, n2);
    hide Variance;
    var root := sqrt(Variance(n1, n2));
    assert d == Deviation(u, n1, n2) && d >= 0.0;
    RootQuotient(d, root, z);
    assert d == 0.0 ==> d / root == 0.0;
  }

  lemma {:induction false} RootQuotient(d: real, root: real, z: real)
    requires d >= 0.0 && z >= 0.0 && root > 0.0 && z * z * (root * root) == d * d
    ensures z == d / root
  {
    var x := z * root;
    assert x * x == d * d;
    assert (x - d) * (x + d) == 0.0;
    assert x != d ==> x + d > 0.0;
  }
}
