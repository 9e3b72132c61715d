/**
 Where the normal approximation's mean and variance come from
 (internal/analysis/statistics.go:174-193): U over all ways to split n1 + n2 distinct ranks
 into two groups of n1 and n2.
 */
module RankSplits {
  import opened Wrappers
  import opened Sums
  import opened PairCounts
  import opened MannWhitney

  /** A split says of each rank, from the lowest up, whether group 1 has it. */
  type Split = seq<bool>

  function Has(w: Split, group1: bool): nat {
    if w == [] then 0 else Has(w[..|w| - 1], group1) + (if w[|w| - 1] == group1 then 1 else 0)
  }

  /** The ranks of one group. */
  function RanksOf(w: Split, group1: bool): seq<real> {
    if w == [] then [] else RanksOf(w[..|w| - 1], group1) + (if w[|w| - 1] == group1 then [|w| as real] else [])
  }

  /** Twice the number of pairs that group 1 wins. */
  function TwiceU(w: Split): int {
    PairScore(RanksOf(w, true), RanksOf(w, false))
  }

  function Extend(ws: seq<Split>, group1: bool): (r: seq<Split>)
    ensures |r| == |ws| && forall i :: 0 <= i < |ws| ==> r[i] == ws[i] + [group1]
  {
    seq(|ws|, i requires 0 <= i < |ws| => ws[i] + [group1])
  }

  /** All splits of a + b ranks: the highest rank is in one group or in the other. */
  function Splits(a: int, b: int): seq<Split>
    decreases a + b + 2
  {
    if a < 0 || b < 0 then []
    else if a == 0 && b == 0 then [[]]
    else Extend(Splits(a - 1, b), true) + Extend(Splits(a, b - 1), false)
  }

  // ----- the list of splits is complete and without repetition -----

  lemma {:induction false} SplitsExact(a: int, b: int, w: Split)
    ensures w in Splits(a, b) <==> Has(w, true) == a && Has(w, false) == b
    decreases |w|
  {
    if w == [] {
      EmptyIn(a, b);
    } else {
      var init, last := w[..|w| - 1], w[|w| - 1];
      SplitsExact(a - 1, b, init);
      SplitsExact(a, b - 1, init);
      LastRank(a, b, w);
      HasInit(w, true);
      HasInit(w, false);
    }
  }

  lemma {:induction false} EmptyIn(a: int, b: int)
    ensures [] in Splits(a, b) <==> a == 0 && b == 0
  {
    if a >= 0 && b >= 0 && !(a == 0 && b == 0) {
      var s, t := Extend(Splits(a - 1, b), true), Extend(Splits(a, b - 1), false);
      assert [] !in s && [] !in t;
    }
  }

  lemma HasInit(w: Split, group1: bool)
    requires w != []
    ensures Has(w, group1) == Has(w[..|w| - 1], group1) + (if w[|w| - 1] == group1 then 1 else 0)
  {
  }

  lemma {:induction false} LastRank(a: int, b: int, w: Split)
    requires w != []
    ensures w in Splits(a, b) <==>
              && a >= 0 && b >= 0
              && w[..|w| - 1] in (if w[|w| - 1] then Splits(a - 1, b) else Splits(a, b - 1))
  {
    if a >= 0 && b >= 0 {
      var s, t := Splits(a - 1, b), Splits(a, b - 1);
      ExtendMembers(s, true, w);
      ExtendMembers(t, false, w);
      if a == 0 && b == 0 {
        assert s == [] && t == [];
      } else {
        assert Splits(a, b) == Extend(s, true) + Extend(t, false);
      }
    }
  }

  lemma {:induction false} HasAll(w: Split)
    ensures Has(w, true) + Has(w, false) == |w|
  {
    if w != [] {
      HasAll(w[..|w| - 1]);
    }
  }

  lemma {:induction false} ExtendMembers(ws: seq<Split>, group1: bool, w: Split)
    requires w != []
    ensures w in Extend(ws, group1) <==> w[|w| - 1] == group1 && w[..|w| - 1] in ws
  {
    var r := Extend(ws, group1);
    if w in r {
      var i :| 0 <= i < |r| && r[i] == w;
      assert ws[i] == w[..|w| - 1];
    }
    if w[|w| - 1] == group1 && w[..|w| - 1] in ws {
      var i :| 0 <= i < |ws| && ws[i] == w[..|w| - 1];
      assert r[i] == w;
    }
  }

  lemma {:induction false} SplitsDistinct(a: int, b: int, i: nat, j: nat)
    requires i < j < |Splits(a, b)|
    ensures Splits(a, b)[i] != Splits(a, b)[j]
    decreases a + b + 2
  {
    if !(a == 0 && b == 0) {
      var s, t := Splits(a - 1, b), Splits(a, b - 1);
      assert Splits(a, b) == Extend(s, true) + Extend(t, false);
      if j < |s| {
        SplitsDistinct(a - 1, b, i, j);
        LastDiffers(s[i], true, s[j], true);
      } else if i >= |s| {
        SplitsDistinct(a, b - 1, i - |s|, j - |s|);
        LastDiffers(t[i - |s|], false, t[j - |s|], false);
      } else {
        LastDiffers(s[i], true, t[j - |s|], false);
      }
    }
  }

  lemma {:induction false} LastDiffers(v: Split, g: bool, w: Split, h: bool)
    ensures v + [g] == w + [h] <==> v == w && g == h
  {
    assert (v + [g])[..|v|] == v && (w + [h])[..|w|] == w;
    assert (v + [g])[|v|] == g && (w + [h])[|w|] == h;
  }

  // ----- how many there are -----

  lemma {:induction false} SplitCount(a: int, b: int)
    requires a >= 0 && b >= 0
    ensures |Splits(a, b)| > 0
    ensures !(a == 0 && b == 0) ==> |Splits(a, b)| == |Splits(a - 1, b)| + |Splits(a, b - 1)|
    decreases a + b
  {
    if a > 0 {
      SplitCount(a - 1, b);
    } else if b > 0 {
      SplitCount(a, b - 1);
    }
  }

  /** b times the splits with the highest rank in group 1 is a times those with it in group 2. */
  lemma {:induction false} Absorption(a: int, b: int)
    requires a >= 0 && b >= 0
    ensures b * |Splits(a - 1, b)| == a * |Splits(a, b - 1)|
    decreases a + b
  {
    if a > 0 && b > 0 {
      SplitCount(a - 1, b);
      SplitCount(a, b - 1);
      Absorption(a - 1, b);
      Absorption(a, b - 1);
      Absorb(a, b, |Splits(a - 2, b)|, |Splits(a - 1, b - 1)|, |Splits(a, b - 2)|);
    } else {
      NoSplits(a - 1, b);
      NoSplits(a, b - 1);
    }
  }

  lemma NoSplits(a: int, b: int)
    ensures a < 0 || b < 0 ==> |Splits(a, b)| == 0
  {
  }

  lemma Absorb(a: int, b: int, p: int, z: int, q: int)
    requires b * p == (a - 1) * z && (b - 1) * z == a * q
    ensures b * (p + z) == a * (z + q)
  {
  }

  // ----- one more rank -----

  lemma {:induction false} RanksBelow(w: Split, group1: bool)
    ensures |RanksOf(w, group1)| == Has(w, group1)
    ensures forall x :: x in RanksOf(w, group1) ==> x <= |w| as real
  {
    if w != [] {
      RanksBelow(w[..|w| - 1], group1);
    }
  }

  /** The highest rank wins against all of the other group, and none wins against it. */
  lemma {:induction false} HighestRank(w: Split, group1: bool)
    ensures TwiceU(w + [group1]) == TwiceU(w) + (if group1 then 2 * Has(w, false) else 0)
  {
    hide PairScore;
    var next := w + [group1];
    assert next[..|next| - 1] == w;
    var xs, ys, r := RanksOf(w, true), RanksOf(w, false), |next| as real;
    RanksBelow(w, true);
    RanksBelow(w, false);
    if group1 {
      assert RanksOf(next, true) == xs + [r] && RanksOf(next, false) == ys + [] == ys;
      TopWins(xs, ys, r);
    } else {
      assert RanksOf(next, true) == xs + [] == xs && RanksOf(next, false) == ys + [r];
      TopLoses(xs, ys, r);
    }
  }

  lemma {:induction false} TopWins(xs: seq<real>, ys: seq<real>, r: real)
    requires forall y :: y in ys ==> y < r
    ensures PairScore(xs + [r], ys) == PairScore(xs, ys) + 2 * |ys|
  {
    SumAppend(xs, [r], Row(ys));
    SumSingle(r, Row(ys));
    SumConstant(ys, Beats(r), 2);
  }

  lemma {:induction false} TopLoses(xs: seq<real>, ys: seq<real>, r: real)
    requires forall x :: x in xs ==> x < r
    ensures PairScore(xs, ys + [r]) == PairScore(xs, ys)
  {
    PairSecondAppend(xs, ys, [r]);
    forall x | x in xs ensures Row([r])(x) == 0 {
      SumSingle(r, Beats(x));
    }
    SumConstant(xs, Row([r]), 0);
  }

  // ----- the first two moments -----

  /** Twice the distance of U from m / 2. */
  function Off(m: int): Split -> int {
    w => TwiceU(w) - m
  }

  function Squared(m: int): Split -> int {
    w => (TwiceU(w) - m) * (TwiceU(w) - m)
  }

  lemma {:induction false} Shift(ws: seq<Split>, group1: bool, m: int, m': int, k: int)
    requires forall w :: w in ws ==> Off(m)(w + [group1]) == Off(m')(w) + k
    ensures Sum(Extend(ws, group1), Off(m)) == Sum(ws, Off(m')) + k * |ws|
    ensures Sum(Extend(ws, group1), Squared(m)) == Sum(ws, Squared(m')) + 2 * k * Sum(ws, Off(m')) + k * k * |ws|
  {
    hide TwiceU;
    if ws != [] {
      Shift(ws[1..], group1, m, m', k);
      assert Extend(ws, group1)[1..] == Extend(ws[1..], group1);
      var x, y := Off(m')(ws[0]), Off(m)(ws[0] + [group1]);
      SquareOfSum(x, k, y);
      Regroup(x, k, |ws[1..]|, Sum(ws[1..], Off(m')));
    }
  }

  lemma SquareOfSum(x: int, k: int, y: int)
    requires y == x + k
    ensures y * y == x * x + 2 * k * x + k * k
  {
  }

  lemma {:induction false} Regroup(x: int, k: int, n: int, s: int)
    ensures 2 * k * (x + s) == 2 * k * x + 2 * k * s
    ensures k * (n + 1) == k * n + k && k * k * (n + 1) == k * k * n + k * k
  {
  }

  /** Three times the sum of the squares, for each split of a + b ranks. */
  function Spread(a: int, b: int): int {
    a * b * (a + b + 1)
  }

  ghost predicate Centred(ws: seq<Split>, m: int, spread: int) {
    Sum(ws, Off(m)) == 0 && 3 * Sum(ws, Squared(m)) == |ws| * spread
  }

  /** Centred splits, extended by one rank that moves all of them by k. */
  ghost predicate Moved(ws: seq<Split>, group1: bool, m: int, spread: int, k: int) {
    && Sum(Extend(ws, group1), Off(m)) == k * |ws|
    && 3 * Sum(Extend(ws, group1), Squared(m)) == |ws| * spread + 3 * (k * k * |ws|)
  }

  lemma {:induction false} ShiftCentred(ws: seq<Split>, group1: bool, m: int, m': int, k: int, spread: int)
    requires forall w :: w in ws ==> Off(m)(w + [group1]) == Off(m')(w) + k
    requires Centred(ws, m', spread)
    ensures Moved(ws, group1, m, spread, k)
  {
    hide Off;
    hide Squared;
    hide Sum;
    Shift(ws, group1, m, m', k);
    assert 2 * k * 0 == 0;
  }

  lemma {:induction false} OffInFirst(a: int, b: int, w: Split)
    requires w in Splits(a - 1, b)
    ensures Off(a * b)(w + [true]) == Off((a - 1) * b)(w) + b
  {
    hide TwiceU;
    hide Splits;
    SplitsExact(a - 1, b, w);
    HighestRank(w, true);
    assert (a - 1) * b == a * b - b;
  }

  lemma {:induction false} OffInSecond(a: int, b: int, w: Split)
    ensures Off(a * b)(w + [false]) == Off(a * (b - 1))(w) - a
  {
    hide TwiceU;
    HighestRank(w, false);
    assert a * (b - 1) == a * b - a;
  }

  lemma {:induction false} Moments(a: int, b: int)
    requires a >= 0 && b >= 0
    ensures Centred(Splits(a, b), a * b, Spread(a, b))
    decreases a + b
  {
    hide Centred;
    hide Moved;
    hide Off;
    hide Squared;
    if a == 0 && b == 0 {
      EmptySplit();
    } else {
      hide Spread;
      var s, t, m := Splits(a - 1, b), Splits(a, b - 1), a * b;
      if a > 0 {
        Moments(a - 1, b);
        forall w | w in s ensures Off(m)(w + [true]) == Off((a - 1) * b)(w) + b {
          OffInFirst(a, b, w);
        }
        ShiftCentred(s, true, m, (a - 1) * b, b, Spread(a - 1, b));
      } else {
        NothingMoved(true, m, Spread(a - 1, b), b);
      }
      if b > 0 {
        Moments(a, b - 1);
        forall w | w in t ensures Off(m)(w + [false]) == Off(a * (b - 1))(w) - a {
          OffInSecond(a, b, w);
        }
        ShiftCentred(t, false, m, a * (b - 1), -a, Spread(a, b - 1));
      } else {
        NothingMoved(false, m, Spread(a, b - 1), -a);
      }
      assert Splits(a, b) == Extend(s, true) + Extend(t, false);
      Absorption(a, b);
      BothHalves(s, t, a, b);
    }
  }

  lemma NothingMoved(group1: bool, m: int, spread: int, k: int)
    ensures Moved([], group1, m, spread, k)
  {
  }

  lemma {:induction false} EmptySplit()
    ensures Centred([[]], 0, 0)
  {
    var none: Split := [];
    assert TwiceU(none) == 0;
    hide TwiceU;
    SumSingle(none, Off(0));
    SumSingle(none, Squared(0));
  }

  lemma {:induction false} BothHalves(s: seq<Split>, t: seq<Split>, a: int, b: int)
    requires Moved(s, true, a * b, Spread(a - 1, b), b) && Moved(t, false, a * b, Spread(a, b - 1), -a)
    requires b * |s| == a * |t|
    ensures Centred(Extend(s, true) + Extend(t, false), a * b, Spread(a, b))
  {
    hide Off;
    hide Squared;
    hide Sum;
    hide Spread;
    var m := a * b;
    SumAppend(Extend(s, true), Extend(t, false), Off(m));
    SumAppend(Extend(s, true), Extend(t, false), Squared(m));
    SecondMoment(a, b, |s|, |t|);
    Negated(a, |t|);
  }

  lemma Negated(a: int, y: int)
    ensures (-a) * y == -(a * y) && (-a) * (-a) * y == a * a * y
  {
  }

  /** The arithmetic of the second moment: x and y are the numbers of splits with the highest rank in either group. */
  lemma {:induction false} SecondMoment(a: int, b: int, x: int, y: int)
    requires b * x == a * y
    ensures x * Spread(a - 1, b) + 3 * (b * b * x) + (y * Spread(a, b - 1) + 3 * (a * a * y)) == (x + y) * Spread(a, b)
  {
    var p, u := b * x, a + b;
    assert a - 1 + b + 1 == u && a + (b - 1) + 1 == u;
    Rearrange(x, a - 1, b, u);
    Rearrange(y, b - 1, a, u);
    assert y * (a * (b - 1) * u) == y * ((b - 1) * a * u);
    assert b * b * x == b * p && a * a * y == a * p by {
      Rearrange(x, b, b, 1);
      Rearrange(y, a, a, 1);
    }
    WithBoth(x, y, a, b, u + 1);
    Gather(a, b, p, u);
  }

  lemma Rearrange(x: int, k: int, b: int, u: int)
    ensures x * (k * b * u) == (k * u) * (b * x)
  {
  }

  lemma WithBoth(x: int, y: int, a: int, b: int, v: int)
    requires b * x == a * y
    ensures (x + y) * (a * b * v) == (b * x) * ((a + b) * v)
  {
  }

  lemma Gather(a: int, b: int, p: int, u: int)
    requires u == a + b
    ensures ((a - 1) * u) * p + 3 * (b * p) + ((b - 1) * u) * p + 3 * (a * p) == p * (u * (u + 1))
  {
  }

  /**
   The mean and the variance that the p-value is computed with are those of U over all splits of
   n1 + n2 distinct ranks: U deviates from n1 * n2 / 2 by nothing on average, and by the variance
   in the mean square.
   */
  lemma {:induction false} VarianceOfU(n1: nat, n2: nat)
    ensures var ws := Splits(n1, n2);
            && |ws| > 0
            && Sum(ws, Off(n1 * n2)) == 0
            && Sum(ws, Squared(n1 * n2)) as real == 4.0 * Variance(n1, n2) * |ws| as real
  {
    hide Splits;
    hide Sum;
    hide Off;
    hide Squared;
    SplitCount(n1, n2);
    Moments(n1, n2);
    ToReal(|Splits(n1, n2)|, Spread(n1, n2), Sum(Splits(n1, n2), Squared(n1 * n2)));
  }

  lemma ToReal(c: int, m: int, q: int)
    requires 3 * q == c * m
    ensures q as real == 4.0 * (m as real / 12.0) * c as real
  {
  }
}
