/**
 The bitrate ladder and the buffer-based selection rule
 (internal/video/manifest.go, abr_buffer.go, abr_throughput.go:71-93).
 Buffer levels are nanoseconds; the interpolation is exact integer division.
 */
module Ladder {
  import opened Wrappers
  import opened Sums
  import opened Sorting

  datatype Representation = Representation(bitrateKbps: nat, segmentSizes: seq<nat>)

  datatype Manifest = Manifest(segmentDuration: nat, totalSegments: nat, representations: seq<Representation>)

  function Rungs(m: Manifest): (r: seq<nat>)
    ensures |r| == |m.representations| && forall i :: 0 <= i < |r| ==> r[i] == m.representations[i].bitrateKbps
  {
    seq(|m.representations|, i requires 0 <= i < |m.representations| => m.representations[i].bitrateKbps)
  }

  // ----- extremes, and extremes of part of a ladder -----

  predicate IsMax(xs: seq<nat>, x: nat) {
    x in xs && forall y :: y in xs ==> y <= x
  }

  predicate IsMin(xs: seq<nat>, x: nat) {
    x in xs && forall y :: y in xs ==> x <= y
  }

  /** 0 for an empty ladder, as the source has it. */
  function Highest(xs: seq<nat>): (r: nat)
    ensures if xs == [] then r == 0 else IsMax(xs, r)
  {
    assert xs != [] ==> forall y :: y in xs <==> y == xs[0] || y in xs[1..];
    if |xs| == 0 then 0 else if |xs| == 1 then xs[0] else Max(xs[0], Highest(xs[1..]))
  }

  function Lowest(xs: seq<nat>): (r: nat)
    ensures if xs == [] then r == 0 else IsMin(xs, r)
  {
    assert xs != [] ==> forall y :: y in xs <==> y == xs[0] || y in xs[1..];
    if |xs| == 0 then 0 else if |xs| == 1 then xs[0] else Min(xs[0], Lowest(xs[1..]))
  }

  /** The rungs at most, strictly below, strictly above a value. */
  function AtMost(xs: seq<nat>, t: int): (r: seq<nat>)
    ensures forall x :: x in r <==> x in xs && x <= t
  {
    if xs == [] then [] else (if xs[0] <= t then [xs[0]] else []) + AtMost(xs[1..], t)
  }

  function Over(xs: seq<nat>, t: int): (r: seq<nat>)
    ensures forall x :: x in r <==> x in xs && x > t
  {
    if xs == [] then [] else (if xs[0] > t then [xs[0]] else []) + Over(xs[1..], t)
  }

  /** The largest rung that does not exceed the target, or the lowest rung. */
  function Closest(xs: seq<nat>, target: int): nat {
    if AtMost(xs, target) == [] then Lowest(xs) else Highest(AtMost(xs, target))
  }

  function LevelBelow(xs: seq<nat>, current: nat): nat {
    if AtMost(xs, current - 1) == [] then current else Highest(AtMost(xs, current - 1))
  }

  function LevelAbove(xs: seq<nat>, current: nat): nat {
    if Over(xs, current) == [] then current else Lowest(Over(xs, current))
  }

  /** Number of rungs at most x. */
  function Rank(xs: seq<nat>, x: int): nat {
    |AtMost(xs, x)|
  }

  function Distance(a: int, b: int): nat {
    if a > b then a - b else b - a
  }

  /** Rank distance of two rungs; a bitrate off the ladder counts as two away. */
  function LevelsApart(xs: seq<nat>, a: nat, b: nat): nat {
    if a in xs && b in xs then Distance(Rank(xs, a), Rank(xs, b)) else 2
  }

  lemma ExtremesUnique(xs: seq<nat>, x: nat)
    ensures IsMax(xs, x) ==> Highest(xs) == x
    ensures IsMin(xs, x) ==> Lowest(xs) == x
  {
  }

  // ----- the loops of manifest.go and abr_throughput.go -----

  method LowestBitrate(m: Manifest) returns (min: nat)
    ensures min == Lowest(Rungs(m))
  {
    var reps, xs := m.representations, Rungs(m);
    if |reps| == 0 {
      return 0;
    }
    min := reps[0].bitrateKbps;
    for i := 1 to |reps|
      invariant IsMin(xs[..i], min)
    {
      assert xs[..i + 1] == xs[..i] + [xs[i]];
      if reps[i].bitrateKbps < min {
        min := reps[i].bitrateKbps;
      }
    }
    assert xs[..|reps|] == xs;
    ExtremesUnique(xs, min);
  }

  method HighestBitrate(m: Manifest) returns (max: nat)
    ensures max == Highest(Rungs(m))
  {
    var reps, xs := m.representations, Rungs(m);
    if |reps| == 0 {
      return 0;
    }
    max := reps[0].bitrateKbps;
    for i := 1 to |reps|
      invariant IsMax(xs[..i], max)
    {
      assert xs[..i + 1] == xs[..i] + [xs[i]];
      if reps[i].bitrateKbps > max {
        max := reps[i].bitrateKbps;
      }
    }
    assert xs[..|reps|] == xs;
    ExtremesUnique(xs, max);
  }

  method ClosestBitrate(m: Manifest, target: int) returns (best: nat)
    ensures best == Closest(Rungs(m), target)
  {
    var reps, xs := m.representations, Rungs(m);
    best := LowestBitrate(m);
    for i := 0 to |reps|
      invariant best == Lowest(xs) || (best in xs && best <= target)
      invariant forall k :: 0 <= k < i && xs[k] <= target ==> xs[k] <= best
    {
      if reps[i].bitrateKbps <= target && reps[i].bitrateKbps > best {
        best := reps[i].bitrateKbps;
      }
    }
    assert best != Lowest(xs) ==> best in AtMost(xs, target);
    if AtMost(xs, target) != [] {
      assert AtMost(xs, target)[0] in AtMost(xs, target);
      assert IsMax(AtMost(xs, target), best);
      ExtremesUnique(AtMost(xs, target), best);
    }
  }

  method OneLevelBelow(m: Manifest, current: nat) returns (best: nat)
    ensures best == LevelBelow(Rungs(m), current)
  {
    var reps, xs := m.representations, Rungs(m);
    best := current;
    for i := 0 to |reps|
      invariant best == current || (best in xs && best < current)
      invariant forall k :: 0 <= k < i && xs[k] < current ==> best != current && xs[k] <= best
    {
      if reps[i].bitrateKbps < current {
        if best == current || reps[i].bitrateKbps > best {
          best := reps[i].bitrateKbps;
        }
      }
    }
    var under := AtMost(xs, current - 1);
    assert best != current ==> best in under;
    if under != [] {
      assert under[0] in under;
      assert IsMax(under, best);
      ExtremesUnique(under, best);
    }
  }

  method OneLevelAbove(m: Manifest, current: nat) returns (best: nat)
    ensures best == LevelAbove(Rungs(m), current)
  {
    var reps, xs := m.representations, Rungs(m);
    best := current;
    for i := 0 to |reps|
      invariant best == current || (best in xs && best > current)
      invariant forall k :: 0 <= k < i && xs[k] > current ==> best != current && best <= xs[k]
    {
      if reps[i].bitrateKbps > current {
        if best == current || reps[i].bitrateKbps < best {
          best := reps[i].bitrateKbps;
        }
      }
    }
    var over := Over(xs, current);
    assert best != current ==> best in over;
    if over != [] {
      assert over[0] in over;
      assert IsMin(over, best);
      ExtremesUnique(over, best);
    }
  }

  // ----- the representation for a bitrate -----

  /** What the scan holds after the given representations. */
  function Scan(reps: seq<Representation>, chosen: Representation, bitrate: nat): Representation
    decreases |reps|
  {
    if reps == [] then chosen
    else
      var r := reps[0];
      Scan(reps[1..], if r.bitrateKbps <= bitrate && r.bitrateKbps >= chosen.bitrateKbps then r else chosen, bitrate)
  }

  function RepresentationFor(m: Manifest, bitrate: nat): Representation
    requires m.representations != []
  {
    Scan(m.representations, m.representations[0], bitrate)
  }

  method RepresentationForBitrate(m: Manifest, bitrate: nat) returns (chosen: Representation)
    requires m.representations != []
    ensures chosen == RepresentationFor(m, bitrate) && chosen in m.representations
    ensures var first := m.representations[0].bitrateKbps;
            && first <= chosen.bitrateKbps && (first <= bitrate ==> chosen.bitrateKbps <= bitrate)
            && (first > bitrate ==> chosen == m.representations[0])
            && (first <= bitrate ==>
                  forall r :: r in m.representations && r.bitrateKbps <= bitrate ==> r.bitrateKbps <= chosen.bitrateKbps)
    ensures LastOfEquals(m.representations, chosen) || chosen == m.representations[0]
    ensures m.representations[0].bitrateKbps <= bitrate ==> LastOfEquals(m.representations, chosen)
  {
    var reps := m.representations;
    ScanBounds(reps, reps[0], bitrate);
    ScanLast(reps, reps[0], bitrate);
    chosen := reps[0];
    for i := 0 to |reps|
      invariant Scan(reps[i..], chosen, bitrate) == RepresentationFor(m, bitrate)
    {
      assert reps[i..][1..] == reps[i + 1..];
      if reps[i].bitrateKbps <= bitrate && reps[i].bitrateKbps >= chosen.bitrateKbps {
        chosen := reps[i];
      }
    }
  }

  lemma {:induction false} ScanBounds(reps: seq<Representation>, chosen: Representation, bitrate: nat)
    ensures var r := Scan(reps, chosen, bitrate);
            && (r == chosen || (r in reps && r.bitrateKbps <= bitrate))
            && r.bitrateKbps >= chosen.bitrateKbps
            && (chosen.bitrateKbps <= bitrate ==>
                  forall x :: x in reps && x.bitrateKbps <= bitrate ==> x.bitrateKbps <= r.bitrateKbps)
    decreases |reps|
  {
    if reps != [] {
      var r := reps[0];
      ScanBounds(reps[1..], if r.bitrateKbps <= bitrate && r.bitrateKbps >= chosen.bitrateKbps then r else chosen, bitrate);
      assert forall x :: x in reps <==> x == reps[0] || x in reps[1..];
    }
  }

  /** The last one listed of its bitrate. */
  ghost predicate LastOfEquals(reps: seq<Representation>, r: Representation) {
    exists p :: 0 <= p < |reps| && reps[p] == r && forall k :: p < k < |reps| ==> reps[k].bitrateKbps != r.bitrateKbps
  }

  lemma {:induction false} LastOfEqualsCons(first: Representation, rest: seq<Representation>, r: Representation)
    requires LastOfEquals(rest, r) || (r == first && forall x :: x in rest ==> x.bitrateKbps != r.bitrateKbps)
    ensures LastOfEquals([first] + rest, r)
  {
    var reps := [first] + rest;
    if LastOfEquals(rest, r) {
      var p :| 0 <= p < |rest| && rest[p] == r && forall k :: p < k < |rest| ==> rest[k].bitrateKbps != r.bitrateKbps;
      assert reps[p + 1] == r && forall k :: p + 1 < k < |reps| ==> reps[k] == rest[k - 1];
    } else {
      assert reps[0] == r && forall k :: 0 < k < |reps| ==> reps[k] == rest[k - 1];
    }
  }

  /** Of several representations with the best bitrate the scan takes the last. */
  lemma {:induction false} ScanLast(reps: seq<Representation>, chosen: Representation, bitrate: nat)
    ensures var r := Scan(reps, chosen, bitrate);
            || LastOfEquals(reps, r)
            || (r == chosen && forall x :: x in reps && x.bitrateKbps <= bitrate ==> x.bitrateKbps < r.bitrateKbps)
    decreases |reps|
  {
    hide LastOfEquals;
    if reps != [] {
      var first, rest := reps[0], reps[1..];
      var next := if first.bitrateKbps <= bitrate && first.bitrateKbps >= chosen.bitrateKbps then first else chosen;
      assert reps == [first] + rest;
      ScanLast(rest, next, bitrate);
      ScanBounds(rest, next, bitrate);
      var r := Scan(rest, next, bitrate);
      var taken := first.bitrateKbps <= bitrate && first.bitrateKbps >= chosen.bitrateKbps;
      if LastOfEquals(rest, r) || (taken && r == first) {
        LastOfEqualsCons(first, rest, r);
      }
    }
  }

  /** A rung is served at its own bitrate exactly when the first listed representation is not above it. */
  lemma {:induction false} RungServed(m: Manifest, bitrate: nat)
    requires m.representations != [] && bitrate in Rungs(m)
    ensures RepresentationFor(m, bitrate) in m.representations
    ensures RepresentationFor(m, bitrate).bitrateKbps == bitrate <==> m.representations[0].bitrateKbps <= bitrate
  {
    var reps := m.representations;
    ScanBounds(reps, reps[0], bitrate);
    var i :| 0 <= i < |reps| && Rungs(m)[i] == bitrate;
    assert reps[i] in reps && reps[i].bitrateKbps == bitrate;
  }

  // ----- rank distance by sorting -----

  function CountsAtMost(t: int): int -> int {
    (x: int) => if x <= t then 1 else 0
  }

  lemma {:induction false} RankIsSum(xs: seq<nat>, ys: seq<int>, t: int)
    requires |ys| == |xs| && forall i :: 0 <= i < |xs| ==> ys[i] == xs[i]
    ensures Rank(xs, t) == Sum(ys, CountsAtMost(t))
  {
    if xs != [] {
      RankIsSum(xs[1..], ys[1..], t);
    }
  }

  /** In a sorted ladder, the last position of a value is its rank minus one. */
  lemma {:induction false} LastPosition(ys: seq<int>, a: int, last: int)
    requires Ascending(ys) && 0 <= last < |ys| && ys[last] == a
    requires forall k :: last < k < |ys| ==> ys[k] != a
    ensures Sum(ys, CountsAtMost(a)) == last + 1
  {
    var low, high := ys[..last + 1], ys[last + 1..];
    assert ys == low + high;
    SumAppend(low, high, CountsAtMost(a));
    forall x | x in low ensures CountsAtMost(a)(x) == 1 {
      var k :| 0 <= k < |low| && low[k] == x;
      assert ys[k] <= ys[last];
    }
    forall x | x in high ensures CountsAtMost(a)(x) == 0 {
      var k :| 0 <= k < |high| && high[k] == x;
      assert ys[last] <= ys[last + 1 + k];
    }
    SumConstant(low, CountsAtMost(a), 1);
    SumConstant(high, CountsAtMost(a), 0);
  }

  /** Sorted up to `start` except that the element at j may still have to move down. */
  ghost predicate AlmostAscending(s: seq<int>, j: nat, start: nat) {
    && j <= start < |s|
    && forall x, y :: 0 <= x < y <= start && y != j ==> s[x] <= s[y]
  }

  lemma {:induction false} SwapStep(s: seq<int>, j: nat, start: nat)
    requires AlmostAscending(s, j, start) && j > 0 && s[j] < s[j - 1]
    ensures AlmostAscending(s[j := s[j - 1]][j - 1 := s[j]], j - 1, start)
  {
    var t := s[j := s[j - 1]][j - 1 := s[j]];
    forall x, y | 0 <= x < y <= start && y != j - 1 ensures t[x] <= t[y] {
      if y == j && x < j - 1 {
        assert s[x] <= s[j - 1];
      }
    }
  }

  lemma SwapPermutes(s: seq<int>, j: nat)
    requires 0 < j < |s|
    ensures multiset(s[j := s[j - 1]][j - 1 := s[j]]) == multiset(s)
  {
  }

  lemma {:induction false} SwapDone(s: seq<int>, j: nat, start: nat)
    requires AlmostAscending(s, j, start) && (j == 0 || s[j] >= s[j - 1])
    ensures Ascending(s[..start + 1])
  {
    forall x, y | 0 <= x < y <= start ensures s[x] <= s[y] {
      if y == j && x < j - 1 {
        assert s[x] <= s[j - 1];
      }
    }
  }

  /** The inner loop of the insertion sort. */
  method SwapDown(a: array<int>, start: nat)
    requires start < a.Length && Ascending(a[..start])
    modifies a
    ensures Ascending(a[..start + 1])
    ensures multiset(a[..]) == multiset(old(a[..]))
  {
    hide Ascending;
    var j := start;
    assert AlmostAscending(a[..], start, start) by { StartsSorted(a[..], start); }
    while j > 0 && a[j] < a[j - 1]
      invariant 0 <= j <= start
      invariant AlmostAscending(a[..], j, start)
      invariant multiset(a[..]) == multiset(old(a[..]))
    {
      ghost var s := a[..];
      SwapStep(s, j, start);
      SwapPermutes(s, j);
      a[j], a[j - 1] := a[j - 1], a[j];
      assert a[..] == s[j := s[j - 1]][j - 1 := s[j]];
      j := j - 1;
    }
    SwapDone(a[..], j, start);
    assert a[..][..start + 1] == a[..start + 1];
  }

  lemma {:induction false} StartsSorted(s: seq<int>, start: nat)
    requires start < |s| && Ascending(s[..start])
    ensures AlmostAscending(s, start, start)
  {
    assert forall x :: 0 <= x < start ==> s[x] == s[..start][x];
  }

  /** levelsApart: insertion sort in place, then the last positions of both bitrates. */
  method LevelsApartOf(m: Manifest, a: nat, b: nat) returns (d: nat)
    ensures d == LevelsApart(Rungs(m), a, b)
  {
    hide Ascending;
    hide LastSeen;
    hide Rank;
    var indexA, indexB := -1, -1;
    var xs := Rungs(m);
    var ordered := new int[|xs|](i requires 0 <= i < |xs| => xs[i]);
    ghost var unsorted := ordered[..];
    SortInPlace(ordered);
    ghost var ys := ordered[..];
    NothingSeen(a);
    NothingSeen(b);
    for k := 0 to ordered.Length
      invariant ordered[..] == ys
      invariant LastSeen(ys[..k], a, indexA) && LastSeen(ys[..k], b, indexB)
    {
      assert ys[..k + 1] == ys[..k] + [ys[k]];
      SeeNext(ys[..k], ys[k], a, indexA);
      SeeNext(ys[..k], ys[k], b, indexB);
      if ordered[k] == a {
        indexA := k;
      }
      if ordered[k] == b {
        indexB := k;
      }
    }
    assert ys[..|ys|] == ys;
    PositionIsRank(xs, unsorted, ys, a, indexA);
    PositionIsRank(xs, unsorted, ys, b, indexB);
    if indexA == -1 || indexB == -1 {
      return 2;
    }
    if indexA > indexB {
      return indexA - indexB;
    }
    return indexB - indexA;
  }

  /** The outer loop of the insertion sort. */
  method SortInPlace(a: array<int>)
    modifies a
    ensures Ascending(a[..]) && multiset(a[..]) == multiset(old(a[..]))
  {
    var i := 1;
    while i < a.Length
      invariant 1 <= i && multiset(a[..]) == multiset(old(a[..]))
      invariant Ascending(a[..Min(i, a.Length)])
    {
      SwapDown(a, i);
      i := i + 1;
    }
    assert a[..a.Length] == a[..];
  }

  lemma NothingSeen(a: int)
    ensures LastSeen([], a, -1)
  {
  }

  lemma SeeNext(ys: seq<int>, y: int, a: int, index: int)
    requires LastSeen(ys, a, index)
    ensures LastSeen(ys + [y], a, if y == a then |ys| else index)
  {
  }

  ghost predicate LastSeen(ys: seq<int>, a: int, index: int) {
    && -1 <= index < |ys|
    && (index >= 0 ==> ys[index] == a)
    && forall k :: index < k < |ys| ==> ys[k] != a
  }

  lemma {:induction false} SameMembers(xs: seq<nat>, ys: seq<int>, a: nat)
    requires |ys| == |xs| && forall i :: 0 <= i < |xs| ==> ys[i] == xs[i]
    ensures a in xs <==> a in ys
  {
    if a in xs {
      var i :| 0 <= i < |xs| && xs[i] == a;
      assert ys[i] == a;
    }
  }

  lemma {:induction false} PositionIsRank(xs: seq<nat>, unsorted: seq<int>, ys: seq<int>, a: nat, index: int)
    requires |unsorted| == |xs| && forall i :: 0 <= i < |xs| ==> unsorted[i] == xs[i]
    requires multiset(ys) == multiset(unsorted) && Ascending(ys) && LastSeen(ys, a, index)
    ensures index == -1 <==> a !in xs
    ensures index >= 0 ==> Rank(xs, a) == index + 1
  {
    hide Ascending;
    SameMembers(xs, unsorted, a);
    assert a in unsorted <==> a in multiset(unsorted);
    assert a in ys <==> a in multiset(ys);
    if index >= 0 {
      LastPosition(ys, a, index);
      SumPermutation(ys, unsorted, CountsAtMost(a));
      RankIsSum(xs, unsorted, a);
    }
  }
}
