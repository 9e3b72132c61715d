/** Buffer-based adaptation with hysteresis (internal/video/abr_buffer.go:29-77). */
module BufferBased {
  import opened Wrappers
  import opened Ladder

  datatype Sample = Sample(kbps: real, fetchTime: nat)

  datatype PlayerState = PlayerState(bufferLevel: int, maxBuffer: int, history: seq<Sample>, currentBitrateKbps: nat,
                                     segmentIndex: nat, startupComplete: bool, rebufferCount: nat)

  datatype Decision = Decision(bitrateKbps: nat, reason: string)

  const CRITICAL: int := 2_000_000_000
  const DANGER: int := 6_000_000_000
  const COMFORT: int := 6_000_000_000
  const SURPLUS: int := 15_000_000_000

  /** A session that has not fetched yet counts as being at the lowest rung. */
  function Effective(xs: seq<nat>, current: nat): nat {
    if current == 0 then Lowest(xs) else current
  }

  /** Linear interpolation between the lowest and the highest rung over the comfort window. */
  function Goal(xs: seq<nat>, buffer: int): int {
    Lowest(xs) + (Highest(xs) - Lowest(xs)) * Max(0, Min(buffer - COMFORT, SURPLUS - COMFORT)) / (SURPLUS - COMFORT)
  }

  function Target(xs: seq<nat>, s: PlayerState): (nat, string) {
    var current := Effective(xs, s.currentBitrateKbps);
    if s.bufferLevel < DANGER then
      (if s.history != [] && s.history[|s.history| - 1].kbps < current as real then LevelBelow(xs, current) else current,
       "buffer_danger")
    else if s.bufferLevel >= SURPLUS then (Highest(xs), "buffer_surplus")
    else (Closest(xs, Goal(xs, s.bufferLevel)), "buffer_comfort")
  }

  function Select(xs: seq<nat>, s: PlayerState): Decision {
    if s.bufferLevel < CRITICAL then Decision(Lowest(xs), "buffer_critical")
    else
      var current := Effective(xs, s.currentBitrateKbps);
      var (target, reason) := Target(xs, s);
      if LevelsApart(xs, current, target) <= 1 then Decision(current, reason + "_hysteresis")
      else Decision(target, reason)
  }

  method SelectBitrate(s: PlayerState, m: Manifest) returns (d: Decision)
    ensures d == Select(Rungs(m), s)
  {
    hide LevelsApart;
    hide Closest;
    hide LevelBelow;
    var low := LowestBitrate(m);
    var high := HighestBitrate(m);
    var current := s.currentBitrateKbps;
    if current == 0 {
      current := low;
    }
    var target, reason;
    if s.bufferLevel < CRITICAL {
      return Decision(low, "buffer_critical");
    } else if s.bufferLevel < DANGER {
      target := current;
      if |s.history| > 0 {
        var last := s.history[|s.history| - 1].kbps;
        if last < current as real {
          target := OneLevelBelow(m, current);
        }
      }
      reason := "buffer_danger";
    } else if s.bufferLevel >= SURPLUS {
      target := high;
      reason := "buffer_surplus";
    } else {
      var part := s.bufferLevel - COMFORT;
      if part < 0 {
        part := 0;
      }
      if part > SURPLUS - COMFORT {
        part := SURPLUS - COMFORT;
      }
      var goal := low + (high - low) * part / (SURPLUS - COMFORT);
      target := ClosestBitrate(m, goal);
      reason := "buffer_comfort";
    }
    var apart := LevelsApartOf(m, current, target);
    if apart <= 1 {
      return Decision(current, reason + "_hysteresis");
    }
    return Decision(target, reason);
  }

  // ----- what one decision can do -----

  ghost predicate DistinctRungs(xs: seq<nat>) {
    forall i, j :: 0 <= i < j < |xs| ==> xs[i] != xs[j]
  }

  /** With distinct rungs nothing lies between a rung and the next one below it. */
  lemma {:induction false} BelowIsOneRankDown(xs: seq<nat>, c: nat)
    requires DistinctRungs(xs) && c in xs
    ensures LevelBelow(xs, c) in xs && LevelsApart(xs, c, LevelBelow(xs, c)) <= 1
  {
    var b := LevelBelow(xs, c);
    if b != c {
      assert b in AtMost(xs, c - 1);
      forall x | x in xs && b < x <= c ensures x == c {
        assert x <= c - 1 ==> x in AtMost(xs, c - 1);
      }
      RankGap(xs, b, c);
    }
  }

  /** Ranks of two rungs differ by the number of rungs in between. */
  lemma {:induction false} RankGap(xs: seq<nat>, b: nat, c: nat)
    requires DistinctRungs(xs) && b <= c
    requires forall x :: x in xs && b < x <= c ==> x == c
    ensures Rank(xs, b) <= Rank(xs, c) <= Rank(xs, b) + (if c in xs && b < c then 1 else 0)
  {
    if xs != [] {
      assert xs == [xs[0]] + xs[1..];
      assert xs[0] in xs && forall x :: x in xs <==> x == xs[0] || x in xs[1..];
      RankGap(xs[1..], b, c);
      assert xs[0] !in xs[1..];
    }
  }

  /**
   Every decision is a rung; below the critical level it is the lowest one, in the
   danger zone it is the current one, and above it either the current one or at least
   two ranks away.
   */
  lemma {:induction false} DecisionRules(xs: seq<nat>, s: PlayerState)
    requires xs != [] && DistinctRungs(xs)
    requires s.currentBitrateKbps == 0 || s.currentBitrateKbps in xs
    ensures var d := Select(xs, s).bitrateKbps; var current := Effective(xs, s.currentBitrateKbps);
            && d in xs
            && (s.bufferLevel < CRITICAL ==> d == Lowest(xs))
            && (CRITICAL <= s.bufferLevel < DANGER ==> d == current)
            && (s.bufferLevel >= DANGER ==> d == current || Distance(Rank(xs, current), Rank(xs, d)) >= 2)
  {
    hide Goal;
    hide Rank;
    hide Closest;
    hide LevelBelow;
    hide Lowest;
    hide Highest;
    hide DistinctRungs;
    var current := Effective(xs, s.currentBitrateKbps);
    BelowIsOneRankDown(xs, current);
    assert LevelsApart(xs, current, current) == 0;
    if s.bufferLevel >= CRITICAL && DANGER <= s.bufferLevel < SURPLUS {
      ClosestIsRung(xs, Goal(xs, s.bufferLevel));
    }
  }

  lemma ClosestIsRung(xs: seq<nat>, t: int)
    requires xs != []
    ensures Closest(xs, t) in xs
  {
  }

  // ----- more buffer never means a lower target -----

  /** The interpolation starts at the lowest rung, ends at the highest, and grows in between. */
  lemma {:induction false} GoalGrows(xs: seq<nat>, a: int, b: int)
    requires xs != [] && a <= b
    ensures Lowest(xs) <= Goal(xs, a) <= Goal(xs, b) <= Highest(xs)
    ensures a <= COMFORT ==> Goal(xs, a) == Lowest(xs)
    ensures b >= SURPLUS ==> Goal(xs, b) == Highest(xs)
  {
    var low, high, w := Lowest(xs), Highest(xs), SURPLUS - COMFORT;
    assert xs[0] in xs && low <= xs[0] <= high;
    var pa, pb := Max(0, Min(a - COMFORT, w)), Max(0, Min(b - COMFORT, w));
    Scale(high - low, pa, pb, w);
    Scale(high - low, 0, pa, w);
    Scale(high - low, pb, w, w);
  }

  lemma {:induction false} Scale(span: nat, a: nat, b: nat, w: nat)
    requires a <= b && w > 0
    ensures span * a / w <= span * b / w
    ensures span * 0 / w == 0 && span * w / w == span
  {
    assert span * a <= span * b;
    QuotientOrder(span * a, span * b, w);
    QuotientOf(span, w);
  }

  lemma {:induction false} QuotientOrder(x: nat, y: nat, w: nat)
    requires x <= y && w > 0
    ensures x / w <= y / w
  {
    var p, q, r, t := x / w, y / w, x % w, y % w;
    assert x == w * p + r && y == w * q + t && t < w;
    Multiples(p, q, w);
  }

  lemma {:induction false} Multiples(p: int, q: int, w: nat)
    ensures p > q ==> w * p >= w * q + w
  {
    if p > q {
      assert w * p == w * (q + 1) + w * (p - q - 1);
    }
  }

  lemma {:induction false} QuotientOf(span: nat, w: nat)
    requires w > 0
    ensures span * w / w == span
  {
    var q := span * w / w;
    assert q < span ==> (q + 1) * w <= span * w;
    assert q > span ==> (span + 1) * w <= q * w;
  }

  lemma {:induction false} ClosestGrows(xs: seq<nat>, t: int, u: int)
    requires xs != [] && t <= u
    ensures Closest(xs, t) <= Closest(xs, u) <= Highest(xs)
  {
    assert forall x :: x in AtMost(xs, t) ==> x in AtMost(xs, u);
    ClosestIsRung(xs, t);
    ClosestIsRung(xs, u);
  }

  /** Above the danger zone the target never falls as the buffer grows, whatever the throughput. */
  lemma {:induction false} TargetGrows(xs: seq<nat>, s: PlayerState, t: PlayerState)
    requires xs != [] && DANGER <= s.bufferLevel <= t.bufferLevel
    ensures Target(xs, s).0 <= Target(xs, t).0 <= Highest(xs)
    ensures Target(xs, s).0 in xs
  {
    hide Goal;
    GoalGrows(xs, s.bufferLevel, t.bufferLevel);
    ClosestGrows(xs, Goal(xs, s.bufferLevel), Goal(xs, t.bufferLevel));
    ClosestIsRung(xs, Goal(xs, s.bufferLevel));
  }

  // ----- the decision, without its target -----

  /** The rung the buffer affords: the share of the ladder's span that it has filled of the nine seconds above the danger zone. */
  ghost predicate Affordable(xs: seq<nat>, buffer: int, x: nat) {
    (x - Lowest(xs)) * (SURPLUS - COMFORT) <= (Highest(xs) - Lowest(xs)) * (buffer - COMFORT)
  }

  /** From the surplus level on the best rung, and below it the best rung that the buffer affords. */
  ghost predicate Aim(xs: seq<nat>, buffer: int, t: nat) {
    && t in xs
    && (buffer < SURPLUS ==> Affordable(xs, buffer, t))
    && forall x :: x in xs && (buffer >= SURPLUS || Affordable(xs, buffer, x)) ==> x <= t
  }

  ghost predicate Between(xs: seq<nat>, a: nat, b: nat) {
    exists x :: x in xs && (a < x < b || b < x < a)
  }

  lemma {:induction false} RankStrict(xs: seq<nat>, b: nat, c: nat)
    requires b <= c
    ensures Rank(xs, b) <= Rank(xs, c) && (b < c && c in xs ==> Rank(xs, b) < Rank(xs, c))
  {
    if xs != [] {
      RankStrict(xs[1..], b, c);
      assert forall x :: x in xs <==> x == xs[0] || x in xs[1..];
    }
  }

  /** Two rungs are at most one rank apart exactly when no rung lies strictly between them. */
  lemma {:induction false} ApartUnlessAdjacent(xs: seq<nat>, a: nat, b: nat)
    requires DistinctRungs(xs) && a in xs && b in xs
    ensures LevelsApart(xs, a, b) <= 1 <==> !Between(xs, a, b)
  {
    hide Rank;
    hide DistinctRungs;
    var low, high := Min(a, b), Max(a, b);
    RankStrict(xs, low, high);
    if Between(xs, a, b) {
      var x :| x in xs && low < x < high;
      RankStrict(xs, low, x);
      RankStrict(xs, x, high);
    } else {
      RankGap(xs, low, high);
    }
  }

  lemma {:induction false} QuotientAtLeast(x: int, y: int, w: int)
    requires w > 0
    ensures x <= y / w <==> x * w <= y
  {
    var q, r := y / w, y % w;
    assert y == q * w + r && 0 <= r < w;
    if x <= q {
      assert x * w <= q * w;
    } else {
      assert x * w >= (q + 1) * w;
    }
  }

  lemma {:induction false} GoalAffords(xs: seq<nat>, buffer: int, x: nat)
    requires COMFORT <= buffer < SURPLUS
    ensures x <= Goal(xs, buffer) <==> Affordable(xs, buffer, x)
  {
    QuotientAtLeast(x - Lowest(xs), (Highest(xs) - Lowest(xs)) * (buffer - COMFORT), SURPLUS - COMFORT);
  }

  /** There is always exactly one such rung, and it is the target. */
  lemma {:induction false} TargetIsAim(xs: seq<nat>, s: PlayerState, t: nat)
    requires xs != [] && s.bufferLevel >= DANGER
    ensures Aim(xs, s.bufferLevel, t) <==> t == Target(xs, s).0
  {
    hide Goal;
    hide Affordable;
    var buffer := s.bufferLevel;
    assert xs[0] in xs;
    if buffer < SURPLUS {
      var goal := Goal(xs, buffer);
      GoalGrows(xs, buffer, buffer);
      forall x: nat ensures x <= goal <==> Affordable(xs, buffer, x) {
        GoalAffords(xs, buffer, x);
      }
      assert Lowest(xs) in AtMost(xs, goal);
    }
  }

  /**
   The whole rule for distinct rungs. From the danger level on it moves to the rung that the
   buffer affords exactly when another rung lies strictly between that and the current one.
   */
  lemma {:induction false} DecisionExact(xs: seq<nat>, s: PlayerState, t: nat)
    requires xs != [] && DistinctRungs(xs)
    requires s.currentBitrateKbps == 0 || s.currentBitrateKbps in xs
    requires s.bufferLevel >= DANGER ==> Aim(xs, s.bufferLevel, t)
    ensures var current := Effective(xs, s.currentBitrateKbps);
            Select(xs, s)
            == if s.bufferLevel < CRITICAL then Decision(Lowest(xs), "buffer_critical")
               else if s.bufferLevel < DANGER then Decision(current, "buffer_danger_hysteresis")
               else
                 var reason := if s.bufferLevel < SURPLUS then "buffer_comfort" else "buffer_surplus";
                 if Between(xs, current, t) then Decision(t, reason) else Decision(current, reason + "_hysteresis")
  {
    hide Aim;
    hide Closest;
    hide Goal;
    hide LevelBelow;
    hide LevelsApart;
    hide DistinctRungs;
    hide Between;
    var current := Effective(xs, s.currentBitrateKbps);
    if s.bufferLevel < DANGER {
      BelowIsOneRankDown(xs, current);
      assert LevelsApart(xs, current, current) == 0 by { NoLevelsApart(xs, current); }
    } else {
      TargetIsAim(xs, s, t);
      AimIsRung(xs, s.bufferLevel, t);
      ApartUnlessAdjacent(xs, current, t);
    }
  }

  lemma NoLevelsApart(xs: seq<nat>, a: nat)
    requires a in xs
    ensures LevelsApart(xs, a, a) == 0
  {
  }

  lemma AimIsRung(xs: seq<nat>, buffer: int, t: nat)
    requires Aim(xs, buffer, t)
    ensures t in xs
  {
  }

  // ----- ladders that list a bitrate twice, and bitrates off the ladder -----

  /** On any ladder, from the danger level on: the rung that the buffer affords, unless it is within one rank of a listed current one. */
  lemma {:induction false} DecisionAnyLadder(xs: seq<nat>, s: PlayerState, t: nat)
    requires xs != [] && s.bufferLevel >= DANGER && Aim(xs, s.bufferLevel, t)
    ensures var current := Effective(xs, s.currentBitrateKbps);
            var reason := if s.bufferLevel < SURPLUS then "buffer_comfort" else "buffer_surplus";
            Select(xs, s)
            == if current in xs && -1 <= Rank(xs, current) - Rank(xs, t) <= 1 then Decision(current, reason + "_hysteresis")
               else Decision(t, reason)
  {
    hide Aim;
    hide Closest;
    hide Goal;
    hide Rank;
    TargetIsAim(xs, s, t);
    AimIsRung(xs, s.bufferLevel, t);
  }

  /** With nothing between, ranks differ by the number of times the upper rung is listed. */
  lemma {:induction false} RankCopies(xs: seq<nat>, b: nat, c: nat)
    requires b < c && forall x :: x in xs ==> x <= b || x >= c
    ensures Rank(xs, c) == Rank(xs, b) + multiset(xs)[c]
  {
    if xs != [] {
      assert xs == [xs[0]] + xs[1..];
      assert multiset(xs) == multiset{xs[0]} + multiset(xs[1..]);
      assert xs[0] in xs && forall x :: x in xs[1..] ==> x in xs;
      RankCopies(xs[1..], b, c);
    }
  }

  ghost predicate HasBelow(xs: seq<nat>, current: nat) {
    exists x :: x in xs && x < current
  }

  /** The greatest rung below, if there is any. */
  ghost predicate NextDown(xs: seq<nat>, current: nat, b: nat) {
    HasBelow(xs, current) ==> b in xs && b < current && forall x :: x in xs && x < current ==> x <= b
  }

  /** The drop of the danger zone, and how far it is. */
  lemma {:induction false} DropDistance(xs: seq<nat>, current: nat, b: nat)
    requires NextDown(xs, current, b)
    ensures LevelBelow(xs, current) == if HasBelow(xs, current) then b else current
    ensures HasBelow(xs, current) ==> (LevelsApart(xs, current, b) <= 1 <==> multiset(xs)[current] == 1)
    ensures LevelsApart(xs, current, current) == if current in xs then 0 else 2
  {
    hide Rank;
    if HasBelow(xs, current) {
      NextBelow(xs, current, b);
      RankCopies(xs, b, current);
      assert current in xs <==> multiset(xs)[current] > 0;
    } else {
      NoneBelow(xs, current);
    }
  }

  /**
   The danger zone on any ladder: after a sample slower than the current bitrate it drops to the
   next rung below, but the hysteresis takes that back whenever the current bitrate is listed
   exactly once.
   */
  lemma {:induction false} DangerZone(xs: seq<nat>, s: PlayerState, b: nat)
    requires CRITICAL <= s.bufferLevel < DANGER && NextDown(xs, Effective(xs, s.currentBitrateKbps), b)
    ensures var current := Effective(xs, s.currentBitrateKbps);
            var slow := s.history != [] && s.history[|s.history| - 1].kbps < current as real;
            Select(xs, s)
            == if slow && HasBelow(xs, current) && multiset(xs)[current] != 1 then Decision(b, "buffer_danger")
               else if current in xs then Decision(current, "buffer_danger_hysteresis")
               else Decision(current, "buffer_danger")
  {
    hide Effective;
    hide LevelsApart;
    hide LevelBelow;
    hide HasBelow;
    hide NextDown;
    hide Goal;
    hide Closest;
    var current := Effective(xs, s.currentBitrateKbps);
    DropDistance(xs, current, b);
    assert current in xs <==> multiset(xs)[current] > 0;
  }

  lemma {:induction false} NoneBelow(xs: seq<nat>, current: nat)
    requires forall x :: x in xs ==> x >= current
    ensures LevelBelow(xs, current) == current
  {
    var under := AtMost(xs, current - 1);
    if under != [] {
      assert under[0] in under;
    }
  }

  lemma {:induction false} NextBelow(xs: seq<nat>, current: nat, b: nat)
    requires b in xs && b < current && forall x :: x in xs && x < current ==> x <= b
    ensures LevelBelow(xs, current) == b && forall x :: x in xs ==> x <= b || x >= current
  {
    var under := AtMost(xs, current - 1);
    assert b in under;
    assert IsMax(under, b);
    ExtremesUnique(under, b);
  }
}
