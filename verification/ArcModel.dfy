/**
 What the adaptive replacement cache (internal/cache/arc.go) does to its four
 lists. The eviction loop `replace` appears in closed form: T1 and T2 are each cut
 to their longest fitting prefix, and what is cut off becomes the front of the
 ghost list.
 */
module ArcModel {
  import opened Wrappers
  import opened CacheItems

  datatype Arc = Arc(max: nat, p: nat, t1: seq<Item>, t2: seq<Item>, b1: seq<Item>, b2: seq<Item>, stats: Stats)

  function ArcNew(max: nat): Arc {
    Arc(max, 0, [], [], [], [], Stats(0, 0, 0))
  }

  function Occupancy(s: Arc): nat {
    Bytes(s.t1) + Bytes(s.t2)
  }

  ghost predicate InIndex(s: Arc, k: string) {
    HasKey(s.t1, k) || HasKey(s.t2, k) || HasKey(s.b1, k) || HasKey(s.b2, k)
  }

  // ----- the adaptive target -----

  /** delta * ghostSize, where delta is the integer ratio of the ghost lists, at least 1. */
  function Step(mine: nat, other: nat, ghostSize: nat): nat {
    (if other > mine && mine > 0 then other / mine else 1) * ghostSize
  }

  // ----- eviction -----

  function T1Limit(s: Arc, size: nat, inB2: bool): nat {
    Max(0, Max(if inB2 then s.p - 1 else s.p, s.max - size - Bytes(s.t2)))
  }

  function Replace(s: Arc, size: nat, inB2: bool): Arc {
    var keep1 := Fit(s.t1, T1Limit(s, size, inB2));
    var keep2 := Fit(s.t2, Max(0, s.max - size - Bytes(keep1)));
    s.(t1 := keep1, b1 := Stubs(s.t1[|keep1|..]) + s.b1,
       t2 := keep2, b2 := Stubs(s.t2[|keep2|..]) + s.b2,
       stats := s.stats.(evictions := s.stats.evictions + (|s.t1| - |keep1|) + (|s.t2| - |keep2|)))
  }

  /** moveT1LRUToB1 */
  function DemoteT1(s: Arc): Arc {
    if s.t1 == [] then s
    else
      var n := |s.t1| - 1;
      s.(t1 := s.t1[..n], b1 := [Stub(s.t1[n])] + s.b1, stats := s.stats.(evictions := s.stats.evictions + 1))
  }

  function DemoteT2(s: Arc): Arc {
    if s.t2 == [] then s
    else
      var n := |s.t2| - 1;
      s.(t2 := s.t2[..n], b2 := [Stub(s.t2[n])] + s.b2, stats := s.stats.(evictions := s.stats.evictions + 1))
  }

  function DropLast(xs: seq<Item>): seq<Item> {
    if xs == [] then xs else xs[..|xs| - 1]
  }

  // ----- operations -----

  function ArcGet(s: Arc, key: string, now: int): (Arc, Option<Item>) {
    var miss := s.stats.(misses := s.stats.misses + 1);
    var hit := s.stats.(hits := s.stats.hits + 1);
    var i := IndexOf(s.t1, key);
    var j := IndexOf(s.t2, key);
    if i < |s.t1| then
      var it := s.t1[i];
      if Expired(it, now) then (s.(t1 := RemoveAt(s.t1, i), stats := miss), None)
      else (s.(t1 := RemoveAt(s.t1, i), t2 := [it] + s.t2, stats := hit), Some(it))
    else if j < |s.t2| then
      var it := s.t2[j];
      if Expired(it, now) then (s.(t2 := RemoveAt(s.t2, j), stats := miss), None)
      else (s.(t2 := [it] + RemoveAt(s.t2, j), stats := hit), Some(it))
    else
      (s.(stats := miss), None)
  }

  function ArcPut(s: Arc, item: Item): Arc {
    if item.size > s.max then s
    else
      var i := IndexOf(s.t1, item.key);
      var j := IndexOf(s.t2, item.key);
      var m := IndexOf(s.b1, item.key);
      var n := IndexOf(s.b2, item.key);
      if i < |s.t1| then s.(t1 := s.t1[i := item])
      else if j < |s.t2| then s.(t2 := s.t2[j := item])
      else if m < |s.b1| then
        var p := Min(s.max, s.p + Step(Bytes(s.b1), Bytes(s.b2), s.b1[m].size));
        var r := Replace(s.(p := p, b1 := RemoveAt(s.b1, m)), item.size, false);
        r.(t2 := [item] + r.t2)
      else if n < |s.b2| then
        var p := Max(0, s.p - Step(Bytes(s.b2), Bytes(s.b1), s.b2[n].size));
        var r := Replace(s.(p := p, b2 := RemoveAt(s.b2, n)), item.size, true);
        r.(t2 := [item] + r.t2)
      else
        var r := Replace(Prepare(s, item.size), item.size, false);
        r.(t1 := [item] + r.t1)
  }

  /** The four subcases of Case IV, before REPLACE. */
  function Prepare(s: Arc, size: nat): Arc {
    if Bytes(s.t1) + Bytes(s.b1) + size > s.max then
      if Bytes(s.t1) < s.max then s.(b1 := DropLast(s.b1)) else DemoteT1(s)
    else if Bytes(s.t1) + Bytes(s.t2) + Bytes(s.b1) + Bytes(s.b2) + size >= 2 * s.max then
      s.(b2 := DropLast(s.b2))
    else s
  }

  // ----- the eviction loop and its closed form -----

  /** Guard of the loop, and the test that makes it take its victim from T1. */
  predicate Overfull(s: Arc, size: nat) {
    Bytes(s.t1) + Bytes(s.t2) + size > s.max
  }

  predicate FromT1(s: Arc, inB2: bool) {
    Bytes(s.t1) > 0 && (Bytes(s.t1) > s.p || (inB2 && Bytes(s.t1) == s.p))
  }

  lemma {:induction false} StubsTail(xs: seq<Item>, n: nat, rest: seq<Item>)
    requires n < |xs|
    ensures Stubs(xs[n..]) + rest == Stubs(xs[..|xs| - 1][n..]) + ([Stub(xs[|xs| - 1])] + rest)
  {
    var init := xs[..|xs| - 1];
    assert xs[n..] == init[n..] + [xs[|xs| - 1]];
    assert Stubs(xs[n..]) == Stubs(init[n..]) + [Stub(xs[|xs| - 1])];
  }

  /** One eviction from T1 leaves the closed form where it was. */
  lemma {:induction false} ReplaceAfterDemoteT1(s: Arc, size: nat, inB2: bool)
    requires Overfull(s, size) && FromT1(s, inB2)
    ensures s.t1 != [] && Replace(DemoteT1(s), size, inB2) == Replace(s, size, inB2)
  {
    hide Bytes;
    hide Fit;
    hide Stubs;
    var limit, d := T1Limit(s, size, inB2), DemoteT1(s);
    FitDropLast(s.t1, limit);
    assert T1Limit(d, size, inB2) == limit;
    var keep := Fit(s.t1, limit);
    assert keep == Fit(d.t1, limit) && |keep| < |s.t1|;
    StubsTail(s.t1, |keep|, s.b1);
  }

  /** When T1 is within its limit the closed form only cuts T2. */
  lemma {:induction false} OnlyT2(s: Arc, size: nat, inB2: bool)
    requires Bytes(s.t1) <= T1Limit(s, size, inB2)
    ensures var keep := Fit(s.t2, Max(0, s.max - size - Bytes(s.t1)));
            Replace(s, size, inB2)
            == s.(t2 := keep, b2 := Stubs(s.t2[|keep|..]) + s.b2,
                  stats := s.stats.(evictions := s.stats.evictions + |s.t2| - |keep|))
  {
    hide Bytes;
    hide Fit;
    hide T1Limit;
    FitAll(s.t1, T1Limit(s, size, inB2));
    assert Stubs(s.t1[|s.t1|..]) + s.b1 == s.b1;
  }

  lemma {:induction false} ReplaceAfterDemoteT2(s: Arc, size: nat, inB2: bool)
    requires Overfull(s, size) && !FromT1(s, inB2) && Bytes(s.t2) > 0
    ensures s.t2 != [] && Replace(DemoteT2(s), size, inB2) == Replace(s, size, inB2)
  {
    hide Bytes;
    hide Fit;
    hide Stubs;
    hide Replace;
    var limit, d := Max(0, s.max - size - Bytes(s.t1)), DemoteT2(s);
    FitDropLast(s.t2, limit);
    BytesDropLast(s.t2);
    OnlyT2(s, size, inB2);
    OnlyT2(d, size, inB2);
    var keep := Fit(s.t2, limit);
    assert keep == Fit(d.t2, limit) && |keep| < |s.t2|;
    StubsTail(s.t2, |keep|, s.b2);
  }

  /** Where the loop stops, the closed form changes nothing. */
  lemma {:induction false} ReplaceDone(s: Arc, size: nat, inB2: bool)
    requires !Overfull(s, size) || (!FromT1(s, inB2) && Bytes(s.t2) == 0)
    ensures Replace(s, size, inB2) == s
  {
    FitAll(s.t1, T1Limit(s, size, inB2));
    FitAll(s.t2, Max(0, s.max - size - Bytes(s.t1)));
    assert Stubs([]) + s.b1 == s.b1 && Stubs([]) + s.b2 == s.b2;
  }

  // ----- eviction introduces no key -----

  lemma {:induction false} ReplaceAbsent(s: Arc, size: nat, inB2: bool, k: string)
    ensures InIndex(Replace(s, size, inB2), k) ==> InIndex(s, k)
  {
    var r := Replace(s, size, inB2);
    MovedKeys(s.t1, |r.t1|, s.b1, k);
    MovedKeys(s.t2, |r.t2|, s.b2, k);
    assert r.t1 == s.t1[..|r.t1|] && r.t2 == s.t2[..|r.t2|];
  }

  lemma {:induction false} MovedKeys(xs: seq<Item>, n: nat, ghosts: seq<Item>, k: string)
    requires n <= |xs|
    ensures HasKey(xs[..n], k) || HasKey(Stubs(xs[n..]) + ghosts, k) ==> HasKey(xs, k) || HasKey(ghosts, k)
  {
    var r := Stubs(xs[n..]) + ghosts;
    forall i | 0 <= i < |r| && r[i].key == k ensures HasKey(xs, k) || HasKey(ghosts, k) {
      if i < |xs| - n {
        assert xs[n + i].key == k;
      } else {
        assert ghosts[i - (|xs| - n)].key == k;
      }
    }
    forall i | 0 <= i < n && xs[..n][i].key == k ensures HasKey(xs, k) {
      assert xs[i].key == k;
    }
  }

  lemma {:induction false} PrepareAbsent(s: Arc, size: nat, k: string)
    ensures InIndex(Prepare(s, size), k) ==> InIndex(s, k)
  {
    var r := Prepare(s, size);
    if s.t1 != [] {
      var n := |s.t1| - 1;
      assert s.t1[n..] == [s.t1[n]];
      assert Stubs(s.t1[n..]) == [Stub(s.t1[n])];
      MovedKeys(s.t1, n, s.b1, k);
    }
    assert HasKey(DropLast(s.b1), k) ==> HasKey(s.b1, k);
    assert HasKey(DropLast(s.b2), k) ==> HasKey(s.b2, k);
  }
}
