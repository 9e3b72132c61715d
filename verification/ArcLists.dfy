/**
 Two plain recency lists behind the four lists of ARC. As sequences of (key, size),
 L1 = T1 ++ B1 and L2 = T2 ++ B2 evolve without any reference to the target p:
 eviction only moves the dividers between resident and ghost part.
 */
module ArcLists {
  import opened Wrappers
  import opened CacheItems
  import opened ArcModel

  /** n1 and n2 say how many entries at the front of l1 and l2 are resident. */
  datatype Two = Two(l1: seq<Item>, n1: nat, l2: seq<Item>, n2: nat)

  function Lists(s: Arc): Two {
    Two(Stubs(s.t1 + s.b1), |s.t1|, Stubs(s.t2 + s.b2), |s.t2|)
  }

  /** A Get on the two lists: promote to the front of l2, drop an expired entry, or nothing. */
  function TwoGet(a: Two, key: string, expired: bool): (seq<Item>, seq<Item>) {
    var i := IndexOf(a.l1, key);
    var j := IndexOf(a.l2, key);
    if i < a.n1 && i < |a.l1| then (RemoveAt(a.l1, i), if expired then a.l2 else [a.l1[i]] + a.l2)
    else if j < a.n2 && j < |a.l2| then (a.l1, (if expired then [] else [a.l2[j]]) + RemoveAt(a.l2, j))
    else (a.l1, a.l2)
  }

  /**
   A Put on the two lists: resize in place, move a ghost to the front of l2, or push a
   new entry on l1 with at most one ghost dropped from the end of one list.
   */
  function TwoPut(a: Two, max: nat, item: Item): (seq<Item>, seq<Item>) {
    var i := IndexOf(a.l1, item.key);
    var j := IndexOf(a.l2, item.key);
    if item.size > max then (a.l1, a.l2)
    else if i < a.n1 && i < |a.l1| then (a.l1[i := Stub(item)], a.l2)
    else if j < a.n2 && j < |a.l2| then (a.l1, a.l2[j := Stub(item)])
    else if i < |a.l1| then (RemoveAt(a.l1, i), [Stub(item)] + a.l2)
    else if j < |a.l2| then (a.l1, [Stub(item)] + RemoveAt(a.l2, j))
    else if Bytes(a.l1) + item.size > max then
      ([Stub(item)] + (if DropsB1(a, max) then DropLast(a.l1) else a.l1), a.l2)
    else
      ([Stub(item)] + a.l1, if DropsB2(a, max, item.size) then DropLast(a.l2) else a.l2)
  }

  predicate DropsB1(a: Two, max: nat) {
    a.n1 < |a.l1| && Bytes(a.l1[..a.n1]) < max
  }

  predicate DropsB2(a: Two, max: nat, size: nat) {
    a.n2 < |a.l2| && Bytes(a.l1) + Bytes(a.l2) + size >= 2 * max
  }

  // ----- eviction leaves both lists alone -----

  lemma StubsAppend(a: seq<Item>, b: seq<Item>)
    ensures Stubs(a + b) == Stubs(a) + Stubs(b)
  {
  }

  lemma {:induction false} DividerMoves(xs: seq<Item>, n: nat, ghosts: seq<Item>)
    requires n <= |xs|
    ensures Stubs(xs[..n] + (Stubs(xs[n..]) + ghosts)) == Stubs(xs + ghosts)
  {
    var a, b := xs[..n] + (Stubs(xs[n..]) + ghosts), xs + ghosts;
    assert |a| == |b|;
    assert forall i :: 0 <= i < |a| ==> Stub(a[i]) == Stub(b[i]);
  }

  lemma {:induction false} ReplaceKeepsLists(s: Arc, size: nat, inB2: bool)
    ensures var r := Lists(Replace(s, size, inB2)); r.l1 == Lists(s).l1 && r.l2 == Lists(s).l2
  {
    var r := Replace(s, size, inB2);
    assert r.t1 == s.t1[..|r.t1|] && r.t2 == s.t2[..|r.t2|];
    DividerMoves(s.t1, |r.t1|, s.b1);
    DividerMoves(s.t2, |r.t2|, s.b2);
  }

  lemma {:induction false} DemoteKeepsLists(s: Arc)
    ensures var r := Lists(DemoteT1(s)); r.l1 == Lists(s).l1 && r.l2 == Lists(s).l2
  {
    if s.t1 != [] {
      var n := |s.t1| - 1;
      assert Stubs(s.t1[n..]) == [Stub(s.t1[n])];
      DividerMoves(s.t1, n, s.b1);
    }
  }

  // ----- the operations refine the two-list machine -----

  /** Looking a key up in active ++ ghost, as ARC does list by list. */
  lemma {:induction false} IndexInLists(active: seq<Item>, ghosts: seq<Item>, k: string)
    ensures var l := Stubs(active + ghosts);
            IndexOf(l, k) == if IndexOf(active, k) < |active| then IndexOf(active, k)
                             else |active| + IndexOf(ghosts, k)
  {
    hide IndexOf;
    hide Stubs;
    var l := Stubs(active + ghosts);
    var i, a, g := IndexOf(l, k), IndexOf(active, k), IndexOf(ghosts, k);
    assert forall n :: 0 <= n < |active| ==> l[n].key == active[n].key;
    assert forall n :: 0 <= n < |ghosts| ==> l[|active| + n].key == ghosts[n].key;
    var e := if a < |active| then a else |active| + g;
    if e < |l| {
      assert l[e].key == k;
      assert HasKey(l, k);
    }
    if i < |l| {
      if i < |active| {
        assert HasKey(active, k);
      } else {
        assert ghosts[i - |active|].key == k;
        assert HasKey(ghosts, k);
      }
    }
  }

  lemma {:induction false} StubsRemoveAt(active: seq<Item>, ghosts: seq<Item>, i: nat)
    ensures i < |active| ==> Stubs(RemoveAt(active, i) + ghosts) == RemoveAt(Stubs(active + ghosts), i)
    ensures i < |ghosts| ==> Stubs(active + RemoveAt(ghosts, i)) == RemoveAt(Stubs(active + ghosts), |active| + i)
  {
    if i < |ghosts| {
      assert active + RemoveAt(ghosts, i) == RemoveAt(active + ghosts, |active| + i);
      StubsWithout(active + ghosts, |active| + i);
    }
    if i < |active| {
      assert RemoveAt(active, i) + ghosts == RemoveAt(active + ghosts, i);
      StubsWithout(active + ghosts, i);
    }
  }

  lemma {:induction false} StubsWithout(xs: seq<Item>, i: nat)
    requires i < |xs|
    ensures Stubs(RemoveAt(xs, i)) == RemoveAt(Stubs(xs), i)
  {
    hide Stubs;
  }

  lemma {:induction false} StubsFront(it: Item, active: seq<Item>, ghosts: seq<Item>)
    ensures Stubs(([it] + active) + ghosts) == [Stub(it)] + Stubs(active + ghosts)
  {
    assert ([it] + active) + ghosts == [it] + (active + ghosts);
  }

  lemma {:induction false} GetRefinesLists(s: Arc, key: string, now: int)
    ensures var i, j := IndexOf(s.t1, key), IndexOf(s.t2, key);
            var expired := (i < |s.t1| && Expired(s.t1[i], now)) || (i == |s.t1| && j < |s.t2| && Expired(s.t2[j], now));
            var r := Lists(ArcGet(s, key, now).0);
            (r.l1, r.l2) == TwoGet(Lists(s), key, expired)
  {
    hide Stubs;
    hide RemoveAt;
    var i, j := IndexOf(s.t1, key), IndexOf(s.t2, key);
    IndexInLists(s.t1, s.b1, key);
    IndexInLists(s.t2, s.b2, key);
    if i < |s.t1| {
      StubsRemoveAt(s.t1, s.b1, i);
      StubsFront(s.t1[i], s.t2, s.b2);
    } else if j < |s.t2| {
      StubsRemoveAt(s.t2, s.b2, j);
      StubsFront(s.t2[j], RemoveAt(s.t2, j), s.b2);
      assert [] + RemoveAt(Stubs(s.t2 + s.b2), j) == RemoveAt(Stubs(s.t2 + s.b2), j);
    }
  }

  lemma {:induction false} PrepareOnLists(s: Arc, size: nat)
    ensures var a, r := Lists(s), Lists(Prepare(s, size));
            if Bytes(a.l1) + size > s.max then
              r.l1 == (if DropsB1(a, s.max) then DropLast(a.l1) else a.l1) && r.l2 == a.l2
            else
              r.l1 == a.l1 && r.l2 == (if DropsB2(a, s.max, size) then DropLast(a.l2) else a.l2)
  {
    hide Bytes;
    hide Stubs;
    hide DemoteT1;
    hide DropLast;
    var a := Lists(s);
    BytesNone();
    BytesAppend(s.t1, s.b1);
    BytesStubs(s.t1 + s.b1);
    BytesAppend(s.t2, s.b2);
    BytesStubs(s.t2 + s.b2);
    assert a.l1[..a.n1] == Stubs(s.t1);
    BytesStubs(s.t1);
    DropGhost(s.t1, s.b1);
    DropGhost(s.t2, s.b2);
    DropNone();
    DemoteKeepsLists(s);
  }

  lemma DropNone()
    ensures DropLast([]) == []
  {
  }

  lemma {:induction false} DropGhost(active: seq<Item>, ghosts: seq<Item>)
    ensures ghosts != [] ==> Stubs(active + DropLast(ghosts)) == DropLast(Stubs(active + ghosts))
  {
    if ghosts != [] {
      assert active + DropLast(ghosts) == (active + ghosts)[..|active + ghosts| - 1];
    }
  }

  /** Every Put acts on the two lists as TwoPut says, whatever p is. */
  lemma {:induction false} PutRefinesLists(s: Arc, item: Item)
    ensures var r := Lists(ArcPut(s, item)); (r.l1, r.l2) == TwoPut(Lists(s), s.max, item)
  {
    hide Stubs;
    hide RemoveAt;
    hide Replace;
    hide Prepare;
    hide Step;
    hide IndexOf;
    var i, j := IndexOf(s.t1, item.key), IndexOf(s.t2, item.key);
    var m, n := IndexOf(s.b1, item.key), IndexOf(s.b2, item.key);
    IndexInLists(s.t1, s.b1, item.key);
    IndexInLists(s.t2, s.b2, item.key);
    if item.size > s.max {
    } else if i < |s.t1| {
      StubsUpdate(s.t1, s.b1, i, item);
    } else if j < |s.t2| {
      StubsUpdate(s.t2, s.b2, j, item);
    } else if m < |s.b1| {
      var p := Min(s.max, s.p + Step(Bytes(s.b1), Bytes(s.b2), s.b1[m].size));
      var s' := s.(p := p, b1 := RemoveAt(s.b1, m));
      StubsRemoveAt(s.t1, s.b1, m);
      ReplaceKeepsLists(s', item.size, false);
      StubsFront(item, Replace(s', item.size, false).t2, Replace(s', item.size, false).b2);
    } else if n < |s.b2| {
      var p := Max(0, s.p - Step(Bytes(s.b2), Bytes(s.b1), s.b2[n].size));
      var s' := s.(p := p, b2 := RemoveAt(s.b2, n));
      StubsRemoveAt(s.t2, s.b2, n);
      ReplaceKeepsLists(s', item.size, true);
      StubsFront(item, Replace(s', item.size, true).t2, Replace(s', item.size, true).b2);
    } else {
      var s' := Prepare(s, item.size);
      PrepareOnLists(s, item.size);
      ReplaceKeepsLists(s', item.size, false);
      StubsFront(item, Replace(s', item.size, false).t1, Replace(s', item.size, false).b1);
    }
  }

  lemma StubsUpdate(active: seq<Item>, ghosts: seq<Item>, i: nat, it: Item)
    requires i < |active|
    ensures Stubs(active[i := it] + ghosts) == Stubs(active + ghosts)[i := Stub(it)]
  {
  }
}
