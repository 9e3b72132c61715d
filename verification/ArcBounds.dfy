/**
 How full ARC gets, and what a scan does to it (internal/cache/arc.go:237-318).
 The occupancy may exceed the capacity; the exact condition is given below.
 */
module ArcBounds {
  import opened Wrappers
  import opened CacheItems
  import opened ArcModel
  import opened ArcLists
  import opened ArcRuns
  import opened LruModel

  // ----- occupancy -----

  /** The bytes of T1 that replace will not evict: those within p, or strictly within p after a B2 hit. */
  function Floor(s: Arc, inB2: bool): nat {
    Bytes(Fit(s.t1, Max(0, if inB2 then s.p - 1 else s.p)))
  }

  /** replace ends with room for the incoming item, or with T2 empty of bytes and T1 within p. */
  lemma {:induction false} ReplaceOutcome(s: Arc, size: nat, inB2: bool)
    ensures var r := Replace(s, size, inB2);
            || Occupancy(r) + size <= s.max
            || (Bytes(r.t2) == 0 && Bytes(r.t1) <= s.p)
  {
    var limit := T1Limit(s, size, inB2);
    var r := Replace(s, size, inB2);
    if limit == s.max - size - Bytes(s.t2) {
      FitAll(s.t2, Max(0, s.max - size - Bytes(r.t1)));
    }
  }

  /** Exactly when replace makes room: the part of T1 it will not touch must leave room. */
  lemma {:induction false} ReplaceMakesRoom(s: Arc, size: nat, inB2: bool)
    requires size <= s.max
    ensures Occupancy(Replace(s, size, inB2)) + size <= s.max <==> Floor(s, inB2) + size <= s.max
  {
    var low := Max(0, if inB2 then s.p - 1 else s.p);
    var limit := T1Limit(s, size, inB2);
    FitMonotone(s.t1, low, limit);
    if limit > low {
      var r := Replace(s, size, inB2);
      FitAll(s.t2, Max(0, s.max - size - Bytes(r.t1)));
    }
  }

  /**
   Which victims replace takes. The last one from T1 left while the cache, T2 still whole, was
   overfull and T1 was above p, or at p after a B2 hit; the last one from T2 left while the
   cache was overfull and T1 was not. And replace stops only where there is room, or nothing
   to take.
   */
  lemma {:induction false} ReplaceVictims(s: Arc, size: nat, inB2: bool)
    ensures var r := Replace(s, size, inB2); var n1, n2 := |r.t1|, |r.t2|;
            && n1 <= |s.t1| && r.t1 == s.t1[..n1] && n2 <= |s.t2| && r.t2 == s.t2[..n2]
            && (n1 < |s.t1| ==>
                  var b := Bytes(s.t1[..n1 + 1]);
                  b > 0 && b + Bytes(s.t2) + size > s.max && (b > s.p || (inB2 && b == s.p)))
            && (n2 < |s.t2| ==>
                  var b := Bytes(r.t1);
                  b + Bytes(s.t2[..n2 + 1]) + size > s.max && (b == 0 || b < s.p || (!inB2 && b == s.p)))
            && (Bytes(r.t1) + Bytes(r.t2) + size <= s.max
                || (Bytes(r.t2) == 0
                    && (Bytes(r.t1) == 0 || Bytes(r.t1) < s.p || (!inB2 && Bytes(r.t1) == s.p))))
  {
    hide Fit;
    hide Stubs;
    hide Bytes;
    var limit := T1Limit(s, size, inB2);
    var r := Replace(s, size, inB2);
    var n1, n2 := |r.t1|, |r.t2|;
    FitMaximal(s.t1, limit);
    FitMaximal(s.t2, Max(0, s.max - size - Bytes(r.t1)));
    if n2 < |s.t2| {
      BytesPrefix(s.t2, n2 + 1, |s.t2|);
    } else {
      BytesPrefix(s.t2, n2, |s.t2|);
    }
    assert s.t2[..|s.t2|] == s.t2;
  }

  /** The state in which an inserting Put calls replace. */
  function BeforeReplace(s: Arc, item: Item): Arc {
    var m := IndexOf(s.b1, item.key);
    var n := IndexOf(s.b2, item.key);
    if m < |s.b1| then
      s.(p := Min(s.max, s.p + Step(Bytes(s.b1), Bytes(s.b2), s.b1[m].size)), b1 := RemoveAt(s.b1, m))
    else if n < |s.b2| then
      s.(p := Max(0, s.p - Step(Bytes(s.b2), Bytes(s.b1), s.b2[n].size)), b2 := RemoveAt(s.b2, n))
    else Prepare(s, item.size)
  }

  predicate HitsB2(s: Arc, item: Item) {
    IndexOf(s.b1, item.key) == |s.b1| && IndexOf(s.b2, item.key) < |s.b2|
  }

  /**
   After any inserting Put, from any state at all, the cache holds at most one item
   more than its capacity; it holds more than its capacity exactly when the floor of
   T1 left no room, and then the incoming item shares the cache with T1 only.
   */
  lemma {:induction false} InsertOccupancy(s: Arc, item: Item)
    requires s.p <= s.max && item.size <= s.max && !Resident(s, item.key)
    ensures var r := ArcPut(s, item); var before := BeforeReplace(s, item); var inB2 := HitsB2(s, item);
            && Occupancy(r) <= s.max + item.size <= 2 * s.max
            && (Occupancy(r) <= s.max <==> Floor(before, inB2) + item.size <= s.max)
            && (Occupancy(r) > s.max ==> Occupancy(r) - item.size <= before.p)
  {
    hide Step;
    hide Fit;
    hide Prepare;
    hide IndexOf;
    var before, inB2 := BeforeReplace(s, item), HitsB2(s, item);
    PrepareMax(s, item.size);
    assert before.max == s.max && before.p <= s.max;
    ReplaceOutcome(before, item.size, inB2);
    ReplaceMakesRoom(before, item.size, inB2);
    var r := Replace(before, item.size, inB2);
    BytesFront(item, r.t1);
    BytesFront(item, r.t2);
  }

  lemma PrepareMax(s: Arc, size: nat)
    ensures Prepare(s, size).max == s.max && Prepare(s, size).p == s.p
    ensures Prepare(s, size).t2 == s.t2
  {
  }

  /** Overwriting a resident item evicts nothing: the occupancy moves by the size difference. */
  lemma {:induction false} UpdateOccupancy(s: Arc, item: Item)
    requires item.size <= s.max && Resident(s, item.key)
    ensures var i, j := IndexOf(s.t1, item.key), IndexOf(s.t2, item.key);
            var prior := if i < |s.t1| then s.t1[i] else s.t2[j];
            Occupancy(ArcPut(s, item)) == Occupancy(s) - prior.size + item.size
  {
    var i, j := IndexOf(s.t1, item.key), IndexOf(s.t2, item.key);
    if i < |s.t1| {
      BytesUpdate(s.t1, i, item);
    } else {
      BytesUpdate(s.t2, j, item);
    }
  }

  /** The bound is tight: three Puts fill a cache of any capacity twice over. */
  lemma {:induction false} OccupancyCanDouble(max: nat)
    requires max > 0
    ensures var a, b := Item("a", max, Never, 1), Item("b", max, Never, 2);
            var s := ArcPut(ArcPut(ArcPut(ArcNew(max), a), b), a);
            s.t1 == [b] && s.t2 == [a] && Occupancy(s) == 2 * max
  {
    hide ArcPut;
    hide Occupancy;
    var a, b := Item("a", max, Never, 1), Item("b", max, Never, 2);
    FirstPut(max, a);
    FullCachePut(ArcPut(ArcNew(max), a), max, a, b);
    GhostPutOverfills(ArcPut(ArcPut(ArcNew(max), a), b), max, a, b);
  }

  lemma {:induction false} OneItem(a: Item, k: string)
    ensures Bytes([a]) == a.size
    ensures IndexOf([a], k) == if a.key == k then 0 else 1
  {
    assert [a][1..] == [];
  }

  lemma {:induction false} FirstPut(max: nat, a: Item)
    requires a.size <= max
    ensures ArcPut(ArcNew(max), a) == ArcNew(max).(t1 := [a])
  {
    hide Fit;
    hide Replace;
    hide Bytes;
    hide IndexOf;
    BytesNone();
    var s := Prepare(ArcNew(max), a.size);
    assert s == ArcNew(max);
    ReplaceDone(s, a.size, false);
  }

  /** Case IV.B: the only resident becomes a ghost. */
  lemma {:induction false} FullCachePut(s: Arc, max: nat, a: Item, b: Item)
    requires max > 0 && s == ArcNew(max).(t1 := [a]) && a.size == b.size == max && a.key != b.key
    ensures ArcPut(s, b) == ArcNew(max).(t1 := [b], b1 := [Stub(a)], stats := Stats(0, 0, 1))
  {
    hide Fit;
    hide T1Limit;
    hide Stubs;
    OneItem(a, b.key);
    var d := DemoteT1(s);
    assert d.t1 == [] && d.b1 == [Stub(a)];
    ReplaceDone(d, max, false);
  }

  /** The ghost comes back with p raised to the capacity, which protects the other item. */
  lemma {:induction false} GhostPutOverfills(s: Arc, max: nat, a: Item, b: Item)
    requires max > 0 && a.size == b.size == max && a.key != b.key
    requires s == ArcNew(max).(t1 := [b], b1 := [Stub(a)], stats := Stats(0, 0, 1))
    ensures var r := ArcPut(s, a); r.t1 == [b] && r.t2 == [a] && Occupancy(r) == 2 * max
  {
    hide Fit;
    hide T1Limit;
    hide Stubs;
    OneItem(b, a.key);
    OneItem(a, a.key);
    OneItem(Stub(a), a.key);
    assert 1 * max == max;
    ReplaceDone(s.(p := max, b1 := RemoveAt([Stub(a)], 0)), max, false);
  }

  // ----- overwriting -----

  /** Putting a key twice leaves it in T1: overwriting a resident key is not a second use of it. */
  lemma {:induction false} OverwriteStaysInT1(max: nat, a: Item, b: Item)
    requires a.key == b.key && a.size <= max && b.size <= max
    ensures ArcPut(ArcPut(ArcNew(max), a), b) == ArcNew(max).(t1 := [b])
  {
    FirstPut(max, a);
    OneItem(a, b.key);
  }

  /** Items of no size, one for each key. */
  function Placeholders(keys: seq<string>): (r: seq<Item>)
    ensures |r| == |keys|
  {
    seq(|keys|, i requires 0 <= i < |keys| => Item(keys[i], 0, Never, 0))
  }

  function Sized(keys: seq<string>, size: nat): (r: seq<Item>)
    ensures |r| == |keys|
  {
    seq(|keys|, i requires 0 <= i < |keys| => Item(keys[i], size, Never, 0))
  }

  ghost predicate DistinctKeys(keys: seq<string>) {
    forall i, j :: 0 <= i < j < |keys| ==> keys[i] != keys[j]
  }

  /** Without eviction a cache can hold any multiple of its capacity: n keys put at size 0 and overwritten at full size. */
  lemma {:induction false} OverwritesUnbounded(max: nat, keys: seq<string>)
    requires DistinctKeys(keys)
    ensures var s := PutAll(PutAll(ArcNew(max), Placeholders(keys)), Sized(keys, max));
            Occupancy(s) == |keys| * max && s.stats.evictions == 0
  {
    hide PutAll;
    hide Reversed;
    hide Bytes;
    var zeros, full := Placeholders(keys), Sized(keys, max);
    BytesNone();
    PutZeros(ArcNew(max), zeros);
    assert Reversed(zeros) + [] == Reversed(zeros);
    var s := ArcNew(max).(t1 := Reversed(zeros));
    ReversedMembers(zeros);
    ReversedDistinct(zeros);
    SameKeys(keys, max);
    Overwrite(s, full, max);
    var r := PutAll(s, full);
    BytesEqualSizes(r.t1, max);
  }

  /** Puts of new keys without size go to the front of T1 and displace nothing. */
  lemma {:induction false} PutZeros(s: Arc, items: seq<Item>)
    requires s.p == 0 && s.t2 == [] && s.b1 == [] && s.b2 == [] && Bytes(s.t1) == 0
    requires Distinct(items) && forall i :: 0 <= i < |items| ==> items[i].size == 0 && !HasKey(s.t1, items[i].key)
    ensures PutAll(s, items) == s.(t1 := Reversed(items) + s.t1)
    decreases |items|
  {
    hide ArcPut;
    if items == [] {
      assert [] + s.t1 == s.t1;
    } else {
      var it, rest := items[0], items[1..];
      ZeroPut(s, it);
      BytesFront(it, s.t1);
      forall i | 0 <= i < |rest| ensures !HasKey([it] + s.t1, rest[i].key) {
        assert rest[i] == items[i + 1];
        FrontHasKey(it, s.t1, rest[i].key);
      }
      PutZeros(s.(t1 := [it] + s.t1), rest);
      assert Reversed(rest) + ([it] + s.t1) == Reversed(items) + s.t1;
    }
  }

  lemma {:induction false} ZeroPut(s: Arc, it: Item)
    requires s.p == 0 && s.t2 == [] && s.b1 == [] && s.b2 == [] && Bytes(s.t1) == 0
    requires it.size == 0 && !HasKey(s.t1, it.key)
    ensures ArcPut(s, it) == s.(t1 := [it] + s.t1)
  {
    hide Fit;
    hide T1Limit;
    hide Stubs;
    hide HasKey;
    BytesNone();
    assert IndexOf([], it.key) == 0;
    ReplaceDone(s, 0, false);
  }

  lemma {:induction false} ReversedMembers(items: seq<Item>)
    ensures forall it :: it in Reversed(items) <==> it in items
  {
    if items != [] {
      ReversedMembers(items[1..]);
      assert forall it :: it in items <==> it == items[0] || it in items[1..];
    }
  }

  lemma {:induction false} ReversedDistinct(items: seq<Item>)
    requires Distinct(items)
    ensures Distinct(Reversed(items))
  {
    if items != [] {
      var front := Reversed(items[1..]);
      ReversedDistinct(items[1..]);
      ReversedMembers(items[1..]);
      forall i | 0 <= i < |front| ensures front[i].key != items[0].key {
        assert front[i] in items[1..];
      }
    }
  }

  /** The two item lists over the same keys have the same keys, also after a reversal. */
  lemma {:induction false} SameKeys(keys: seq<string>, size: nat)
    ensures var zeros, full := Placeholders(keys), Sized(keys, size);
            && (forall i :: 0 <= i < |full| ==> HasKey(Reversed(zeros), full[i].key))
            && (forall it :: it in Reversed(zeros) ==> HasKey(full, it.key))
  {
    var zeros, full := Placeholders(keys), Sized(keys, size);
    ReversedMembers(zeros);
    MembersKeys(Reversed(zeros));
    forall i | 0 <= i < |full| ensures HasKey(Reversed(zeros), full[i].key) {
      assert zeros[i] in zeros && zeros[i].key == full[i].key;
    }
    forall it | it in Reversed(zeros) ensures HasKey(full, it.key) {
      var i :| 0 <= i < |zeros| && zeros[i] == it;
      assert full[i].key == it.key;
    }
  }

  /** Overwriting resident keys of T1 one after the other: every one of them has the new size afterwards. */
  lemma {:induction false} Overwrite(s: Arc, items: seq<Item>, size: nat)
    requires size <= s.max && Distinct(s.t1)
    requires forall i :: 0 <= i < |items| ==> items[i].size == size && HasKey(s.t1, items[i].key)
    requires forall it :: it in s.t1 && it.size != size ==> HasKey(items, it.key)
    ensures var r := PutAll(s, items);
            && r == s.(t1 := r.t1) && |r.t1| == |s.t1| && forall i :: 0 <= i < |r.t1| ==> r.t1[i].size == size
    decreases |items|
  {
    hide IndexOf;
    if items == [] {
      forall i | 0 <= i < |s.t1| ensures s.t1[i].size == size {
        assert s.t1[i] in s.t1;
      }
    } else {
      var it, rest := items[0], items[1..];
      var i := IndexOf(s.t1, it.key);
      var next := s.(t1 := s.t1[i := it]);
      assert ArcPut(s, it) == next;
      forall j | 0 <= j < |rest| ensures rest[j].size == size && HasKey(next.t1, rest[j].key) {
        assert rest[j] == items[j + 1];
        KeysAfterUpdate(s.t1, i, it, rest[j].key);
      }
      UpdateKeys(s.t1, i, it);
      forall x | x in next.t1 && x.size != size ensures HasKey(rest, x.key) {
        StillOld(s.t1, i, x, items);
      }
      Overwrite(next, rest, size);
    }
  }

  /** An entry that was not overwritten has a key among the items still to come. */
  lemma {:induction false} StillOld(xs: seq<Item>, i: nat, x: Item, items: seq<Item>)
    requires Distinct(xs) && items != [] && i < |xs| && xs[i].key == items[0].key
    requires x in xs[i := items[0]] && x != items[0] && HasKey(items, x.key)
    ensures HasKey(items[1..], x.key)
  {
    var m :| 0 <= m < |xs| && xs[i := items[0]][m] == x;
    assert m != i && xs[m] == x;
    var j :| 0 <= j < |items| && items[j].key == x.key;
    assert j > 0 by {
      assert m < i ==> xs[m].key != xs[i].key;
      assert i < m ==> xs[i].key != xs[m].key;
    }
    assert items[1..][j - 1].key == x.key;
  }

  lemma {:induction false} KeysAfterUpdate(xs: seq<Item>, i: nat, it: Item, k: string)
    requires i < |xs| && xs[i].key == it.key && HasKey(xs, k)
    ensures HasKey(xs[i := it], k)
  {
    var j :| 0 <= j < |xs| && xs[j].key == k;
    assert xs[i := it][j].key == k;
  }
  // ----- scan resistance -----

  function PutAll(s: Arc, items: seq<Item>): Arc
    decreases |items|
  {
    if items == [] then s else PutAll(ArcPut(s, items[0]), items[1..])
  }

  /** No item is known to the cache when its turn comes; a key may return once the directory has forgotten it. */
  ghost predicate AllNew(s: Arc, items: seq<Item>)
    decreases |items|
  {
    items == [] || (!InIndex(s, items[0].key) && AllNew(ArcPut(s, items[0]), items[1..]))
  }

  /** In particular, items of distinct keys that the cache does not know at the start. */
  lemma {:induction false} DistinctIsNew(s: Arc, items: seq<Item>)
    requires Distinct(items) && forall i :: 0 <= i < |items| ==> !InIndex(s, items[i].key)
    requires forall i :: 0 <= i < |items| ==> s.p + Bytes(s.t2) + items[i].size <= s.max
    ensures AllNew(s, items)
    decreases |items|
  {
    hide ArcPut;
    hide InIndex;
    if items != [] {
      var s', rest := ArcPut(s, items[0]), items[1..];
      ScanStep(s, items[0]);
      forall i | 0 <= i < |rest| ensures !InIndex(s', rest[i].key) {
        assert rest[i] == items[i + 1];
      }
      DistinctIsNew(s', rest);
    }
  }

  lemma {:induction false} ScanStep(s: Arc, item: Item)
    requires !InIndex(s, item.key) && s.p + Bytes(s.t2) + item.size <= s.max
    ensures var r := ArcPut(s, item);
            && r.t2 == s.t2 && r.p == s.p && r.max == s.max
            && r.t1 != [] && r.t1[0] == item
    ensures forall k :: InIndex(ArcPut(s, item), k) ==> k == item.key || InIndex(s, k)
  {
    hide Fit;
    hide Stubs;
    hide HasKey;
    hide IndexOf;
    var s' := Prepare(s, item.size);
    PrepareMax(s, item.size);
    var r := Replace(s', item.size, false);
    FitAll(s.t2, Max(0, s.max - item.size - Bytes(r.t1)));
    forall k | InIndex(ArcPut(s, item), k) ensures k == item.key || InIndex(s, k) {
      PrepareAbsent(s, item.size, k);
      ReplaceAbsent(s', item.size, false, k);
      FrontHasKey(item, r.t1, k);
    }
  }

  lemma {:induction false} FrontHasKey(it: Item, xs: seq<Item>, k: string)
    ensures HasKey([it] + xs, k) ==> k == it.key || HasKey(xs, k)
  {
    var r := [it] + xs;
    if HasKey(r, k) && k != it.key {
      var i :| 0 <= i < |r| && r[i].key == k;
      assert xs[i - 1].key == k;
    }
  }

  /** A scan of any length leaves T2 and p exactly as they were. */
  lemma {:induction false} ScanResistance(s: Arc, items: seq<Item>)
    requires AllNew(s, items)
    requires forall i :: 0 <= i < |items| ==> s.p + Bytes(s.t2) + items[i].size <= s.max
    ensures var r := PutAll(s, items); r.t2 == s.t2 && r.p == s.p && r.max == s.max
    decreases |items|
  {
    hide ArcPut;
    hide InIndex;
    if items != [] {
      ScanStep(s, items[0]);
      ScanResistance(ArcPut(s, items[0]), items[1..]);
    }
  }

  /** So a hot item of T2 is still served after the scan. */
  lemma {:induction false} HotItemSurvivesScan(s: Arc, items: seq<Item>, j: nat, now: int)
    requires ArcInv(s) && AllNew(s, items)
    requires forall i :: 0 <= i < |items| ==> s.p + Bytes(s.t2) + items[i].size <= s.max
    requires j < |s.t2| && !Expired(s.t2[j], now)
    ensures ArcGet(PutAll(s, items), s.t2[j].key, now).1 == Some(s.t2[j])
  {
    hide PutAll;
    hide AllNew;
    ScanResistance(s, items);
    var r := PutAll(s, items);
    PutAllKeepsInv(s, items);
    ActiveKeys(r.t1, r.b1);
    ActiveKeys(r.t2, r.b2);
    assert HasKey(r.t2, s.t2[j].key);
    UniqueByKey(r.t2, j, s.t2[j].key);
  }

  lemma {:induction false} PutAllKeepsInv(s: Arc, items: seq<Item>)
    requires ArcInv(s)
    ensures ArcInv(PutAll(s, items))
    decreases |items|
  {
    if items != [] {
      ApplyKeepsInv(s, Put(items[0]));
      PutAllKeepsInv(ArcPut(s, items[0]), items[1..]);
    }
  }

  // ----- ARC and LRU on a scan of equal-sized items -----

  function Reversed(xs: seq<Item>): (r: seq<Item>)
    ensures |r| == |xs|
  {
    if xs == [] then [] else Reversed(xs[1..]) + [xs[0]]
  }

  function LruPutAll(c: Lru, items: seq<Item>): Lru
    decreases |items|
  {
    if items == [] then c else LruPutAll(LruPut(c, items[0]), items[1..])
  }

  lemma {:induction false} BytesEqualSizes(xs: seq<Item>, size: nat)
    requires forall i :: 0 <= i < |xs| ==> xs[i].size == size
    ensures Bytes(xs) == |xs| * size
  {
    if xs != [] {
      BytesEqualSizes(xs[1..], size);
    }
  }

  lemma {:induction false} MulMonotone(a: nat, b: nat, size: nat)
    requires a <= b
    ensures a * size <= b * size
    ensures a < b && size > 0 ==> a * size + size <= b * size
  {
    assert a < b ==> (a + 1) * size <= b * size;
  }

  lemma {:induction false} FitEqualSizes(xs: seq<Item>, size: nat, n: nat)
    requires size > 0 && forall i :: 0 <= i < |xs| ==> xs[i].size == size
    ensures Fit(xs, n * size) == xs[..Min(n, |xs|)]
  {
    hide Bytes;
    hide Fit;
    var m := Min(n, |xs|);
    BytesEqualSizes(xs[..m], size);
    MulMonotone(m, n, size);
    if m < |xs| {
      BytesEqualSizes(xs[..m + 1], size);
      MulMonotone(n, m + 1, size);
    }
    FitUnique(xs, n * size, m);
  }

  /**
   The history of the scan, newest first, is split between T1 and B1: T1 is the
   newest `slots` items and B1 remembers every older one, in order.
   */
  ghost predicate ArcScan(s: Arc, hist: seq<Item>, slots: nat, size: nat) {
    && s.max == slots * size && s.p == 0 && s.t2 == [] && s.b2 == []
    && (forall i :: 0 <= i < |hist| ==> hist[i].size == size)
    && s.t1 == hist[..Min(slots, |hist|)]
    && s.b1 == Stubs(hist[Min(slots, |hist|)..])
  }

  ghost predicate LruScan(c: Lru, hist: seq<Item>, slots: nat, size: nat) {
    && c.max == slots * size
    && (forall i :: 0 <= i < |hist| ==> hist[i].size == size)
    && c.list == hist[..Min(slots, |hist|)]
  }

  lemma {:induction false} LruScanPut(c: Lru, hist: seq<Item>, slots: nat, size: nat, item: Item)
    requires LruScan(c, hist, slots, size) && slots > 0 && size > 0
    requires item.size == size && !HasKey(hist, item.key)
    ensures LruScan(LruPut(c, item), [item] + hist, slots, size)
  {
    hide Fit;
    var moved := [item] + RemoveKey(c.list, item.key);
    assert RemoveKey(c.list, item.key) == c.list by {
      assert forall i :: 0 <= i < |c.list| ==> c.list[i].key == hist[i].key;
    }
    MulMonotone(1, slots, size);
    FitEqualSizes(moved, size, slots);
    assert moved[..Min(slots, |moved|)] == ([item] + hist)[..Min(slots, |hist| + 1)];
  }

  lemma {:induction false} ArcScanPut(s: Arc, hist: seq<Item>, slots: nat, size: nat, item: Item)
    requires ArcScan(s, hist, slots, size) && slots > 0 && size > 0
    requires item.size == size && !HasKey(hist, item.key)
    ensures ArcScan(ArcPut(s, item), [item] + hist, slots, size)
  {
    hide Stubs;
    hide Bytes;
    hide Fit;
    hide IndexOf;
    hide HasKey;
    hide Prepare;
    hide Replace;
    hide T1Limit;
    var n, m, hist' := |hist|, Min(slots, |hist|), [item] + hist;
    ScanAbsent(s, hist, m, item.key);
    ScanBytes(s, hist, slots, size);
    ScanPrepare(s, hist, slots, size);
    MulMonotone(1, slots, size);
    var s', k := Prepare(s, size), Min(slots - 1, n);
    BytesEqualSizes(s'.t1, size);
    MulMonotone(k, slots, size);
    BytesNone();
    ReplaceDone(s', size, false);
    assert [item] + s'.t1 == hist'[..Min(slots, n + 1)];
    assert hist'[Min(slots, n + 1)..] == hist[k..];
  }

  lemma {:induction false} ScanAbsent(s: Arc, hist: seq<Item>, m: nat, k: string)
    requires m <= |hist| && s.t1 == hist[..m] && s.b1 == Stubs(hist[m..]) && s.t2 == [] && s.b2 == [] && !HasKey(hist, k)
    ensures !InIndex(s, k)
    ensures IndexOf(s.t1, k) == |s.t1| && IndexOf(s.t2, k) == 0 && IndexOf(s.b1, k) == |s.b1| && IndexOf(s.b2, k) == 0
  {
    forall i | 0 <= i < m ensures s.t1[i].key != k {
      assert s.t1[i] == hist[i];
    }
    forall i | 0 <= i < |s.b1| ensures s.b1[i].key != k {
      assert s.b1[i].key == hist[m + i].key;
    }
  }

  lemma {:induction false} ScanBytes(s: Arc, hist: seq<Item>, slots: nat, size: nat)
    requires forall i :: 0 <= i < |hist| ==> hist[i].size == size
    requires s.t1 == hist[..Min(slots, |hist|)] && s.b1 == Stubs(hist[Min(slots, |hist|)..]) && s.t2 == [] && s.b2 == []
    ensures Bytes(s.t1) == Min(slots, |hist|) * size && Bytes(s.b1) == (|hist| - Min(slots, |hist|)) * size
    ensures Bytes(s.t2) == 0 && Bytes(s.b2) == 0
  {
    BytesEqualSizes(s.t1, size);
    BytesEqualSizes(s.b1, size);
  }

  /** Until the slots are full nothing is displaced; afterwards Case IV.B demotes one item per Put. */
  lemma {:induction false} ScanPrepare(s: Arc, hist: seq<Item>, slots: nat, size: nat)
    requires slots > 0 && size > 0 && s.max == slots * size && s.t2 == [] && s.b2 == []
    requires s.t1 == hist[..Min(slots, |hist|)] && s.b1 == Stubs(hist[Min(slots, |hist|)..])
    requires Bytes(s.t1) == Min(slots, |hist|) * size && Bytes(s.b1) == (|hist| - Min(slots, |hist|)) * size
    requires Bytes(s.t2) == 0 && Bytes(s.b2) == 0
    ensures var r := Prepare(s, size); var k := Min(slots - 1, |hist|);
            && r.t1 == hist[..k] && r.b1 == Stubs(hist[k..])
            && r.t2 == [] && r.b2 == [] && r.p == s.p && r.max == s.max
  {
    hide Bytes;
    hide Stubs;
    var n := |hist|;
    if n < slots {
      MulMonotone(n + 1, slots, size);
      assert (n + 1) * size == n * size + size && (n - n) * size == 0;
      assert s.t1 == hist && hist[n..] == [] && hist[..n] == hist;
      assert DropLast(s.b2) == s.b2;
    } else {
      assert Bytes(s.t1) == s.max && Bytes(s.b1) >= 0;
      assert s.t1[..slots - 1] == hist[..slots - 1] && s.t1[slots - 1] == hist[slots - 1];
      assert hist[slots - 1..] == [hist[slots - 1]] + hist[slots..];
      StubsAppend([hist[slots - 1]], hist[slots..]);
      assert Stubs([hist[slots - 1]]) == [Stub(hist[slots - 1])];
    }
  }

  /**
   From empty caches whose capacity is a whole number of items, Puts of distinct
   equal-sized items leave ARC's T1 equal to the LRU list, and B1 holding every
   earlier key: the directory of ARC grows without bound.
   */
  lemma {:induction false} EqualSizeScan(items: seq<Item>, slots: nat, size: nat)
    requires slots > 0 && size > 0 && Distinct(items)
    requires forall i :: 0 <= i < |items| ==> items[i].size == size
    ensures var s := PutAll(ArcNew(slots * size), items); var c := LruPutAll(LruNew(slots * size), items);
            var hist := Reversed(items); var m := Min(slots, |items|);
            && s.t1 == c.list == hist[..m] && s.b1 == Stubs(hist[m..]) && s.t2 == [] && s.b2 == []
            && Bytes(s.t1 + s.b1) == |items| * size
  {
    hide PutAll;
    hide LruPutAll;
    hide Reversed;
    hide Bytes;
    var s, c, hist := PutAll(ArcNew(slots * size), items), LruPutAll(LruNew(slots * size), items), Reversed(items);
    assert Stubs([]) == [];
    EqualSizeScanFrom(ArcNew(slots * size), LruNew(slots * size), [], items, slots, size);
    assert hist + [] == hist;
    ScanTotal(s, hist, slots, size);
  }

  lemma {:induction false} ScanTotal(s: Arc, hist: seq<Item>, slots: nat, size: nat)
    requires ArcScan(s, hist, slots, size)
    ensures Bytes(s.t1 + s.b1) == |hist| * size
  {
    ScanBytes(s, hist, slots, size);
    BytesAppend(s.t1, s.b1);
    var m := Min(slots, |hist|);
    assert m * size + (|hist| - m) * size == |hist| * size;
  }

  lemma {:induction false} EqualSizeScanFrom(s: Arc, c: Lru, hist: seq<Item>, items: seq<Item>, slots: nat, size: nat)
    requires ArcScan(s, hist, slots, size) && LruScan(c, hist, slots, size) && slots > 0 && size > 0
    requires Distinct(items) && forall i :: 0 <= i < |items| ==> items[i].size == size && !HasKey(hist, items[i].key)
    ensures ArcScan(PutAll(s, items), Reversed(items) + hist, slots, size)
    ensures LruScan(LruPutAll(c, items), Reversed(items) + hist, slots, size)
    decreases |items|
  {
    hide ArcScan;
    hide LruScan;
    hide ArcPut;
    hide LruPut;
    if items == [] {
      assert Reversed(items) + hist == hist;
    } else {
      var rest, hist' := items[1..], [items[0]] + hist;
      ArcScanPut(s, hist, slots, size, items[0]);
      LruScanPut(c, hist, slots, size, items[0]);
      forall i | 0 <= i < |rest| ensures rest[i].size == size && !HasKey(hist', rest[i].key) {
        assert rest[i] == items[i + 1];
        FrontHasKey(items[0], hist, rest[i].key);
      }
      EqualSizeScanFrom(ArcPut(s, items[0]), LruPut(c, items[0]), hist', rest, slots, size);
      assert Reversed(items) + hist == Reversed(rest) + hist';
    }
  }
}
