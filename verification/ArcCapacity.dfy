/**
 Two bounds one would expect of ARC and does not get (internal/cache/arc.go:139-262):
 all four lists within twice the capacity, and the residents within twice the
 capacity. For each, what one call does to it, and exactly which runs keep it.
 */
module ArcCapacity {
  import opened Wrappers
  import opened CacheItems
  import opened ArcModel
  import opened ArcLists
  import opened ArcRuns
  import opened ArcBounds

  // ----- the directory: residents and ghosts -----

  function DirectoryBytes(s: Arc): nat {
    Bytes(s.t1) + Bytes(s.t2) + Bytes(s.b1) + Bytes(s.b2)
  }

  lemma {:induction false} DirectoryOnLists(s: Arc)
    ensures DirectoryBytes(s) == Bytes(Lists(s).l1) + Bytes(Lists(s).l2)
  {
    hide Bytes;
    hide Stubs;
    BytesAppend(s.t1, s.b1);
    BytesAppend(s.t2, s.b2);
    BytesStubs(s.t1 + s.b1);
    BytesStubs(s.t2 + s.b2);
  }

  lemma {:induction false} ReplaceKeepsBytes(s: Arc, size: nat, inB2: bool)
    ensures DirectoryBytes(Replace(s, size, inB2)) == DirectoryBytes(s)
  {
    hide DirectoryBytes;
    hide Replace;
    hide Lists;
    DirectoryOnLists(s);
    DirectoryOnLists(Replace(s, size, inB2));
    ReplaceKeepsLists(s, size, inB2);
  }

  function LastSize(xs: seq<Item>): nat {
    if xs == [] then 0 else xs[|xs| - 1].size
  }

  /** The bytes of the ghost that Case IV drops before replace. */
  function PrepareFreed(s: Arc, size: nat): nat {
    if Bytes(s.t1) + Bytes(s.b1) + size > s.max then (if Bytes(s.t1) < s.max then LastSize(s.b1) else 0)
    else if DirectoryBytes(s) + size >= 2 * s.max then LastSize(s.b2)
    else 0
  }

  lemma {:induction false} PrepareBytes(s: Arc, size: nat)
    ensures DirectoryBytes(Prepare(s, size)) == DirectoryBytes(s) - PrepareFreed(s, size)
  {
    hide Bytes;
    hide DemoteT1;
    DropLastBytes(s.b1);
    DropLastBytes(s.b2);
    DemoteKeepsBytes(s);
  }

  lemma {:induction false} DropLastBytes(xs: seq<Item>)
    ensures Bytes(DropLast(xs)) == Bytes(xs) - LastSize(xs)
  {
    hide Bytes;
    if xs != [] {
      BytesDropLast(xs);
    }
  }

  lemma {:induction false} DemoteKeepsBytes(s: Arc)
    ensures DirectoryBytes(DemoteT1(s)) == DirectoryBytes(s)
  {
    hide DirectoryBytes;
    hide DemoteT1;
    hide Lists;
    DirectoryOnLists(s);
    DirectoryOnLists(DemoteT1(s));
    DemoteKeepsLists(s);
  }

  /** What an accepted Put takes out of the directory: the key's own entry, or the ghost that Case IV drops. */
  function Freed(s: Arc, item: Item): nat {
    var i, j := IndexOf(s.t1, item.key), IndexOf(s.t2, item.key);
    var m, n := IndexOf(s.b1, item.key), IndexOf(s.b2, item.key);
    if i < |s.t1| then s.t1[i].size
    else if j < |s.t2| then s.t2[j].size
    else if m < |s.b1| then s.b1[m].size
    else if n < |s.b2| then s.b2[n].size
    else PrepareFreed(s, item.size)
  }

  /** The directory after an accepted Put, and exactly when it is within twice the capacity. */
  lemma {:induction false} DirectoryAfterPut(s: Arc, item: Item)
    requires item.size <= s.max
    ensures DirectoryBytes(ArcPut(s, item)) == DirectoryBytes(s) + item.size - Freed(s, item)
    ensures DirectoryBytes(ArcPut(s, item)) <= 2 * s.max <==> DirectoryBytes(s) + item.size <= 2 * s.max + Freed(s, item)
  {
    hide Bytes;
    hide IndexOf;
    hide Replace;
    hide Prepare;
    hide Step;
    hide RemoveAt;
    hide PrepareFreed;
    var i, j := IndexOf(s.t1, item.key), IndexOf(s.t2, item.key);
    var m, n := IndexOf(s.b1, item.key), IndexOf(s.b2, item.key);
    if i < |s.t1| {
      BytesUpdate(s.t1, i, item);
    } else if j < |s.t2| {
      BytesUpdate(s.t2, j, item);
    } else if m < |s.b1| {
      var p := Min(s.max, s.p + Step(Bytes(s.b1), Bytes(s.b2), s.b1[m].size));
      BytesRemoveAt(s.b1, m);
      AdmitBytes(s.(p := p, b1 := RemoveAt(s.b1, m)), item, false);
    } else if n < |s.b2| {
      var p := Max(0, s.p - Step(Bytes(s.b2), Bytes(s.b1), s.b2[n].size));
      BytesRemoveAt(s.b2, n);
      AdmitBytes(s.(p := p, b2 := RemoveAt(s.b2, n)), item, true);
    } else {
      PrepareBytes(s, item.size);
      ReplaceKeepsBytes(Prepare(s, item.size), item.size, false);
      BytesFront(item, Replace(Prepare(s, item.size), item.size, false).t1);
    }
  }

  lemma {:induction false} AdmitBytes(s: Arc, item: Item, inB2: bool)
    ensures var r := Replace(s, item.size, inB2);
            DirectoryBytes(r.(t2 := [item] + r.t2)) == DirectoryBytes(s) + item.size
  {
    hide Bytes;
    hide Replace;
    ReplaceKeepsBytes(s, item.size, inB2);
    BytesFront(item, Replace(s, item.size, inB2).t2);
  }

  /** A Get adds nothing to the directory and nothing to the residents. */
  lemma {:induction false} GetBytes(s: Arc, key: string, now: int)
    ensures var r := ArcGet(s, key, now).0;
            DirectoryBytes(r) <= DirectoryBytes(s) && Occupancy(r) <= Occupancy(s) && r.max == s.max && r.p == s.p
  {
    hide Bytes;
    hide IndexOf;
    hide RemoveAt;
    var i, j := IndexOf(s.t1, key), IndexOf(s.t2, key);
    if i < |s.t1| {
      BytesRemoveAt(s.t1, i);
      BytesFront(s.t1[i], s.t2);
    } else if j < |s.t2| {
      BytesRemoveAt(s.t2, j);
      BytesFront(s.t2[j], RemoveAt(s.t2, j));
    }
  }

  /** The directory stays within twice the capacity after every call. */
  ghost predicate DirectoryWithin(s: Arc, ops: seq<Op>)
    decreases |ops|
  {
    DirectoryBytes(s) <= 2 * s.max && (ops == [] || DirectoryWithin(Apply(s, ops[0]), ops[1..]))
  }

  /** Every accepted Put, when its turn comes, frees enough for its item. */
  ghost predicate PutsFreeEnough(s: Arc, ops: seq<Op>)
    decreases |ops|
  {
    ops == []
    || ((ops[0].Put? && ops[0].item.size <= s.max ==>
           DirectoryBytes(s) + ops[0].item.size <= 2 * s.max + Freed(s, ops[0].item))
        && PutsFreeEnough(Apply(s, ops[0]), ops[1..]))
  }

  /** Exactly which runs keep the directory within twice the capacity. */
  lemma {:induction false} DirectoryRuns(s: Arc, ops: seq<Op>)
    requires DirectoryBytes(s) <= 2 * s.max
    ensures DirectoryWithin(s, ops) <==> PutsFreeEnough(s, ops)
    decreases |ops|
  {
    hide DirectoryBytes;
    hide Freed;
    if ops != [] {
      DirectoryStep(s, ops[0]);
      if DirectoryBytes(Apply(s, ops[0])) <= 2 * s.max {
        DirectoryRuns(Apply(s, ops[0]), ops[1..]);
      }
    }
  }

  lemma {:induction false} DirectoryStep(s: Arc, op: Op)
    requires DirectoryBytes(s) <= 2 * s.max
    ensures Apply(s, op).max == s.max
    ensures DirectoryBytes(Apply(s, op)) <= 2 * s.max
            <==> (op.Put? && op.item.size <= s.max ==> DirectoryBytes(s) + op.item.size <= 2 * s.max + Freed(s, op.item))
  {
    hide DirectoryBytes;
    hide Freed;
    match op
    case Get(key, now) => GetBytes(s, key, now);
    case Put(item) =>
      if item.size <= s.max {
        DirectoryAfterPut(s, item);
      }
  }

  // ----- the residents -----

  /** What is resident under the key, if anything is. */
  function PriorSize(s: Arc, key: string): nat {
    var i, j := IndexOf(s.t1, key), IndexOf(s.t2, key);
    if i < |s.t1| then s.t1[i].size else if j < |s.t2| then s.t2[j].size else 0
  }

  /** An accepted Put that overwrites must leave the sizes within twice the capacity; nothing is asked of other calls. */
  predicate OverwriteFits(s: Arc, op: Op) {
    op.Put? && op.item.size <= s.max && Resident(s, op.item.key) ==>
      Occupancy(s) + op.item.size <= 2 * s.max + PriorSize(s, op.item.key)
  }

  ghost predicate OccupancyWithin(s: Arc, ops: seq<Op>)
    decreases |ops|
  {
    Occupancy(s) <= 2 * s.max && (ops == [] || OccupancyWithin(Apply(s, ops[0]), ops[1..]))
  }

  ghost predicate OverwritesFit(s: Arc, ops: seq<Op>)
    decreases |ops|
  {
    ops == [] || (OverwriteFits(s, ops[0]) && OverwritesFit(Apply(s, ops[0]), ops[1..]))
  }

  /** Exactly which runs keep the residents within twice the capacity. */
  lemma {:induction false} OccupancyRuns(s: Arc, ops: seq<Op>)
    requires s.p <= s.max && Occupancy(s) <= 2 * s.max
    ensures OccupancyWithin(s, ops) <==> OverwritesFit(s, ops)
    decreases |ops|
  {
    hide Occupancy;
    hide OverwriteFits;
    if ops != [] {
      OccupancyStep(s, ops[0]);
      if Occupancy(Apply(s, ops[0])) <= 2 * s.max {
        OccupancyRuns(Apply(s, ops[0]), ops[1..]);
      }
    }
  }

  lemma {:induction false} OccupancyStep(s: Arc, op: Op)
    requires s.p <= s.max && Occupancy(s) <= 2 * s.max
    ensures Apply(s, op).p <= Apply(s, op).max == s.max
    ensures Occupancy(Apply(s, op)) <= 2 * s.max <==> OverwriteFits(s, op)
  {
    hide Occupancy;
    hide ArcGet;
    hide IndexOf;
    match op
    case Get(key, now) => GetBytes(s, key, now);
    case Put(item) =>
      TargetInRange(s, item);
      if item.size <= s.max {
        if Resident(s, item.key) {
          UpdateOccupancy(s, item);
        } else {
          InsertOccupancy(s, item);
        }
      }
  }

  /** No Put enlarges the entry that is resident when its turn comes. */
  ghost predicate NothingGrows(s: Arc, ops: seq<Op>)
    decreases |ops|
  {
    ops == []
    || ((ops[0].Put? && Resident(s, ops[0].item.key) ==> ops[0].item.size <= PriorSize(s, ops[0].item.key))
        && NothingGrows(Apply(s, ops[0]), ops[1..]))
  }

  /** In particular it is enough that no resident entry grows. */
  lemma {:induction false} SteadySizesFit(s: Arc, ops: seq<Op>)
    requires s.p <= s.max && Occupancy(s) <= 2 * s.max && NothingGrows(s, ops)
    ensures OccupancyWithin(s, ops)
    decreases |ops|
  {
    hide Occupancy;
    hide PriorSize;
    if ops != [] {
      OccupancyStep(s, ops[0]);
      SteadySizesFit(Apply(s, ops[0]), ops[1..]);
    }
  }

  // ----- scans -----

  /** Exactly when a Put of an unknown key leaves T2 alone. */
  predicate SparesT2(s: Arc, size: nat) {
    Bytes(s.t2) == 0 || Floor(Prepare(s, size), false) + Bytes(s.t2) + size <= s.max
  }

  lemma {:induction false} FreshPutOnT2(s: Arc, item: Item)
    requires !InIndex(s, item.key) && item.size <= s.max
    ensures var r := ArcPut(s, item);
            && r.t2 <= s.t2 && r.p == s.p && r.max == s.max
            && (r.t2 == s.t2 <==> SparesT2(s, item.size))
  {
    hide Stubs;
    hide HasKey;
    hide IndexOf;
    hide Prepare;
    hide Bytes;
    hide Fit;
    PrepareMax(s, item.size);
    ReplaceOnT2(Prepare(s, item.size), item.size);
  }

  lemma {:induction false} ReplaceOnT2(s: Arc, size: nat)
    requires size <= s.max
    ensures var r := Replace(s, size, false);
            r.t2 <= s.t2 && (r.t2 == s.t2 <==> Bytes(s.t2) == 0 || Floor(s, false) + Bytes(s.t2) + size <= s.max)
  {
    hide Bytes;
    hide Fit;
    hide Stubs;
    var limit := T1Limit(s, size, false);
    var keep1 := Fit(s.t1, limit);
    var room := Max(0, s.max - size - Bytes(keep1));
    FitMonotone(s.t1, s.p, limit);
    if Bytes(s.t2) <= room {
      FitAll(s.t2, room);
    }
  }

  /** Every item of the scan, when its turn comes, leaves T2 alone. */
  ghost predicate ScanSparesT2(s: Arc, items: seq<Item>)
    decreases |items|
  {
    items == [] || (SparesT2(s, items[0].size) && ScanSparesT2(ArcPut(s, items[0]), items[1..]))
  }

  /** Exactly which scans leave T2 as it was; none moves p. */
  lemma {:induction false} ScanExact(s: Arc, items: seq<Item>)
    requires AllNew(s, items) && forall i :: 0 <= i < |items| ==> items[i].size <= s.max
    ensures var r := PutAll(s, items);
            r.t2 <= s.t2 && r.p == s.p && r.max == s.max && (r.t2 == s.t2 <==> ScanSparesT2(s, items))
    decreases |items|
  {
    hide ArcPut;
    hide InIndex;
    hide SparesT2;
    if items != [] {
      FreshPutOnT2(s, items[0]);
      ScanExact(ArcPut(s, items[0]), items[1..]);
    }
  }

  /** A scan is a run of Puts. */
  lemma {:induction false} ScanIsRun(t: Traced, items: seq<Item>)
    ensures Run(t, seq(|items|, i requires 0 <= i < |items| => Put(items[i]))).arc == PutAll(t.arc, items)
    decreases |items|
  {
    hide ArcPut;
    var ops := seq(|items|, i requires 0 <= i < |items| => Put(items[i]));
    if items != [] {
      var rest := items[1..];
      assert ops[1..] == seq(|rest|, i requires 0 <= i < |rest| => Put(rest[i]));
      ScanIsRun(Next(t, ops[0]), rest);
    }
  }
}
