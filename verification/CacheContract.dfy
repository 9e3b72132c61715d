/**
 The Cache interface (internal/cache/cache.go:33-46) over both implementations, and
 what every run of either one agrees with: a plain map from keys to the last accepted
 item, and a ledger of insertions, evictions and expiry removals.
 */
module CacheContract {
  import opened Wrappers
  import opened CacheItems
  import opened LruModel
  import opened ArcModel
  import ArcRuns

  datatype CacheState = LruState(lru: Lru) | ArcState(arc: Arc)

  function CacheGet(c: CacheState, key: string, now: int): (CacheState, Option<Item>) {
    match c
    case LruState(lru) => var r := LruGet(lru, key, now); (LruState(r.0), r.1)
    case ArcState(arc) => var r := ArcGet(arc, key, now); (ArcState(r.0), r.1)
  }

  function CachePut(c: CacheState, item: Item): CacheState {
    match c
    case LruState(lru) => LruState(LruPut(lru, item))
    case ArcState(arc) => ArcState(ArcPut(arc, item))
  }

  function Residents(c: CacheState): seq<Item> {
    match c
    case LruState(lru) => lru.list
    case ArcState(arc) => arc.t1 + arc.t2
  }

  function Counters(c: CacheState): Stats {
    match c
    case LruState(lru) => lru.stats
    case ArcState(arc) => arc.stats
  }

  function Capacity(c: CacheState): nat {
    match c
    case LruState(lru) => lru.max
    case ArcState(arc) => arc.max
  }

  ghost predicate CacheInv(c: CacheState) {
    match c
    case LruState(lru) => LruInv(lru)
    case ArcState(arc) => ArcRuns.ArcInv(arc)
  }

  ghost predicate Empty(c: CacheState) {
    match c
    case LruState(lru) => lru == LruNew(lru.max)
    case ArcState(arc) => arc == ArcNew(arc.max)
  }

  // ----- one operation -----

  lemma {:induction false} ArcResidentKeys(s: Arc)
    requires ArcRuns.ArcInv(s)
    ensures Distinct(s.t1 + s.t2)
    ensures forall k :: HasKey(s.t1 + s.t2, k) <==> HasKey(s.t1, k) || HasKey(s.t2, k)
  {
    hide Distinct;
    hide HasKey;
    hide Stubs;
    ArcRuns.ActiveKeys(s.t1, s.b1);
    ArcRuns.ActiveKeys(s.t2, s.b2);
    KeysAppend(s.t1, s.t2);
    DistinctAppend(s.t1, s.t2);
  }

  lemma {:induction false} ResidentsDistinct(c: CacheState)
    requires CacheInv(c)
    ensures Distinct(Residents(c))
  {
    if c.ArcState? {
      ArcResidentKeys(c.arc);
    }
  }

  lemma {:induction false} CacheKeepsInv(c: CacheState, key: string, now: int, item: Item)
    requires CacheInv(c)
    ensures CacheInv(CacheGet(c, key, now).0) && Capacity(CacheGet(c, key, now).0) == Capacity(c)
    ensures CacheInv(CachePut(c, item)) && Capacity(CachePut(c, item)) == Capacity(c)
  {
    hide LruInv;
    hide ArcRuns.ArcInv;
    match c
    case LruState(lru) =>
      LruGetKeepsInv(lru, key, now);
      LruPutKeepsInv(lru, item);
    case ArcState(arc) =>
      ArcRuns.ApplyKeepsInv(arc, Get(key, now));
      ArcRuns.ApplyKeepsInv(arc, Put(item));
  }

  /** A Get hits exactly when the key is resident and unexpired, and returns the resident item. */
  lemma {:induction false} GetHits(c: CacheState, key: string, now: int)
    requires CacheInv(c)
    ensures var xs := Residents(c); var i := IndexOf(xs, key);
            CacheGet(c, key, now).1 == if i < |xs| && !Expired(xs[i], now) then Some(xs[i]) else None
  {
    if c.ArcState? {
      var s, xs := c.arc, Residents(c);
      ArcResidentKeys(s);
      var i, j := IndexOf(s.t1, key), IndexOf(s.t2, key);
      if i < |s.t1| {
        UniqueByKey(xs, i, key);
      } else if j < |s.t2| {
        UniqueByKey(xs, |s.t1| + j, key);
      }
    }
  }

  /** What a Get leaves resident: everything, except the key it found expired. */
  lemma {:induction false} GetResidents(c: CacheState, key: string, now: int)
    requires CacheInv(c)
    ensures var xs := Residents(c); var ys := Residents(CacheGet(c, key, now).0);
            var gone := IndexOf(xs, key) < |xs| && Expired(xs[IndexOf(xs, key)], now);
            && (forall it :: it in ys ==> it in xs)
            && |ys| == |xs| - (if gone then 1 else 0)
  {
    hide Distinct;
    hide IndexOf;
    hide HasKey;
    hide ArcGet;
    hide ArcRuns.ArcInv;
    match c
    case LruState(lru) =>
      if IndexOf(lru.list, key) < |lru.list| {
        Members(lru.list, IndexOf(lru.list, key));
      }
    case ArcState(s) => ArcGetResidents(s, key, now);
  }

  lemma {:induction false} ArcGetResidents(s: Arc, key: string, now: int)
    requires ArcRuns.ArcInv(s)
    ensures var xs := s.t1 + s.t2; var r := ArcGet(s, key, now).0; var ys := r.t1 + r.t2;
            var gone := IndexOf(xs, key) < |xs| && Expired(xs[IndexOf(xs, key)], now);
            && (forall it :: it in ys ==> it in xs)
            && |ys| == |xs| - (if gone then 1 else 0)
  {
    hide Distinct;
    hide IndexOf;
    hide RemoveAt;
    hide ArcRuns.ArcInv;
    var xs := s.t1 + s.t2;
    ArcResidentKeys(s);
    var i, j := IndexOf(s.t1, key), IndexOf(s.t2, key);
    if i < |s.t1| {
      UniqueByKey(xs, i, key);
      Members(s.t1, i);
    } else if j < |s.t2| {
      UniqueByKey(xs, |s.t1| + j, key);
      Members(s.t2, j);
    }
  }

  lemma Members(xs: seq<Item>, i: nat)
    requires i < |xs|
    ensures |RemoveAt(xs, i)| == |xs| - 1 && forall it :: it in RemoveAt(xs, i) ==> it in xs
  {
  }

  /** A Get removes nothing but the key that it finds expired. */
  lemma {:induction false} GetKeeps(c: CacheState, key: string, now: int, it: Item)
    requires CacheInv(c) && it in Residents(c) && !(it.key == key && Expired(it, now))
    ensures it in Residents(CacheGet(c, key, now).0)
  {
    hide Distinct;
    hide IndexOf;
    hide RemoveAt;
    match c
    case LruState(lru) => ListKeeps(lru.list, key, it);
    case ArcState(s) =>
      ArcRuns.ActiveKeys(s.t1, s.b1);
      ArcRuns.ActiveKeys(s.t2, s.b2);
      if it in s.t1 {
        ListKeeps(s.t1, key, it);
      } else {
        ListKeeps(s.t2, key, it);
      }
  }

  lemma {:induction false} ListKeeps(xs: seq<Item>, key: string, it: Item)
    requires Distinct(xs) && it in xs
    ensures var i := IndexOf(xs, key);
            && (it.key == key ==> i < |xs| && xs[i] == it)
            && (it.key != key && i < |xs| ==> it in RemoveAt(xs, i))
  {
    var i := IndexOf(xs, key);
    if i < |xs| {
      RemoveAtMembers(xs, i);
    }
  }

  /** After a miss the key is not resident: an expired item has left. */
  lemma {:induction false} MissLeavesAbsent(c: CacheState, key: string, now: int)
    requires CacheInv(c) && CacheGet(c, key, now).1.None?
    ensures !HasKey(Residents(CacheGet(c, key, now).0), key)
  {
    hide Distinct;
    hide HasKey;
    hide RemoveAt;
    hide Stubs;
    match c
    case LruState(lru) => RemoveKeyKeys(lru.list, key);
    case ArcState(s) =>
      ArcResidentKeys(s);
      ArcRuns.ActiveKeys(s.t1, s.b1);
      ArcRuns.ActiveKeys(s.t2, s.b2);
      var r := ArcGet(s, key, now).0;
      KeysAppend(r.t1, r.t2);
      if IndexOf(s.t1, key) < |s.t1| {
        ArcRuns.RemoveIndexKeys(s.t1, key);
      } else if IndexOf(s.t2, key) < |s.t2| {
        ArcRuns.RemoveIndexKeys(s.t2, key);
      }
  }

  // ----- a cache with room for everything -----

  /** No key is remembered that is not resident. */
  predicate Unghosted(c: CacheState) {
    c.ArcState? ==> c.arc.b1 == [] && c.arc.b2 == []
  }

  /** With room for one more item a new key is added and nothing is evicted. */
  lemma {:induction false} PutWithRoom(c: CacheState, item: Item)
    requires Unghosted(c) && !HasKey(Residents(c), item.key)
    requires Bytes(Residents(c)) + item.size <= Capacity(c)
    ensures var r := CachePut(c, item);
            && Residents(r) == [item] + Residents(c)
            && Bytes(Residents(r)) == Bytes(Residents(c)) + item.size
            && Unghosted(r) && Counters(r) == Counters(c)
  {
    hide Bytes;
    hide Fit;
    hide HasKey;
    var xs := Residents(c);
    BytesFront(item, xs);
    match c
    case LruState(lru) => FitAll([item] + lru.list, lru.max);
    case ArcState(s) =>
      hide Replace;
      KeysAppend(s.t1, s.t2);
      BytesAppend(s.t1, s.t2);
      BytesNone();
      NoKeys(item.key);
      var prepared := Prepare(s, item.size);
      assert prepared == s;
      ReplaceDone(s, item.size, false);
      assert [item] + (s.t1 + s.t2) == [item] + s.t1 + s.t2;
  }

  lemma NoKeys(k: string)
    ensures !HasKey([], k)
  {
  }

  /** A Get of a key that is not resident changes nothing but the count of misses. */
  lemma {:induction false} GetMissing(c: CacheState, key: string, now: int)
    requires !HasKey(Residents(c), key)
    ensures var r := CacheGet(c, key, now);
            r.1.None? && Residents(r.0) == Residents(c) && Capacity(r.0) == Capacity(c) && (Unghosted(c) ==> Unghosted(r.0))
  {
    hide HasKey;
    if c.ArcState? {
      KeysAppend(c.arc.t1, c.arc.t2);
    }
  }

  /** What a Put leaves resident: the item, if accepted, and otherwise only older items of other keys. */
  lemma {:induction false} PutResidents(c: CacheState, item: Item)
    requires CacheInv(c)
    ensures var xs := Residents(c); var ys := Residents(CachePut(c, item));
            var fits := item.size <= Capacity(c);
            && (fits ==> item in ys)
            && (!fits ==> CachePut(c, item) == c)
            && (forall it :: it in ys && it != item ==> it in xs)
            && (forall it :: it in ys && it.key == item.key && fits ==> it == item)
            && |ys| + Counters(CachePut(c, item)).evictions
               == |xs| + Counters(c).evictions + (if fits && IndexOf(xs, item.key) == |xs| then 1 else 0)
  {
    CacheKeepsInv(c, item.key, 0, item);
    ResidentsDistinct(CachePut(c, item));
    match c
    case LruState(lru) => LruPutResidents(lru, item);
    case ArcState(arc) => ArcPutResidents(arc, item);
    if item.size <= Capacity(c) {
      DistinctMember(Residents(CachePut(c, item)), item);
    }
  }

  lemma DistinctMember(xs: seq<Item>, item: Item)
    requires Distinct(xs) && item in xs
    ensures forall it :: it in xs && it.key == item.key ==> it == item
  {
  }

  lemma {:induction false} LruPutResidents(c: Lru, item: Item)
    requires LruInv(c)
    ensures var xs, ys, fits := c.list, LruPut(c, item).list, item.size <= c.max;
            && (fits ==> item in ys)
            && (!fits ==> LruPut(c, item) == c)
            && (forall it :: it in ys && it != item ==> it in xs)
            && |ys| + LruPut(c, item).stats.evictions
               == |xs| + c.stats.evictions + (if fits && IndexOf(xs, item.key) == |xs| then 1 else 0)
  {
    RemoveKeyKeys(c.list, item.key);
    if item.size <= c.max {
      LruPutResident(c, item);
      var moved := [item] + RemoveKey(c.list, item.key);
      var kept := Fit(moved, c.max);
      assert kept == moved[..|kept|];
    }
  }

  lemma ReplaceResidents(s: Arc, size: nat, inB2: bool)
    ensures var r := Replace(s, size, inB2);
            && r.t1 <= s.t1 && r.t2 <= s.t2
            && |r.t1| + |r.t2| + r.stats.evictions == |s.t1| + |s.t2| + s.stats.evictions
  {
  }

  lemma PrepareResidents(s: Arc, size: nat)
    ensures var r := Prepare(s, size);
            && r.t1 <= s.t1 && r.t2 == s.t2
            && |r.t1| + |r.t2| + r.stats.evictions == |s.t1| + |s.t2| + s.stats.evictions
  {
  }

  lemma {:induction false} ArcPutResidents(s: Arc, item: Item)
    requires ArcRuns.ArcInv(s)
    ensures var xs := s.t1 + s.t2; var r := ArcPut(s, item); var ys := r.t1 + r.t2; var fits := item.size <= s.max;
            && (fits ==> item in ys)
            && (!fits ==> r == s)
            && (forall it :: it in ys && it != item ==> it in xs)
            && |ys| + r.stats.evictions
               == |xs| + s.stats.evictions + (if fits && IndexOf(xs, item.key) == |xs| then 1 else 0)
  {
    hide ArcRuns.ArcInv;
    hide Replace;
    hide Prepare;
    hide Step;
    hide Bytes;
    hide IndexOf;
    hide RemoveAt;
    hide Distinct;
    ArcResidentKeys(s);
    var i, j, k := IndexOf(s.t1, item.key), IndexOf(s.t2, item.key), item.key;
    var m, n := IndexOf(s.b1, k), IndexOf(s.b2, k);
    var r := ArcPut(s, item);
    if item.size > s.max {
    } else if i < |s.t1| {
      assert r.t1[i] == item;
      UpdateMembers(s.t1, i, item);
    } else if j < |s.t2| {
      assert r.t2[j] == item;
      UpdateMembers(s.t2, j, item);
    } else if m < |s.b1| {
      var s' := s.(p := Min(s.max, s.p + Step(Bytes(s.b1), Bytes(s.b2), s.b1[m].size)), b1 := RemoveAt(s.b1, m));
      ReplaceResidents(s', item.size, false);
      assert r.t2[0] == item;
    } else if n < |s.b2| {
      var s' := s.(p := Max(0, s.p - Step(Bytes(s.b2), Bytes(s.b1), s.b2[n].size)), b2 := RemoveAt(s.b2, n));
      ReplaceResidents(s', item.size, true);
      assert r.t2[0] == item;
    } else {
      PrepareResidents(s, item.size);
      ReplaceResidents(Prepare(s, item.size), item.size, false);
      assert r.t1[0] == item;
    }
  }

  lemma UpdateMembers(xs: seq<Item>, i: nat, item: Item)
    requires i < |xs|
    ensures forall it :: it in xs[i := item] && it != item ==> it in xs
  {
  }

  // ----- whole runs -----

  datatype Ledger = Ledger(cache: CacheState, accepted: map<string, Item>, gets: nat, inserts: nat, expiries: nat)

  function Record(l: Ledger, op: Op): Ledger {
    var xs := Residents(l.cache);
    match op
    case Get(key, now) =>
      var i := IndexOf(xs, key);
      l.(cache := CacheGet(l.cache, key, now).0, gets := l.gets + 1,
         expiries := l.expiries + if i < |xs| && Expired(xs[i], now) then 1 else 0)
    case Put(item) =>
      var fits := item.size <= Capacity(l.cache);
      l.(cache := CachePut(l.cache, item),
         accepted := if fits then l.accepted[item.key := item] else l.accepted,
         inserts := l.inserts + if fits && IndexOf(xs, item.key) == |xs| then 1 else 0)
  }

  function RecordAll(l: Ledger, ops: seq<Op>): Ledger
    decreases |ops|
  {
    if ops == [] then l else RecordAll(Record(l, ops[0]), ops[1..])
  }

  ghost predicate Agrees(l: Ledger) {
    && CacheInv(l.cache)
    && (forall it :: it in Residents(l.cache) ==> it.key in l.accepted && l.accepted[it.key] == it)
    && Counters(l.cache).hits + Counters(l.cache).misses == l.gets
    && l.inserts == |Residents(l.cache)| + Counters(l.cache).evictions + l.expiries
  }

  lemma GetCounts(c: CacheState, key: string, now: int)
    ensures var a, b := Counters(c), Counters(CacheGet(c, key, now).0);
            && b.evictions == a.evictions
            && (CacheGet(c, key, now).1.Some? ==> b.hits == a.hits + 1 && b.misses == a.misses)
            && (CacheGet(c, key, now).1.None? ==> b.hits == a.hits && b.misses == a.misses + 1)
  {
  }

  lemma {:induction false} PutCounts(c: CacheState, item: Item)
    ensures var a, b := Counters(c), Counters(CachePut(c, item)); b.hits == a.hits && b.misses == a.misses
  {
    hide Fit;
    hide Stubs;
    hide Bytes;
    hide IndexOf;
  }

  lemma {:induction false} RecordAgrees(l: Ledger, op: Op)
    requires Agrees(l)
    ensures Agrees(Record(l, op))
  {
    hide CacheInv;
    hide Residents;
    hide CacheGet;
    hide CachePut;
    hide Capacity;
    hide Counters;
    match op
    case Get(key, now) =>
      CacheKeepsInv(l.cache, key, now, Item(key, 0, Never, 0));
      GetResidents(l.cache, key, now);
      GetCounts(l.cache, key, now);
    case Put(item) =>
      CacheKeepsInv(l.cache, item.key, 0, item);
      PutResidents(l.cache, item);
      PutCounts(l.cache, item);
  }

  lemma {:induction false} RecordAllAgrees(l: Ledger, ops: seq<Op>)
    requires Agrees(l)
    ensures Agrees(RecordAll(l, ops))
    decreases |ops|
  {
    if ops != [] {
      RecordAgrees(l, ops[0]);
      RecordAllAgrees(Record(l, ops[0]), ops[1..]);
    }
  }

  /**
   After any run from empty, of either cache: a hit returns the last accepted Put of
   its key and only while it is unexpired; the counters balance.
   */
  lemma {:induction false} EveryRunAgrees(start: CacheState, ops: seq<Op>, key: string, now: int)
    requires Empty(start)
    ensures var l := RecordAll(Ledger(start, map[], 0, 0, 0), ops);
            var hit := CacheGet(l.cache, key, now).1;
            && (hit.Some? ==> key in l.accepted && hit.value == l.accepted[key] && !Expired(hit.value, now))
            && Counters(l.cache).hits + Counters(l.cache).misses == l.gets
            && l.inserts == |Residents(l.cache)| + Counters(l.cache).evictions + l.expiries
  {
    RecordAllAgrees(Ledger(start, map[], 0, 0, 0), ops);
    var l := RecordAll(Ledger(start, map[], 0, 0, 0), ops);
    GetHits(l.cache, key, now);
  }

  /** An accepted Put can be read back exactly while it has not expired. */
  lemma {:induction false} PutThenGet(c: CacheState, item: Item, now: int)
    requires CacheInv(c) && item.size <= Capacity(c)
    ensures CacheGet(CachePut(c, item), item.key, now).1 == if item.expiry.At? && now > item.expiry.time then None else Some(item)
  {
    PutResidents(c, item);
    CacheKeepsInv(c, item.key, now, item);
    ResidentsDistinct(CachePut(c, item));
    var ys := Residents(CachePut(c, item));
    var i :| 0 <= i < |ys| && ys[i] == item;
    UniqueByKey(ys, i, item.key);
    GetHits(CachePut(c, item), item.key, now);
  }
}
