/**
 The stack property of LRU (internal/cache/lru.go:39-93 under the access step of
 internal/cdn/shield.go:46-75): whatever its capacity, an LRU cache holds the longest
 fitting prefix of one global recency stack. Hence more capacity never costs a hit.
 */
module LruStack {
  import opened CacheItems
  import opened LruModel
  import opened CacheContract
  import opened OriginShields

  datatype Request = Request(key: string, now: int)

  /** The recency stack: (key, size) entries, the most recently accessed first. */
  function Touch(stack: seq<Item>, key: string, size: nat): seq<Item> {
    [Item(key, size, Never, 0)] + RemoveKey(stack, key)
  }

  /** The stack after a trace; items above the limit leave no mark on it. */
  function StackOf(stack: seq<Item>, trace: seq<Request>, sz: string -> nat, limit: nat): seq<Item>
    decreases |trace|
  {
    if trace == [] then stack else StackOf(Step(stack, trace[0].key, sz, limit), trace[1..], sz, limit)
  }

  function Step(stack: seq<Item>, key: string, sz: string -> nat, limit: nat): seq<Item> {
    if sz(key) > limit then stack else Touch(stack, key, sz(key))
  }

  /** Every item of the trace is small enough for the one capacity, or too big for the other. */
  ghost predicate NoSizeBetween(trace: seq<Request>, sz: string -> nat, small: nat, large: nat) {
    forall i :: 0 <= i < |trace| ==> sz(trace[i].key) <= small || sz(trace[i].key) > large
  }

  function LruAccess(c: Lru, r: Request, sz: string -> nat, ttl: int): Lru {
    Access(LruState(c), r.key, sz(r.key), ttl, r.now).0.lru
  }

  function LruRun(c: Lru, trace: seq<Request>, sz: string -> nat, ttl: int): Lru
    decreases |trace|
  {
    if trace == [] then c else LruRun(LruAccess(c, trace[0], sz, ttl), trace[1..], sz, ttl)
  }

  /** No access comes later than the time to live allows for an item inserted earlier in the trace. */
  ghost predicate WithinTTL(trace: seq<Request>, ttl: int) {
    ttl <= 0 || forall i, j :: 0 <= i < j < |trace| ==> trace[j].now <= trace[i].now + ttl * SECOND
  }

  // ----- what fits after an access -----

  lemma {:induction false} StubsFit(xs: seq<Item>, limit: nat)
    ensures Stubs(Fit(xs, limit)) == Fit(Stubs(xs), limit)
  {
    var n := |Fit(xs, limit)|;
    FitMaximal(xs, limit);
    assert Fit(xs, limit) == xs[..n];
    BytesStubs(xs[..n]);
    assert Stubs(xs)[..n] == Stubs(xs[..n]);
    if n < |xs| {
      BytesStubs(xs[..n + 1]);
      assert Stubs(xs)[..n + 1] == Stubs(xs[..n + 1]);
    }
    FitUnique(Stubs(xs), limit, n);
  }

  lemma {:induction false} StubsIndexOf(xs: seq<Item>, k: string)
    ensures IndexOf(Stubs(xs), k) == IndexOf(xs, k)
    ensures Stubs(RemoveKey(xs, k)) == RemoveKey(Stubs(xs), k)
  {
    var a, b := IndexOf(Stubs(xs), k), IndexOf(xs, k);
    if a < |xs| {
      assert xs[a].key == k;
      assert HasKey(xs, k);
    }
    if b < |xs| {
      assert Stubs(xs)[b].key == k;
      assert HasKey(Stubs(xs), k);
    }
    assert a == b;
  }

  /** What follows a list does not matter once its first item does not fit behind it. */
  lemma {:induction false} FitIgnores(front: seq<Item>, tail: seq<Item>, limit: nat)
    requires tail == [] || Bytes(front) + tail[0].size > limit
    ensures Fit(front + tail, limit) == Fit(front, limit)
  {
    hide Fit;
    var m, all := |Fit(front, limit)|, front + tail;
    FitMaximal(front, limit);
    assert Fit(front, limit) == front[..m] == all[..m];
    if m < |front| {
      assert all[..m + 1] == front[..m + 1];
    } else if tail != [] {
      assert front[..m] == front;
      assert all[..m + 1] == front + [tail[0]];
      BytesAppend(front, [tail[0]]);
      assert [tail[0]][1..] == [];
    }
    FitUnique(all, limit, m);
  }

  /** The stack is its fitting prefix followed by an item that does not fit. */
  lemma {:induction false} FitSplits(stack: seq<Item>, limit: nat)
    ensures var kept := Fit(stack, limit); var tail := stack[|kept|..];
            stack == kept + tail && (tail == [] || Bytes(kept) + tail[0].size > limit)
  {
    hide Fit;
    var kept := Fit(stack, limit);
    var n := |kept|;
    FitMaximal(stack, limit);
    assert kept == stack[..n];
    if n < |stack| {
      assert stack[..n + 1] == kept + [stack[n]];
      BytesAppend(kept, [stack[n]]);
      assert [stack[n]][1..] == [];
    }
  }

  lemma {:induction false} IndexAppend(kept: seq<Item>, tail: seq<Item>, k: string)
    ensures IndexOf(kept + tail, k) ==
            if IndexOf(kept, k) < |kept| then IndexOf(kept, k) else |kept| + IndexOf(tail, k)
  {
    var all, i, j := kept + tail, IndexOf(kept, k), IndexOf(tail, k);
    var e, r := if i < |kept| then i else |kept| + j, IndexOf(all, k);
    KeysAppend(kept, tail);
    if r < |all| && e < |all| {
      assert all[e].key == k && all[r].key == k;
      assert r < |kept| ==> kept[r].key == k;
      assert r >= |kept| ==> tail[r - |kept|].key == k;
    }
  }

  lemma {:induction false} RemoveKeyAppend(kept: seq<Item>, tail: seq<Item>, k: string)
    ensures RemoveKey(kept + tail, k) ==
            if IndexOf(kept, k) < |kept| then RemoveKey(kept, k) + tail else kept + RemoveKey(tail, k)
  {
    hide IndexOf;
    hide HasKey;
    IndexAppend(kept, tail, k);
    var all, i, j := kept + tail, IndexOf(kept, k), IndexOf(tail, k);
    if i < |kept| {
      assert RemoveAt(all, i) == RemoveAt(kept, i) + tail;
    } else if j < |tail| {
      assert RemoveAt(all, |kept| + j) == kept + RemoveAt(tail, j);
    }
  }

  /** The accessed key was in the fitting prefix: it moves to the front, and the same items fit. */
  lemma {:induction false} FitAfterHit(stack: seq<Item>, limit: nat, key: string)
    requires IndexOf(stack, key) < |Fit(stack, limit)|
    ensures var kept := Fit(stack, limit); var i := IndexOf(stack, key);
            && IndexOf(kept, key) == i
            && Fit([stack[i]] + RemoveKey(stack, key), limit) == [stack[i]] + RemoveKey(kept, key)
  {
    hide Fit;
    var kept, i := Fit(stack, limit), IndexOf(stack, key);
    var tail := stack[|kept|..];
    FitSplits(stack, limit);
    IndexAppend(kept, tail, key);
    RemoveKeyAppend(kept, tail, key);
    var front := [stack[i]] + RemoveKey(kept, key);
    assert [stack[i]] + RemoveKey(stack, key) == front + tail;
    BytesFront(stack[i], RemoveKey(kept, key));
    BytesRemoveAt(kept, i);
    FitIgnores(front, tail, limit);
    FitAll(front, limit);
  }

  /** The accessed key was not in it: evicting from the new list gives what fits of the new stack. */
  lemma {:induction false} FitAfterMiss(stack: seq<Item>, limit: nat, x: Item)
    requires IndexOf(stack, x.key) >= |Fit(stack, limit)|
    requires IndexOf(stack, x.key) < |stack| ==> stack[IndexOf(stack, x.key)].size == x.size
    ensures Fit([x] + RemoveKey(stack, x.key), limit) == Fit([x] + Fit(stack, limit), limit)
  {
    hide Fit;
    hide IndexOf;
    hide HasKey;
    hide RemoveKey;
    hide Bytes;
    var kept := Fit(stack, limit);
    var tail := stack[|kept|..];
    FitSplits(stack, limit);
    IndexAppend(kept, tail, x.key);
    RemoveKeyAppend(kept, tail, x.key);
    var front, rest := [x] + kept, RemoveKey(tail, x.key);
    BytesFront(x, kept);
    assert [x] + RemoveKey(stack, x.key) == front + rest;
    RestHead(tail, x.key);
    // Either the first item that did not fit is still there, or it is the accessed one.
    FitIgnores(front, rest, limit);
  }

  lemma RestHead(tail: seq<Item>, k: string)
    ensures tail == [] ==> RemoveKey(tail, k) == []
    ensures tail != [] ==> (tail[0].key == k <==> IndexOf(tail, k) == 0)
    ensures tail != [] && tail[0].key != k ==> RemoveKey(tail, k) != [] && RemoveKey(tail, k)[0] == tail[0]
  {
  }

  // ----- one access -----

  /** The cache shows what fits of the stack; sizes are fixed per key; nothing expires in the rest of the trace. */
  ghost predicate Shows(c: Lru, stack: seq<Item>, sz: string -> nat, rest: seq<Request>) {
    Distinct(stack) && Sized(stack, sz) && Stubs(c.list) == Fit(stack, c.max) && NoneExpires(c.list, rest)
  }

  ghost predicate Sized(stack: seq<Item>, sz: string -> nat) {
    forall i :: 0 <= i < |stack| ==> stack[i] == Item(stack[i].key, sz(stack[i].key), Never, 0)
  }

  ghost predicate NoneExpires(list: seq<Item>, rest: seq<Request>) {
    forall it, j :: it in list && 0 <= j < |rest| ==> !Expired(it, rest[j].now)
  }

  lemma {:induction false} AccessShows(c: Lru, stack: seq<Item>, sz: string -> nat, ttl: int, trace: seq<Request>)
    requires trace != [] && Shows(c, stack, sz, trace) && WithinTTL(trace, ttl)
    requires sz(trace[0].key) <= c.max
    ensures var k := trace[0].key; var c' := LruAccess(c, trace[0], sz, ttl);
            && Shows(c', Touch(stack, k, sz(k)), sz, trace[1..]) && c'.max == c.max
            && c'.stats.hits == c.stats.hits + (if IndexOf(stack, k) < |Fit(stack, c.max)| then 1 else 0)
  {
    hide Distinct;
    hide Sized;
    hide Fit;
    hide Touch;
    hide LruAccess;
    hide WithinTTL;
    var k := trace[0].key;
    TouchDistinct(stack, k, sz);
    assert forall it :: it in c.list ==> !Expired(it, trace[0].now);
    AccessList(c, stack, sz, ttl, trace[0]);
    AccessExpiry(c, sz, ttl, trace);
  }

  lemma {:induction false} AccessExpiry(c: Lru, sz: string -> nat, ttl: int, trace: seq<Request>)
    requires trace != [] && NoneExpires(c.list, trace) && WithinTTL(trace, ttl)
    ensures NoneExpires(LruAccess(c, trace[0], sz, ttl).list, trace[1..])
  {
    hide LruAccess;
    var c', rest := LruAccess(c, trace[0], sz, ttl), trace[1..];
    forall it, j | it in c'.list && 0 <= j < |rest| ensures !Expired(it, rest[j].now) {
      assert rest[j] == trace[j + 1];
      AccessMembers(c, sz, ttl, trace[0], it);
    }
  }

  /** An item too big for the cache is not in it, and its access changes nothing but the count of misses. */
  lemma {:induction false} AccessSkips(c: Lru, stack: seq<Item>, sz: string -> nat, ttl: int, trace: seq<Request>)
    requires trace != [] && Shows(c, stack, sz, trace) && sz(trace[0].key) > c.max
    ensures var c' := LruAccess(c, trace[0], sz, ttl);
            && Shows(c', stack, sz, trace[1..]) && c'.max == c.max && c'.stats.hits == c.stats.hits
  {
    hide Distinct;
    hide Fit;
    hide Bytes;
    var k, kept := trace[0].key, Fit(stack, c.max);
    var i := IndexOf(c.list, k);
    if i < |c.list| {
      assert Stubs(c.list)[i] == kept[i] == stack[i];
      SizeWithinBytes(kept, i);
      assert false;
    }
    assert forall j :: 0 <= j < |trace| - 1 ==> trace[1..][j] == trace[j + 1];
  }

  lemma {:induction false} TouchDistinct(stack: seq<Item>, k: string, sz: string -> nat)
    requires Distinct(stack) && Sized(stack, sz)
    ensures Distinct(Touch(stack, k, sz(k))) && Sized(Touch(stack, k, sz(k)), sz)
  {
    hide Distinct;
    RemoveKeyKeys(stack, k);
    FrontKeys(Item(k, sz(k), Never, 0), RemoveKey(stack, k));
    var r, s' := RemoveKey(stack, k), Touch(stack, k, sz(k));
    forall i | 0 <= i < |s'| ensures s'[i] == Item(s'[i].key, sz(s'[i].key), Never, 0) {
      if i > 0 {
        assert s'[i] == r[i - 1] && r[i - 1] in r && r[i - 1] in stack;
      }
    }
  }

  /** The list after an access, as stubs. */
  lemma {:induction false} AccessList(c: Lru, stack: seq<Item>, sz: string -> nat, ttl: int, r: Request)
    requires Distinct(stack) && Stubs(c.list) == Fit(stack, c.max) && sz(r.key) <= c.max
    requires Sized(stack, sz)
    requires forall it :: it in c.list ==> !Expired(it, r.now)
    ensures var c' := LruAccess(c, r, sz, ttl);
            && Stubs(c'.list) == Fit(Touch(stack, r.key, sz(r.key)), c.max) && c'.max == c.max
            && c'.stats.hits == c.stats.hits + (if IndexOf(stack, r.key) < |Fit(stack, c.max)| then 1 else 0)
  {
    hide Distinct;
    hide HasKey;
    hide Fit;
    hide Bytes;
    hide Stubs;
    var k, kept := r.key, Fit(stack, c.max);
    var i := IndexOf(c.list, k);
    StubsIndexOf(c.list, k);
    PrefixIndex(stack, |kept|, k);
    assert kept == stack[..|kept|];
    if i < |c.list| {
      assert c.list[i] in c.list;
      FitAfterHit(stack, c.max, k);
      StubsCons(c.list[i], RemoveKey(c.list, k));
      assert Stub(c.list[i]) == Stubs(c.list)[i] == stack[i];
    } else {
      var x := Item(k, sz(k), Never, 0);
      var it := Item(k, sz(k), ExpiryAfter(r.now, ttl), 0);
      FitAfterMiss(stack, c.max, x);
      assert RemoveKey(c.list, k) == c.list;
      StubsFit([it] + c.list, c.max);
      StubsCons(it, c.list);
    }
  }

  lemma StubsCons(it: Item, xs: seq<Item>)
    ensures Stubs([it] + xs) == [Stub(it)] + Stubs(xs)
  {
  }

  lemma {:induction false} PrefixIndex(xs: seq<Item>, n: nat, k: string)
    requires n <= |xs|
    ensures IndexOf(xs[..n], k) < n <==> IndexOf(xs, k) < n
    ensures IndexOf(xs, k) < n ==> IndexOf(xs[..n], k) == IndexOf(xs, k)
  {
    var a, b := IndexOf(xs[..n], k), IndexOf(xs, k);
    if b < n {
      assert xs[..n][b].key == k;
      assert HasKey(xs[..n], k);
    }
    if a < n {
      assert xs[a].key == k;
      assert HasKey(xs, k);
    }
  }

  /** Every item afterwards was there before or was inserted just now. */
  lemma {:induction false} AccessMembers(c: Lru, sz: string -> nat, ttl: int, r: Request, it: Item)
    requires it in LruAccess(c, r, sz, ttl).list
    ensures it in c.list || it == Item(r.key, sz(r.key), ExpiryAfter(r.now, ttl), 0)
  {
    var i := IndexOf(c.list, r.key);
    var g := LruGet(c, r.key, r.now);
    RemoveKeyMembers(c.list, r.key);
    if g.1.None? {
      RemoveKeyMembers(g.0.list, r.key);
    }
  }

  lemma RemoveKeyMembers(xs: seq<Item>, k: string)
    ensures forall it :: it in RemoveKey(xs, k) ==> it in xs
  {
  }

  // ----- whole traces -----

  /** Either way, one access keeps the cache in step with the stack. */
  lemma {:induction false} StepShows(c: Lru, stack: seq<Item>, sz: string -> nat, ttl: int, limit: nat, trace: seq<Request>)
    requires trace != [] && Shows(c, stack, sz, trace) && WithinTTL(trace, ttl)
    requires c.max <= limit && NoSizeBetween(trace, sz, c.max, limit)
    ensures var k := trace[0].key; var c' := LruAccess(c, trace[0], sz, ttl);
            && Shows(c', Step(stack, k, sz, limit), sz, trace[1..]) && c'.max == c.max
            && c'.stats.hits == c.stats.hits + (if sz(k) <= limit && IndexOf(stack, k) < |Fit(stack, c.max)| then 1 else 0)
  {
    hide Shows;
    hide WithinTTL;
    hide LruAccess;
    hide Fit;
    hide Touch;
    if sz(trace[0].key) > limit {
      AccessSkips(c, stack, sz, ttl, trace);
    } else {
      AccessShows(c, stack, sz, ttl, trace);
    }
  }

  lemma Rest(trace: seq<Request>, sz: string -> nat, ttl: int, small: nat, large: nat)
    requires trace != [] && WithinTTL(trace, ttl) && NoSizeBetween(trace, sz, small, large)
    ensures WithinTTL(trace[1..], ttl) && NoSizeBetween(trace[1..], sz, small, large)
  {
  }

  /** After any trace the cache holds the longest fitting prefix of the stack. */
  lemma {:induction false} StackProperty(c: Lru, stack: seq<Item>, trace: seq<Request>, sz: string -> nat, ttl: int, limit: nat)
    requires Shows(c, stack, sz, trace) && WithinTTL(trace, ttl)
    requires c.max <= limit && NoSizeBetween(trace, sz, c.max, limit)
    ensures Stubs(LruRun(c, trace, sz, ttl).list) == Fit(StackOf(stack, trace, sz, limit), c.max)
    decreases |trace|
  {
    hide LruAccess;
    hide Fit;
    hide Step;
    hide NoSizeBetween;
    hide WithinTTL;
    if trace == [] {
      ShowsList(c, stack, sz, trace);
    } else {
      StepShows(c, stack, sz, ttl, limit, trace);
      Rest(trace, sz, ttl, c.max, limit);
      StackProperty(LruAccess(c, trace[0], sz, ttl), Step(stack, trace[0].key, sz, limit), trace[1..], sz, ttl, limit);
    }
  }

  lemma ShowsList(c: Lru, stack: seq<Item>, sz: string -> nat, rest: seq<Request>)
    requires Shows(c, stack, sz, rest)
    ensures Stubs(c.list) == Fit(stack, c.max)
  {
  }

  lemma {:induction false} HitsMonotone(c1: Lru, c2: Lru, stack: seq<Item>, trace: seq<Request>, sz: string -> nat, ttl: int)
    requires Shows(c1, stack, sz, trace) && Shows(c2, stack, sz, trace) && WithinTTL(trace, ttl)
    requires c1.max <= c2.max && c1.stats.hits <= c2.stats.hits && NoSizeBetween(trace, sz, c1.max, c2.max)
    ensures LruRun(c1, trace, sz, ttl).stats.hits <= LruRun(c2, trace, sz, ttl).stats.hits
    decreases |trace|
  {
    hide Shows;
    hide LruAccess;
    hide Fit;
    hide Step;
    hide WithinTTL;
    if trace != [] {
      var large := c2.max;
      assert NoSizeBetween(trace, sz, large, large);
      StepShows(c1, stack, sz, ttl, large, trace);
      StepShows(c2, stack, sz, ttl, large, trace);
      FitMonotone(stack, c1.max, large);
      Rest(trace, sz, ttl, c1.max, large);
      HitsMonotone(LruAccess(c1, trace[0], sz, ttl), LruAccess(c2, trace[0], sz, ttl), Step(stack, trace[0].key, sz, large),
                   trace[1..], sz, ttl);
    }
  }

  /**
   Two LRU caches from empty, the same trace, sizes fixed per key and none of them
   above the smaller capacity but within the larger, nothing expiring: the smaller
   cache's content is a prefix of the larger one's, and it never has more hits.
   */
  lemma {:induction false} MoreCapacityNeverHurts(small: nat, large: nat, trace: seq<Request>, sz: string -> nat, ttl: int)
    requires small <= large && WithinTTL(trace, ttl) && NoSizeBetween(trace, sz, small, large)
    ensures var a, b := LruRun(LruNew(small), trace, sz, ttl), LruRun(LruNew(large), trace, sz, ttl);
            && Stubs(a.list) <= Stubs(b.list)
            && a.stats.hits <= b.stats.hits
  {
    hide LruRun;
    hide StackOf;
    assert NoSizeBetween(trace, sz, large, large);
    StackProperty(LruNew(small), [], trace, sz, ttl, large);
    StackProperty(LruNew(large), [], trace, sz, ttl, large);
    FitMonotone(StackOf([], trace, sz, large), small, large);
    HitsMonotone(LruNew(small), LruNew(large), [], trace, sz, ttl);
  }

  /** The gap cannot be dropped: whatever the two capacities, an item that only the large cache takes costs it a hit. */
  lemma {:induction false} OversizedItemBreaksInclusion(small: nat, large: nat)
    requires 0 < small < large
    ensures var sz := (k: string) => if k == "big" then large else 1;
            var trace := [Request("a", 0), Request("big", 1), Request("a", 2)];
            LruRun(LruNew(small), trace, sz, 0).stats.hits == 1 && LruRun(LruNew(large), trace, sz, 0).stats.hits == 0
  {
    hide LruAccess;
    var sz := (k: string) => if k == "big" then large else 1;
    var trace := [Request("a", 0), Request("big", 1), Request("a", 2)];
    assert trace[1..] == [Request("big", 1), Request("a", 2)];
    assert trace[1..][1..] == [Request("a", 2)] && trace[1..][1..][1..] == [];
    var a, big := Item("a", 1, Never, 0), Item("big", large, Never, 0);
    FirstAccess(LruNew(small), trace[0], sz);
    FirstAccess(LruNew(large), trace[0], sz);
    var s1, l1 := LruAccess(LruNew(small), trace[0], sz, 0), LruAccess(LruNew(large), trace[0], sz, 0);
    RejectedAccess(s1, a, trace[1], sz);
    DisplacingAccess(l1, a, trace[1], sz);
    var s2, l2 := LruAccess(s1, trace[1], sz, 0), LruAccess(l1, trace[1], sz, 0);
    RepeatedAccess(s2, a, trace[2], sz);
    DisplacingAccess(l2, big, trace[2], sz);
  }

  lemma {:induction false} FirstAccess(c: Lru, r: Request, sz: string -> nat)
    requires c.list == [] && sz(r.key) <= c.max
    ensures LruAccess(c, r, sz, 0) == c.(list := [Item(r.key, sz(r.key), Never, 0)], stats := c.stats.(misses := c.stats.misses + 1))
  {
    assert [Item(r.key, sz(r.key), Never, 0)] + [] == [Item(r.key, sz(r.key), Never, 0)];
    assert [Item(r.key, sz(r.key), Never, 0)][1..] == [];
  }

  lemma {:induction false} OtherKey(it: Item, k: string)
    requires it.key != k
    ensures IndexOf([it], k) == 1 && RemoveKey([it], k) == [it]
  {
    assert [it][1..] == [];
  }

  lemma {:induction false} RejectedAccess(c: Lru, it: Item, r: Request, sz: string -> nat)
    requires c.list == [it] && it.key != r.key && sz(r.key) > c.max
    ensures LruAccess(c, r, sz, 0) == c.(stats := c.stats.(misses := c.stats.misses + 1))
  {
    OtherKey(it, r.key);
  }

  lemma {:induction false} RepeatedAccess(c: Lru, it: Item, r: Request, sz: string -> nat)
    requires c.list == [it] && it.key == r.key && it.expiry.Never?
    ensures LruAccess(c, r, sz, 0).stats.hits == c.stats.hits + 1
  {
    assert IndexOf([it], r.key) == 0;
  }

  /** An access whose item does not fit beside the one resident item. */
  lemma {:induction false} DisplacingAccess(c: Lru, it: Item, r: Request, sz: string -> nat)
    requires c.list == [it] && it.key != r.key && sz(r.key) <= c.max < sz(r.key) + it.size
    ensures var c' := LruAccess(c, r, sz, 0);
            c'.list == [Item(r.key, sz(r.key), Never, 0)] && c'.max == c.max && c'.stats.hits == c.stats.hits
  {
    OtherKey(it, r.key);
    var x := Item(r.key, sz(r.key), Never, 0);
    assert [x] + [it] == [x, it] && [x, it][1..] == [it];
    assert Fit([it], c.max - x.size) == [];
  }
}
