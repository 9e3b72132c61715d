/**
 Two sessions over one cache (internal/video/player.go:126-193): a cache with room for the
 first one's segments keeps all of them, and the second one is served from it.
 */
module SecondViewing {
  import opened Wrappers
  import opened CacheItems
  import opened CacheContract
  import opened TransportTypes
  import opened TransportModel
  import opened Ladder
  import opened PlaybackModel
  import opened PlaybackTheorems
  import opened PlaybackRequests
  import opened Sums
  import SegmentNames

  function SizeOf(): SegmentResult -> int {
    (r: SegmentResult) => r.sizeBytes
  }

  /** Resident, and unexpired for an hour from the start of a session's clock. */
  ghost predicate Stored(c: CacheState, key: string) {
    exists it :: it in Residents(c) && it.key == key && it.expiry.At? && it.expiry.time >= EDGE_TTL
  }

  ghost predicate StoresAll(contentID: string, c: CacheState, segments: seq<SegmentResult>) {
    forall j :: 0 <= j < |segments| ==> Stored(c, SegmentNames.SegmentID(contentID, j, segments[j].bitrateKbps))
  }

  // ----- sessions only grow -----

  lemma {:induction false} StepExtends(e: Env, s: Session)
    requires ValidEnv(e) && s.i < e.manifest.totalSegments && BatchStep(e, s).Ok?
    ensures s.segments <= BatchStep(e, s).value.segments && s.clock.wall <= BatchStep(e, s).value.clock.wall
  {
    hide BatchStep;
    hide Slots;
    hide Lookup;
    hide Missed;
    hide ShieldAll;
    hide Plan;
    hide ValidEnv;
    hide Results;
    hide Reassembled;
    hide MaxLatency;
    var slots, hits, cache, shield, responses := StepCompletes(e, s);
  }

  lemma {:induction false} RunExtends(e: Env, s: Session)
    requires ValidEnv(e) && SessionRun(e, s).Ok?
    ensures s.segments <= SessionRun(e, s).value.segments && s.clock.wall <= SessionRun(e, s).value.clock.wall
    decreases e.manifest.totalSegments - s.i
  {
    hide BatchStep;
    if s.i < e.manifest.totalSegments {
      StepAdvances(e, s);
      StepExtends(e, s);
      RunExtends(e, BatchStep(e, s).value);
    }
  }

  lemma {:induction false} SizesGrow(a: seq<SegmentResult>, b: seq<SegmentResult>)
    requires a <= b
    ensures Sum(a, SizeOf()) <= Sum(b, SizeOf())
  {
    assert b == a + b[|a|..];
    SumAppend(a, b[|a|..], SizeOf());
    SizesPositive(b[|a|..]);
  }

  lemma {:induction false} SizesPositive(a: seq<SegmentResult>)
    ensures Sum(a, SizeOf()) >= 0
  {
    if a != [] {
      SizesPositive(a[1..]);
    }
  }

  // ----- the first viewing -----

  lemma NotResident(contentID: string, c: CacheState, r: SegmentRequest, n: nat, i: nat)
    requires HoldsBelow(contentID, Some(c), n) && Named(contentID, r, i) && n <= i
    ensures !HasKey(Residents(c), r.segmentID)
  {
  }

  lemma {:induction false} LookupKeeps(contentID: string, c: CacheState, slots: seq<SegmentRequest>, now: int, n: nat, m: nat)
    requires HoldsBelow(contentID, Some(c), n) && InOrder(contentID, slots, n, m) && Unghosted(c)
    ensures var after := Lookup(Some(c), slots, now).1;
            after.Some? && Residents(after.value) == Residents(c) && Capacity(after.value) == Capacity(c) && Unghosted(after.value)
    decreases |slots|
  {
    hide HoldsBelow;
    hide Named;
    hide Residents;
    hide Capacity;
    hide Unghosted;
    if slots != [] {
      var i: nat :| n <= i < m && Named(contentID, slots[0], i) && InOrder(contentID, slots[1..], i + 1, m);
      InOrderEarlier(contentID, slots[1..], i + 1, n, m);
      NotResident(contentID, c, slots[0], n, i);
      GetMissing(c, slots[0].segmentID, now);
      GetBelow(contentID, c, slots[0], now, n, i);
      LookupKeeps(contentID, CacheGet(c, slots[0].segmentID, now).0, slots[1..], now, n, m);
    }
  }

  /** With room for all of them, every request is inserted and nothing leaves. */
  lemma {:induction false} InsertsFill(contentID: string, c: CacheState, reqs: seq<SegmentRequest>, now: nat, n: nat, m: nat)
    requires HoldsBelow(contentID, Some(c), n) && InOrder(contentID, reqs, n, m) && Unghosted(c)
    requires Bytes(Residents(c)) + TotalBytes(reqs) <= Capacity(c)
    ensures var after := InsertAll(Some(c), reqs, now);
            && after.Some? && Capacity(after.value) == Capacity(c) && Unghosted(after.value)
            && Bytes(Residents(after.value)) == Bytes(Residents(c)) + TotalBytes(reqs)
            && (forall it :: it in Residents(c) ==> it in Residents(after.value))
            && (forall k :: 0 <= k < |reqs| ==> Stored(after.value, reqs[k].segmentID))
    decreases |reqs|
  {
    hide HoldsBelow;
    hide Named;
    hide Residents;
    hide Capacity;
    hide Unghosted;
    hide Bytes;
    if reqs != [] {
      var i: nat :| n <= i < m && Named(contentID, reqs[0], i) && InOrder(contentID, reqs[1..], i + 1, m);
      var item := Item(reqs[0].segmentID, reqs[0].sizeBytes, At(now + EDGE_TTL), 0);
      var next := CachePut(c, item);
      NotResident(contentID, c, reqs[0], n, i);
      PutWithRoom(c, item);
      PutBelow(contentID, c, reqs[0], item, n, i);
      SameCapacity(contentID, c, item, n);
      InsertsFill(contentID, next, reqs[1..], now, i + 1, m);
      var after := InsertAll(Some(c), reqs, now).value;
      assert item in Residents(next) && item in Residents(after);
      forall k | 0 <= k < |reqs| ensures Stored(after, reqs[k].segmentID) {
        if k > 0 {
          assert reqs[k] == reqs[1..][k - 1];
        }
      }
    }
  }

  lemma SameCapacity(contentID: string, c: CacheState, item: Item, n: nat)
    requires HoldsBelow(contentID, Some(c), n)
    ensures Capacity(CachePut(c, item)) == Capacity(c)
  {
  }

  lemma {:induction false} AllMissed(slots: seq<SegmentRequest>, hits: seq<bool>)
    requires |hits| == |slots| && forall k :: 0 <= k < |hits| ==> !hits[k]
    ensures Missed(slots, hits) == slots
  {
    if slots != [] {
      AllMissed(slots[1..], hits[1..]);
    }
  }

  lemma {:induction false} SlotBytes(slots: seq<SegmentRequest>, results: seq<SegmentResult>)
    requires |results| == |slots| && forall k :: 0 <= k < |slots| ==> results[k].sizeBytes == slots[k].sizeBytes
    ensures TotalBytes(slots) == Sum(results, SizeOf())
  {
    if slots != [] {
      SlotBytes(slots[1..], results[1..]);
    }
  }

  /** A first viewing so far: the cache holds exactly its segments' bytes, and every one of its segments. */
  ghost predicate Filling(e: Env, s: Session) {
    && AsksInOrder(e, s)
    && s.cache.Some? && HoldsBelow(e.contentID, s.cache, s.i) && Unghosted(s.cache.value)
    && Bytes(Residents(s.cache.value)) == Sum(s.segments, SizeOf())
    && StoresAll(e.contentID, s.cache.value, s.segments)
  }

  /** What the slots of a batch are to its results. */
  lemma {:induction false} SlotsAsked(e: Env, s: Session, next: Session, slots: seq<SegmentRequest>)
    requires AsksInOrder(e, s) && AsksInOrder(e, next)
    requires next.asked == s.asked + slots && s.segments <= next.segments
    ensures |next.segments| == s.i + |slots|
    ensures forall k :: 0 <= k < |slots| ==>
              && slots[k].segmentID == SegmentNames.SegmentID(e.contentID, s.i + k, next.segments[s.i + k].bitrateKbps)
              && slots[k].sizeBytes == next.segments[s.i + k].sizeBytes
  {
    hide SegmentNames.SegmentID;
    forall k | 0 <= k < |slots|
      ensures slots[k].segmentID == SegmentNames.SegmentID(e.contentID, s.i + k, next.segments[s.i + k].bitrateKbps)
      ensures slots[k].sizeBytes == next.segments[s.i + k].sizeBytes
    {
      assert AskedRight(e, next, s.i + k);
      assert next.asked[s.i + k] == slots[k];
    }
  }

  lemma {:induction false} StepFills(e: Env, s: Session)
    requires ValidEnv(e) && s.i < e.manifest.totalSegments && BatchStep(e, s).Ok? && Filling(e, s)
    requires Sum(BatchStep(e, s).value.segments, SizeOf()) <= Capacity(s.cache.value)
    ensures var next := BatchStep(e, s).value; Filling(e, next) && Capacity(next.cache.value) == Capacity(s.cache.value)
  {
    hide BatchStep;
    hide HoldsBelow;
    hide AsksInOrder;
    hide InOrder;
    hide Lookup;
    hide Missed;
    hide ShieldAll;
    hide InsertAll;
    hide Slots;
    hide Plan;
    hide ValidEnv;
    hide Results;
    hide Reassembled;
    hide MaxLatency;
    hide Advance;
    hide SampleOf;
    hide Remember;
    hide StoresAll;
    hide Residents;
    hide Capacity;
    hide Unghosted;
    hide Bytes;
    hide Sum;
    hide TotalBytes;
    var slots, hits, cache, shield, responses := StepCompletes(e, s);
    var next, m, now := BatchStep(e, s).value, s.i + |slots|, s.clock.wall;
    StepAsks(e, s);
    StepExtends(e, s);
    SlotsInOrder(e, Plan(e, s), s.i, |slots|, 0);
    assert slots[0..] == slots;
    LookupMisses(e.contentID, s.cache, slots, now, s.i, m);
    LookupKeeps(e.contentID, s.cache.value, slots, now, s.i, m);
    AllMissed(slots, hits);
    SlotsAsked(e, s, next, slots);
    AddedBytes(s.segments, next.segments, slots);
    InsertsFill(e.contentID, cache.value, slots, now, s.i, m);
    InsertsBelow(e.contentID, cache, slots, now, s.i, m);
    StoresMore(e.contentID, s.cache.value, next.cache.value, s.segments, next.segments, slots);
  }

  lemma {:induction false} AddedBytes(a: seq<SegmentResult>, b: seq<SegmentResult>, slots: seq<SegmentRequest>)
    requires a <= b && |b| == |a| + |slots| && forall k :: 0 <= k < |slots| ==> b[|a| + k].sizeBytes == slots[k].sizeBytes
    ensures Sum(b, SizeOf()) == Sum(a, SizeOf()) + TotalBytes(slots)
  {
    var added := b[|a|..];
    assert b == a + added;
    SumAppend(a, added, SizeOf());
    SlotBytes(slots, added);
  }

  lemma {:induction false} StoresMore(contentID: string, c: CacheState, after: CacheState,
                                      a: seq<SegmentResult>, b: seq<SegmentResult>, slots: seq<SegmentRequest>)
    requires StoresAll(contentID, c, a) && a <= b && |b| == |a| + |slots|
    requires forall it :: it in Residents(c) ==> it in Residents(after)
    requires forall k :: 0 <= k < |slots| ==>
               && Stored(after, slots[k].segmentID)
               && slots[k].segmentID == SegmentNames.SegmentID(contentID, |a| + k, b[|a| + k].bitrateKbps)
    ensures StoresAll(contentID, after, b)
  {
    hide Residents;
    hide SegmentNames.SegmentID;
    forall j | 0 <= j < |b| ensures Stored(after, SegmentNames.SegmentID(contentID, j, b[j].bitrateKbps)) {
      if j < |a| {
        assert b[j] == a[j] && Stored(c, SegmentNames.SegmentID(contentID, j, a[j].bitrateKbps));
      } else {
        assert Stored(after, slots[j - |a|].segmentID);
      }
    }
  }

  lemma {:induction false} RunFills(e: Env, s: Session)
    requires ValidEnv(e) && SessionRun(e, s).Ok? && Filling(e, s)
    requires Sum(SessionRun(e, s).value.segments, SizeOf()) <= Capacity(s.cache.value)
    ensures Filling(e, SessionRun(e, s).value)
    decreases e.manifest.totalSegments - s.i
  {
    hide BatchStep;
    hide HoldsBelow;
    hide AsksInOrder;
    hide StoresAll;
    hide Sum;
    if s.i < e.manifest.totalSegments {
      var next := BatchStep(e, s).value;
      StepAdvances(e, s);
      RunExtends(e, next);
      SizesGrow(next.segments, SessionRun(e, next).value.segments);
      StepFills(e, s);
      RunFills(e, next);
    }
  }

  /** A cache with room for a session's segments holds every one of them when the session ends. */
  lemma {:induction false} FirstViewingFills(e: Env, handshake: nat, cache: CacheState, shield: Option<Option<CacheState>>)
    requires ValidEnv(e) && Empty(cache) && SessionRun(e, Begin(handshake, Some(cache), shield)).Ok?
    requires Sum(SessionRun(e, Begin(handshake, Some(cache), shield)).value.segments, SizeOf()) <= Capacity(cache)
    ensures var s := SessionRun(e, Begin(handshake, Some(cache), shield)).value;
            && s.cache.Some? && CacheInv(s.cache.value)
            && Bytes(Residents(s.cache.value)) == Sum(s.segments, SizeOf())
            && StoresAll(e.contentID, s.cache.value, s.segments)
  {
    hide SessionRun;
    hide StoresAll;
    StartFilling(e, handshake, cache, shield);
    RunFills(e, Begin(handshake, Some(cache), shield));
  }

  lemma StartFilling(e: Env, handshake: nat, cache: CacheState, shield: Option<Option<CacheState>>)
    requires Empty(cache)
    ensures Filling(e, Begin(handshake, Some(cache), shield))
  {
  }

  // ----- the second viewing -----

  lemma {:induction false} GetStored(c: CacheState, key: string, now: int)
    requires CacheInv(c) && Stored(c, key) && now <= EDGE_TTL
    ensures CacheGet(c, key, now).1.Some?
  {
    hide CacheGet;
    var it :| it in Residents(c) && it.key == key && it.expiry.At? && it.expiry.time >= EDGE_TTL;
    var i :| 0 <= i < |Residents(c)| && Residents(c)[i] == it;
    ResidentsDistinct(c);
    UniqueByKey(Residents(c), i, key);
    GetHits(c, key, now);
  }

  lemma {:induction false} StaysStored(c: CacheState, key: string, now: int, other: string)
    requires CacheInv(c) && Stored(c, other) && now <= EDGE_TTL
    ensures Stored(CacheGet(c, key, now).0, other)
  {
    hide CacheGet;
    hide CacheInv;
    hide Residents;
    var it :| it in Residents(c) && it.key == other && it.expiry.At? && it.expiry.time >= EDGE_TTL;
    GetKeeps(c, key, now, it);
  }

  lemma {:induction false} LookupHits(c: CacheState, slots: seq<SegmentRequest>, now: int)
    requires CacheInv(c) && now <= EDGE_TTL && forall k :: 0 <= k < |slots| ==> Stored(c, slots[k].segmentID)
    ensures var (hits, after) := Lookup(Some(c), slots, now);
            && (forall k :: 0 <= k < |slots| ==> hits[k])
            && after.Some? && CacheInv(after.value) && forall key :: Stored(c, key) ==> Stored(after.value, key)
    decreases |slots|
  {
    hide CacheInv;
    hide Stored;
    hide CacheGet;
    if slots != [] {
      var key := slots[0].segmentID;
      var next := CacheGet(c, key, now).0;
      GetStored(c, key, now);
      CacheKeepsInv(c, key, now, Item("", 0, Never, 0));
      forall other | Stored(c, other) ensures Stored(next, other) {
        StaysStored(c, key, now, other);
      }
      assert forall k :: 0 <= k < |slots[1..]| ==> slots[1..][k] == slots[k + 1];
      LookupHits(next, slots[1..], now);
    }
  }

  lemma {:induction false} NothingMissed(slots: seq<SegmentRequest>, hits: seq<bool>)
    requires |hits| == |slots| && forall k :: 0 <= k < |hits| ==> hits[k]
    ensures Missed(slots, hits) == [] && Hits(hits) == |hits|
  {
    if slots != [] {
      NothingMissed(slots[1..], hits[1..]);
    }
  }

  /** A second viewing so far: every lookup has hit, and the transport has not been asked. */
  ghost predicate Warm(e: Env, s: Session, first: seq<SegmentResult>) {
    && AsksInOrder(e, s)
    && s.cache.Some? && CacheInv(s.cache.value) && StoresAll(e.contentID, s.cache.value, first)
    && s.cacheHits == |s.segments| && s.fetchCalls == 0
    && forall k :: 0 <= k < |s.segments| ==> s.segments[k].cacheHit
  }

  ghost predicate SameBitrates(first: seq<SegmentResult>, second: seq<SegmentResult>) {
    |second| <= |first| && forall j :: 0 <= j < |second| ==> second[j].bitrateKbps == first[j].bitrateKbps
  }

  lemma SamePrefix(first: seq<SegmentResult>, a: seq<SegmentResult>, b: seq<SegmentResult>)
    requires a <= b && SameBitrates(first, b)
    ensures SameBitrates(first, a)
  {
  }

  lemma {:induction false} StepWarm(e: Env, s: Session, first: seq<SegmentResult>)
    requires ValidEnv(e) && s.i < e.manifest.totalSegments && BatchStep(e, s).Ok? && Warm(e, s, first)
    requires SameBitrates(first, BatchStep(e, s).value.segments) && s.clock.wall <= EDGE_TTL
    ensures Warm(e, BatchStep(e, s).value, first)
  {
    hide BatchStep;
    hide AsksInOrder;
    hide Lookup;
    hide Missed;
    hide ShieldAll;
    hide Slots;
    hide Plan;
    hide ValidEnv;
    hide Reassembled;
    hide MaxLatency;
    hide Advance;
    hide SampleOf;
    hide Remember;
    hide SlotResponse;
    hide SlotShieldHit;
    hide Hits;
    hide CacheInv;
    hide Stored;
    hide SegmentNames.SegmentID;
    var slots, hits, cache, shield, responses := StepCompletes(e, s);
    var next := BatchStep(e, s).value;
    StepAsks(e, s);
    StepExtends(e, s);
    SlotsAsked(e, s, next, slots);
    LookupHits(s.cache.value, slots, s.clock.wall);
    NothingMissed(slots, hits);
  }

  lemma {:induction false} RunWarm(e: Env, s: Session, first: seq<SegmentResult>)
    requires ValidEnv(e) && SessionRun(e, s).Ok? && Warm(e, s, first)
    requires SameBitrates(first, SessionRun(e, s).value.segments) && SessionRun(e, s).value.clock.wall <= EDGE_TTL
    ensures Warm(e, SessionRun(e, s).value, first)
    decreases e.manifest.totalSegments - s.i
  {
    hide BatchStep;
    hide Warm;
    if s.i < e.manifest.totalSegments {
      StepAdvances(e, s);
      StepExtends(e, s);
      RunExtends(e, BatchStep(e, s).value);
      SamePrefix(first, BatchStep(e, s).value.segments, SessionRun(e, s).value.segments);
      StepWarm(e, s, first);
      RunWarm(e, BatchStep(e, s).value, first);
    }
  }

  /**
   A second session of the same content at the same bitrates, over the cache that the first one
   filled, is served from it: every slot is a hit and the transport is never asked, as long as
   its clock ends within an hour.
   */
  lemma {:induction false} SecondViewingHits(e: Env, handshake: nat, cache: CacheState, shield: Option<Option<CacheState>>,
                                             e2: Env, handshake2: nat, shield2: Option<Option<CacheState>>)
    requires ValidEnv(e) && Empty(cache) && SessionRun(e, Begin(handshake, Some(cache), shield)).Ok?
    requires Sum(SessionRun(e, Begin(handshake, Some(cache), shield)).value.segments, SizeOf()) <= Capacity(cache)
    requires ValidEnv(e2) && e2.contentID == e.contentID
    ensures var first := SessionRun(e, Begin(handshake, Some(cache), shield)).value;
            var run := SessionRun(e2, Begin(handshake2, first.cache, shield2));
            run.Ok? && SameBitrates(first.segments, run.value.segments) && run.value.clock.wall <= EDGE_TTL ==>
              && run.value.cacheHits == |run.value.segments| && run.value.fetchCalls == 0
              && forall k :: 0 <= k < |run.value.segments| ==> run.value.segments[k].cacheHit
  {
    hide SessionRun;
    hide SameBitrates;
    hide StoresAll;
    var first := SessionRun(e, Begin(handshake, Some(cache), shield)).value;
    FirstViewingFills(e, handshake, cache, shield);
    var s := Begin(handshake2, first.cache, shield2);
    var run := SessionRun(e2, s);
    if run.Ok? && SameBitrates(first.segments, run.value.segments) && run.value.clock.wall <= EDGE_TTL {
      RunWarm(e2, s, first.segments);
    }
  }

  // ----- one batch and its cache -----

  ghost predicate Fresh(c: CacheState, key: string, now: int) {
    exists it :: it in Residents(c) && it.key == key && !Expired(it, now)
  }

  lemma {:induction false} HitsFresh(c: CacheState, key: string, now: int)
    requires CacheInv(c)
    ensures CacheGet(c, key, now).1.Some? <==> Fresh(c, key, now)
  {
    hide CacheGet;
    hide CacheInv;
    GetHits(c, key, now);
    ResidentsDistinct(c);
    if Fresh(c, key, now) {
      var it :| it in Residents(c) && it.key == key && !Expired(it, now);
      var i :| 0 <= i < |Residents(c)| && Residents(c)[i] == it;
      UniqueByKey(Residents(c), i, key);
    }
  }

  lemma {:induction false} StaysFresh(c: CacheState, key: string, now: int, other: string)
    requires CacheInv(c)
    ensures Fresh(CacheGet(c, key, now).0, other, now) <==> Fresh(c, other, now)
  {
    hide CacheGet;
    hide CacheInv;
    hide Residents;
    var after := CacheGet(c, key, now).0;
    GetResidents(c, key, now);
    if Fresh(c, other, now) {
      var it :| it in Residents(c) && it.key == other && !Expired(it, now);
      GetKeeps(c, key, now, it);
    }
  }

  lemma {:induction false} LookupFresh(c: CacheState, slots: seq<SegmentRequest>, now: int)
    requires CacheInv(c)
    ensures var hits := Lookup(Some(c), slots, now).0; forall k :: 0 <= k < |slots| ==> (hits[k] <==> Fresh(c, slots[k].segmentID, now))
    decreases |slots|
  {
    hide CacheInv;
    hide CacheGet;
    hide Fresh;
    if slots != [] {
      var key := slots[0].segmentID;
      var next := CacheGet(c, key, now).0;
      HitsFresh(c, key, now);
      CacheKeepsInv(c, key, now, Item("", 0, Never, 0));
      LookupFresh(next, slots[1..], now);
      forall k | 1 <= k < |slots| ensures Fresh(next, slots[k].segmentID, now) <==> Fresh(c, slots[k].segmentID, now) {
        StaysFresh(c, key, now, slots[k].segmentID);
      }
      assert forall k :: 1 <= k < |slots| ==> slots[1..][k - 1] == slots[k];
    }
  }

  /** Exactly which slots of a batch hit: those whose segment the cache held unexpired when the batch began. */
  lemma {:induction false} BatchHits(e: Env, s: Session, k: nat)
    requires ValidEnv(e) && s.i < e.manifest.totalSegments && BatchStep(e, s).Ok? && AsksInOrder(e, s)
    requires s.cache.Some? && CacheInv(s.cache.value) && k < BatchSize(e, s)
    ensures var next := BatchStep(e, s).value;
            && s.i + k < |next.segments|
            && var r := next.segments[s.i + k];
               r.cacheHit <==> Fresh(s.cache.value, SegmentNames.SegmentID(e.contentID, s.i + k, r.bitrateKbps), s.clock.wall)
  {
    hide BatchStep;
    hide AsksInOrder;
    hide Lookup;
    hide Missed;
    hide ShieldAll;
    hide Slots;
    hide Plan;
    hide ValidEnv;
    hide Reassembled;
    hide MaxLatency;
    hide Advance;
    hide SampleOf;
    hide Remember;
    hide SlotResponse;
    hide SlotShieldHit;
    hide Hits;
    hide CacheInv;
    hide InsertAll;
    hide Fresh;
    hide SegmentNames.SegmentID;
    var slots, hits, cache, shield, responses := StepCompletes(e, s);
    var next := BatchStep(e, s).value;
    StepAsks(e, s);
    StepExtends(e, s);
    AsksLength(e, s);
    SlotsAsked(e, s, next, slots);
    LookupFresh(s.cache.value, slots, s.clock.wall);
    assert next.segments[s.i + k].cacheHit == hits[k];
  }

  lemma AsksLength(e: Env, s: Session)
    requires AsksInOrder(e, s)
    ensures |s.segments| == s.i
  {
  }

  /** What an insertion leaves: older items, and the fetched ones stamped for an hour. */
  lemma {:induction false} InsertsStamp(c: CacheState, reqs: seq<SegmentRequest>, now: int, it: Item)
    requires CacheInv(c) && it in Residents(InsertAll(Some(c), reqs, now).value)
    ensures || it in Residents(c)
            || exists k :: 0 <= k < |reqs| && it == Item(reqs[k].segmentID, reqs[k].sizeBytes, At(now + 3_600_000_000_000), 0)
    decreases |reqs|
  {
    hide CacheInv;
    hide CachePut;
    hide Residents;
    if reqs != [] {
      var item := Item(reqs[0].segmentID, reqs[0].sizeBytes, At(now + EDGE_TTL), 0);
      var next := CachePut(c, item);
      PutResidents(c, item);
      CacheKeepsInv(c, item.key, 0, item);
      InsertsStamp(next, reqs[1..], now, it);
      if it !in Residents(next) {
        var k :| 0 <= k < |reqs[1..]| && it == Item(reqs[1..][k].segmentID, reqs[1..][k].sizeBytes, At(now + 3_600_000_000_000), 0);
        assert reqs[1..][k] == reqs[k + 1];
      } else if it !in Residents(c) {
        assert it == item && reqs[0] == reqs[0];
      }
    }
  }

  lemma {:induction false} MissedFrom(slots: seq<SegmentRequest>, hits: seq<bool>, k: nat) returns (m: nat)
    requires |hits| == |slots| && k < |Missed(slots, hits)|
    ensures m < |slots| && !hits[m] && slots[m] == Missed(slots, hits)[k]
    decreases |slots|
  {
    if hits[0] {
      m := MissedFrom(slots[1..], hits[1..], k);
      m := m + 1;
    } else if k == 0 {
      m := 0;
    } else {
      m := MissedFrom(slots[1..], hits[1..], k - 1);
      m := m + 1;
    }
  }

  /** What a batch leaves in its cache: older items, and the segments it fetched, expiring an hour after the batch began. */
  lemma {:induction false} BatchStores(e: Env, s: Session, it: Item)
    requires ValidEnv(e) && s.i < e.manifest.totalSegments && BatchStep(e, s).Ok? && AsksInOrder(e, s)
    requires s.cache.Some? && CacheInv(s.cache.value)
    ensures var next := BatchStep(e, s).value;
            && next.cache.Some? && |next.asked| == |next.segments|
            && (it in Residents(next.cache.value) ==>
                  || it in Residents(s.cache.value)
                  || exists j :: s.i <= j < |next.asked| && !next.segments[j].cacheHit
                                 && it == Item(next.asked[j].segmentID, next.asked[j].sizeBytes, At(s.clock.wall + 3_600_000_000_000), 0))
  {
    hide BatchStep;
    hide AskedRight;
    hide Lookup;
    hide Missed;
    hide ShieldAll;
    hide Slots;
    hide Plan;
    hide ValidEnv;
    hide Reassembled;
    hide MaxLatency;
    hide Advance;
    hide SampleOf;
    hide Remember;
    hide SlotResponse;
    hide SlotShieldHit;
    hide Hits;
    hide CacheInv;
    hide InsertAll;
    hide Residents;
    var slots, hits, cache, shield, responses := StepCompletes(e, s);
    var next, now := BatchStep(e, s).value, s.clock.wall;
    LookupAdds(s.cache, slots, now, it);
    LookupKeepsInv(s.cache.value, slots, now);
    if it in Residents(next.cache.value) && it !in Residents(s.cache.value) {
      var reqs := Missed(slots, hits);
      InsertsStamp(cache.value, reqs, now, it);
      var k :| 0 <= k < |reqs| && it == Item(reqs[k].segmentID, reqs[k].sizeBytes, At(now + 3_600_000_000_000), 0);
      var m := MissedFrom(slots, hits, k);
      assert next.asked[s.i + m] == slots[m] && next.segments[s.i + m].cacheHit == hits[m];
    }
  }

  lemma {:induction false} LookupKeepsInv(c: CacheState, slots: seq<SegmentRequest>, now: int)
    requires CacheInv(c)
    ensures Lookup(Some(c), slots, now).1.Some? && CacheInv(Lookup(Some(c), slots, now).1.value)
    decreases |slots|
  {
    hide CacheInv;
    hide CacheGet;
    if slots != [] {
      CacheKeepsInv(c, slots[0].segmentID, now, Item("", 0, Never, 0));
      LookupKeepsInv(CacheGet(c, slots[0].segmentID, now).0, slots[1..], now);
    }
  }

  /** The last request of a batch is in the cache afterwards, if the cache can hold it at all. */
  lemma {:induction false} LastInserted(c: CacheState, reqs: seq<SegmentRequest>, now: int)
    requires CacheInv(c) && reqs != [] && reqs[|reqs| - 1].sizeBytes <= Capacity(c)
    ensures var r := reqs[|reqs| - 1]; var after := InsertAll(Some(c), reqs, now);
            after.Some? && Item(r.segmentID, r.sizeBytes, At(now + 3_600_000_000_000), 0) in Residents(after.value)
    decreases |reqs|
  {
    hide CacheInv;
    hide CachePut;
    hide Residents;
    hide Capacity;
    var item := Item(reqs[0].segmentID, reqs[0].sizeBytes, At(now + EDGE_TTL), 0);
    PutResidents(c, item);
    CacheKeepsInv(c, item.key, 0, item);
    if |reqs| > 1 {
      LastInserted(CachePut(c, item), reqs[1..], now);
    }
  }
}
