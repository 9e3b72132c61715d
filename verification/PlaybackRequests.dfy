/**
 What a session asks for, and what its caches answer (internal/video/player.go:126-193):
 every segment once, under its own name, so that a first viewing never hits and a second
 one over a cache with room always does.
 */
module PlaybackRequests {
  import opened Wrappers
  import opened CacheItems
  import opened CacheContract
  import opened OriginShields
  import opened TransportTypes
  import opened TransportModel
  import opened Ladder
  import opened PlaybackModel
  import opened Sums
  import SegmentNames
  import opened PlaybackTheorems

  /** The session that a run ends with, whether it went through or not. */
  function Last(run: Result<Session, Failure>): Session {
    if run.Ok? then run.value else run.error.session
  }

  /** What a batch that stops leaves of the session. */
  lemma {:induction false} StepStops(e: Env, s: Session)
    requires ValidEnv(e) && s.i < e.manifest.totalSegments && BatchStep(e, s).Err?
    ensures var next := BatchStep(e, s).error.session;
            && next.segments == s.segments && next.asked == s.asked && next.cacheHits == s.cacheHits
            && next.i == s.i && next.clock == s.clock
  {
    hide Complete;
    hide Lookup;
    hide Missed;
    hide ShieldAll;
  }

  lemma {:induction false} LookupAdds(c: Option<CacheState>, slots: seq<SegmentRequest>, now: int, it: Item)
    requires c.Some? ==> CacheInv(c.value)
    ensures var after := Lookup(c, slots, now).1;
            && (after.Some? <==> c.Some?)
            && (c.Some? && it in Residents(after.value) ==> it in Residents(c.value))
    decreases |slots|
  {
    hide CacheInv;
    hide CacheGet;
    hide Residents;
    if slots != [] {
      if c.Some? {
        GetResidents(c.value, slots[0].segmentID, now);
        CacheKeepsInv(c.value, slots[0].segmentID, now, it);
        LookupAdds(Some(CacheGet(c.value, slots[0].segmentID, now).0), slots[1..], now, it);
      } else {
        LookupAdds(c, slots[1..], now, it);
      }
    }
  }

  /**
   A batch that fails leaves no result, no time and no new item in the edge cache behind, and its
   error says where it failed.
   */
  lemma {:induction false} FailedBatch(e: Env, s: Session, it: Item)
    requires ValidEnv(e) && s.i < e.manifest.totalSegments && BatchStep(e, s).Err?
    requires s.cache.Some? ==> CacheInv(s.cache.value)
    ensures var f := BatchStep(e, s).error;
            && f.session.segments == s.segments && f.session.clock == s.clock && f.session.i == s.i
            && (f.session.cache.Some? <==> s.cache.Some?)
            && (s.cache.Some? && it in Residents(f.session.cache.value) ==> it in Residents(s.cache.value))
            && (if s.shield.None? then "transport batch: " <= f.error else "shield fetch: " <= f.error || "edge batch: " <= f.error)
  {
    hide Complete;
    hide Lookup;
    hide Missed;
    hide ShieldAll;
    hide CacheInv;
    hide Residents;
    LookupAdds(s.cache, Slots(e, Plan(e, s), s.i, BatchSize(e, s)), s.clock.wall, it);
  }

  // ----- every segment once, under its own name -----

  /** Some listed representation has this bitrate, and this size at the index. */
  ghost predicate Offered(m: Manifest, index: nat, bitrateKbps: nat, size: nat) {
    exists rep :: rep in m.representations && rep.bitrateKbps == bitrateKbps
                  && index < |rep.segmentSizes| && rep.segmentSizes[index] == size
  }

  /** The request of result number j is for segment j, at the bitrate and with the size that the result reports. */
  ghost predicate AsksInOrder(e: Env, s: Session) {
    && |s.asked| == |s.segments| == s.i
    && forall j :: 0 <= j < |s.asked| ==> AskedRight(e, s, j)
  }

  ghost predicate AskedRight(e: Env, s: Session, j: nat)
    requires j < |s.asked| == |s.segments|
  {
    var r := s.segments[j];
    && r.index == j
    && s.asked[j] == SegmentRequest(SegmentNames.SegmentID(e.contentID, j, r.bitrateKbps), r.bitrateKbps, r.sizeBytes)
    && Offered(e.manifest, j, r.bitrateKbps, r.sizeBytes)
  }

  lemma {:induction false} StepAsks(e: Env, s: Session)
    requires ValidEnv(e) && s.i < e.manifest.totalSegments && AsksInOrder(e, s)
    ensures AsksInOrder(e, Last(BatchStep(e, s)))
  {
    hide BatchStep;
    hide Lookup;
    hide Missed;
    hide Plan;
    hide ValidEnv;
    hide SegmentNames.SegmentID;
    if BatchStep(e, s).Err? {
      StepStops(e, s);
      var next := BatchStep(e, s).error.session;
      forall j | 0 <= j < |next.asked| ensures AskedRight(e, next, j) {
        assert AskedRight(e, s, j);
      }
    } else {
      hide AsksInOrder;
      hide Complete;
      var slots, hits, cache, shield, responses := StepCompletes(e, s);
      CompleteAsks(e, s, Plan(e, s), slots, hits, cache, shield, responses);
    }
  }

  lemma {:induction false} CompleteAsks(e: Env, s: Session, rep: Representation, slots: seq<SegmentRequest>, hits: seq<bool>,
                                        cache: Option<CacheState>, shield: Option<ShieldOutcome>, responses: seq<SegmentResponse>)
    requires rep in e.manifest.representations && s.i + |slots| <= |rep.segmentSizes| && slots == Slots(e, rep, s.i, |slots|)
    requires |hits| == |slots| && |responses| == |Missed(slots, hits)|
    requires shield.Some? ==> |shield.value.hits| == |Missed(slots, hits)|
    requires AsksInOrder(e, s)
    ensures AsksInOrder(e, Complete(e, s, rep, slots, hits, cache, shield, responses))
  {
    hide Missed;
    hide Reassembled;
    hide MaxLatency;
    hide Advance;
    hide SampleOf;
    hide Remember;
    hide InsertAll;
    hide Hits;
    hide SlotResponse;
    hide SlotShieldHit;
    hide SegmentNames.SegmentID;
    var next := Complete(e, s, rep, slots, hits, cache, shield, responses);
    assert next.asked == s.asked + slots && |next.segments| == |s.segments| + |slots|;
    forall j | 0 <= j < |next.asked| ensures AskedRight(e, next, j) {
      if j < |s.asked| {
        assert AskedRight(e, s, j);
        assert next.asked[j] == s.asked[j] && next.segments[j] == s.segments[j];
      } else {
        assert next.asked[j] == slots[j - s.i];
      }
    }
  }

  lemma {:induction false} RunAsks(e: Env, s: Session)
    requires ValidEnv(e) && AsksInOrder(e, s)
    ensures AsksInOrder(e, Last(SessionRun(e, s)))
    decreases e.manifest.totalSegments - s.i
  {
    hide AsksInOrder;
    hide BatchStep;
    if s.i < e.manifest.totalSegments {
      StepAsks(e, s);
      StepAdvances(e, s);
      if BatchStep(e, s).Ok? {
        RunAsks(e, BatchStep(e, s).value);
      }
    }
  }

  /**
   Over every session, finished or not, the request behind result number j names segment j of
   the content at the result's bitrate, and the result's size is the one that a representation
   of that bitrate lists for segment j.
   */
  lemma {:induction false} EverySessionAsksInOrder(e: Env, handshake: nat, cache: Option<CacheState>,
                                                   shield: Option<Option<CacheState>>, j: nat)
    requires ValidEnv(e)
    ensures var s := Last(SessionRun(e, Begin(handshake, cache, shield)));
            && |s.asked| == |s.segments| == s.i
            && (j < |s.segments| ==>
                  var r := s.segments[j];
                  && r.index == j
                  && s.asked[j].segmentID == SegmentNames.SegmentID(e.contentID, j, r.bitrateKbps)
                  && s.asked[j].bitrateKbps == r.bitrateKbps && s.asked[j].sizeBytes == r.sizeBytes
                  && exists rep :: rep in e.manifest.representations && rep.bitrateKbps == r.bitrateKbps
                                   && j < |rep.segmentSizes| && rep.segmentSizes[j] == r.sizeBytes)
  {
    hide SessionRun;
    hide SegmentNames.SegmentID;
    RunAsks(e, Begin(handshake, cache, shield));
    var s := Last(SessionRun(e, Begin(handshake, cache, shield)));
    if j < |s.segments| {
      assert AskedRight(e, s, j);
    }
  }

  // ----- a first viewing never hits -----

  /** If the key names a segment of the content, the segment is one of the first n. */
  ghost predicate Below(contentID: string, key: string, n: nat) {
    forall i: nat, b: nat :: key == SegmentNames.SegmentID(contentID, i, b) ==> i < n
  }

  /** Of the content's segments the cache holds at most the first n. */
  ghost predicate HoldsBelow(contentID: string, c: Option<CacheState>, n: nat) {
    c.Some? ==> CacheInv(c.value) && forall it :: it in Residents(c.value) ==> Below(contentID, it.key, n)
  }

  ghost predicate Named(contentID: string, r: SegmentRequest, i: nat) {
    exists b: nat :: r.segmentID == SegmentNames.SegmentID(contentID, i, b)
  }

  /** The requests name segments from n up to m in increasing order. */
  ghost predicate InOrder(contentID: string, reqs: seq<SegmentRequest>, n: nat, m: nat)
    decreases |reqs|
  {
    && n <= m
    && (reqs != [] ==> exists i: nat :: n <= i < m && Named(contentID, reqs[0], i) && InOrder(contentID, reqs[1..], i + 1, m))
  }

  lemma {:induction false} NamedBelow(contentID: string, r: SegmentRequest, i: nat)
    requires Named(contentID, r, i)
    ensures forall n: nat :: Below(contentID, r.segmentID, n) <==> i < n
  {
    hide SegmentNames.SegmentID;
    var b: nat :| r.segmentID == SegmentNames.SegmentID(contentID, i, b);
    forall i': nat, b': nat | SegmentNames.SegmentID(contentID, i', b') == r.segmentID ensures i' == i {
      SegmentNames.IDsInjective(contentID, i, b, contentID, i', b');
    }
  }

  lemma {:induction false} InOrderEarlier(contentID: string, reqs: seq<SegmentRequest>, n: nat, l: nat, m: nat)
    requires InOrder(contentID, reqs, n, m) && l <= n
    ensures InOrder(contentID, reqs, l, m)
  {
  }

  lemma {:induction false} InOrderCons(contentID: string, r: SegmentRequest, rest: seq<SegmentRequest>, n: nat, i: nat, m: nat)
    requires n <= i < m && Named(contentID, r, i) && InOrder(contentID, rest, i + 1, m)
    ensures InOrder(contentID, [r] + rest, n, m)
  {
    hide Named;
    var reqs := [r] + rest;
    assert reqs[0] == r && reqs[1..] == rest;
    assert Named(contentID, reqs[0], i) && InOrder(contentID, reqs[1..], i + 1, m);
  }

  lemma {:induction false} SlotsInOrder(e: Env, rep: Representation, first: nat, size: nat, k: nat)
    requires first + size <= |rep.segmentSizes| && k <= size
    ensures InOrder(e.contentID, Slots(e, rep, first, size)[k..], first + k, first + size)
    decreases size - k
  {
    hide SegmentNames.SegmentID;
    if k < size {
      SlotsInOrder(e, rep, first, size, k + 1);
      var slots := Slots(e, rep, first, size);
      assert slots[k..][1..] == slots[k + 1..] && slots[k..][0] == slots[k];
      assert Named(e.contentID, slots[k], first + k);
    }
  }

  lemma {:induction false} MissedInOrder(contentID: string, slots: seq<SegmentRequest>, hits: seq<bool>, n: nat, m: nat)
    requires |hits| == |slots| && InOrder(contentID, slots, n, m)
    ensures InOrder(contentID, Missed(slots, hits), n, m)
    decreases |slots|
  {
    hide Named;
    if slots != [] {
      var i: nat :| n <= i < m && Named(contentID, slots[0], i) && InOrder(contentID, slots[1..], i + 1, m);
      MissedInOrder(contentID, slots[1..], hits[1..], i + 1, m);
      var rest := Missed(slots[1..], hits[1..]);
      InOrderEarlier(contentID, rest, i + 1, n, m);
      if hits[0] {
        assert [] + rest == rest;
      } else {
        InOrderCons(contentID, slots[0], rest, n, i, m);
      }
    }
  }

  /** A lookup of a segment that the cache cannot hold yet misses, and adds nothing to the cache. */
  lemma {:induction false} GetBelow(contentID: string, c: CacheState, r: SegmentRequest, now: int, n: nat, i: nat)
    requires HoldsBelow(contentID, Some(c), n) && Named(contentID, r, i) && n <= i
    ensures CacheGet(c, r.segmentID, now).1.None? && HoldsBelow(contentID, Some(CacheGet(c, r.segmentID, now).0), n)
  {
    hide Below;
    hide CacheInv;
    hide CacheGet;
    hide Residents;
    NamedBelow(contentID, r, i);
    GetHits(c, r.segmentID, now);
    GetResidents(c, r.segmentID, now);
    CacheKeepsInv(c, r.segmentID, now, Item("", 0, Never, 0));
  }

  lemma {:induction false} PutBelow(contentID: string, c: CacheState, r: SegmentRequest, item: Item, n: nat, i: nat)
    requires HoldsBelow(contentID, Some(c), n) && Named(contentID, r, i) && n <= i && item.key == r.segmentID
    ensures HoldsBelow(contentID, Some(CachePut(c, item)), i + 1)
  {
    hide CacheInv;
    hide CachePut;
    hide Residents;
    hide SegmentNames.SegmentID;
    NamedBelow(contentID, r, i);
    PutResidents(c, item);
    CacheKeepsInv(c, item.key, 0, item);
  }

  lemma {:induction false} HoldsMore(contentID: string, c: Option<CacheState>, n: nat, m: nat)
    requires HoldsBelow(contentID, c, n) && n <= m
    ensures HoldsBelow(contentID, c, m)
  {
    hide Residents;
    hide SegmentNames.SegmentID;
    if c.Some? {
      forall it | it in Residents(c.value) ensures Below(contentID, it.key, m) {
        assert Below(contentID, it.key, n);
      }
    }
  }

  lemma {:induction false} LookupMisses(contentID: string, c: Option<CacheState>, slots: seq<SegmentRequest>, now: int, n: nat, m: nat)
    requires HoldsBelow(contentID, c, n) && InOrder(contentID, slots, n, m)
    ensures var (hits, after) := Lookup(c, slots, now);
            (forall k :: 0 <= k < |slots| ==> !hits[k]) && HoldsBelow(contentID, after, n)
    decreases |slots|
  {
    hide HoldsBelow;
    hide Named;
    if slots != [] {
      var i: nat :| n <= i < m && Named(contentID, slots[0], i) && InOrder(contentID, slots[1..], i + 1, m);
      InOrderEarlier(contentID, slots[1..], i + 1, n, m);
      if c.Some? {
        GetBelow(contentID, c.value, slots[0], now, n, i);
        LookupMisses(contentID, Some(CacheGet(c.value, slots[0].segmentID, now).0), slots[1..], now, n, m);
      } else {
        LookupMisses(contentID, c, slots[1..], now, n, m);
      }
    }
  }

  lemma {:induction false} InsertsBelow(contentID: string, c: Option<CacheState>, reqs: seq<SegmentRequest>, now: int, n: nat, m: nat)
    requires HoldsBelow(contentID, c, n) && InOrder(contentID, reqs, n, m)
    ensures HoldsBelow(contentID, InsertAll(c, reqs, now), m)
    decreases |reqs|
  {
    hide HoldsBelow;
    hide Named;
    if reqs == [] || c.None? {
      HoldsMore(contentID, c, n, m);
    } else {
      var i: nat :| n <= i < m && Named(contentID, reqs[0], i) && InOrder(contentID, reqs[1..], i + 1, m);
      var item := Item(reqs[0].segmentID, reqs[0].sizeBytes, At(now + EDGE_TTL), 0);
      PutBelow(contentID, c.value, reqs[0], item, n, i);
      InsertsBelow(contentID, Some(CachePut(c.value, item)), reqs[1..], now, i + 1, m);
    }
  }

  /** So far no segment of the content has been looked up twice, and none has been a hit. */
  ghost predicate Cold(e: Env, s: Session) {
    && HoldsBelow(e.contentID, s.cache, s.i)
    && s.cacheHits == 0 && forall k :: 0 <= k < |s.segments| ==> !s.segments[k].cacheHit
  }

  lemma {:induction false} NoHits(hits: seq<bool>)
    requires forall k :: 0 <= k < |hits| ==> !hits[k]
    ensures Hits(hits) == 0
  {
    if hits != [] {
      NoHits(hits[1..]);
    }
  }

  lemma {:induction false} StepCold(e: Env, s: Session)
    requires ValidEnv(e) && s.i < e.manifest.totalSegments && Cold(e, s)
    ensures BatchStep(e, s).Ok? ==> Cold(e, BatchStep(e, s).value)
  {
    hide BatchStep;
    hide HoldsBelow;
    hide InOrder;
    hide Lookup;
    hide Missed;
    hide ShieldAll;
    hide InsertAll;
    hide Slots;
    hide Plan;
    hide ValidEnv;
    hide Reassembled;
    hide MaxLatency;
    hide Advance;
    hide SampleOf;
    hide Remember;
    hide SlotResponse;
    hide SlotShieldHit;
    hide Hits;
    if BatchStep(e, s).Ok? {
      var slots, hits, cache, shield, responses := StepCompletes(e, s);
      var m := s.i + |slots|;
      SlotsInOrder(e, Plan(e, s), s.i, |slots|, 0);
      assert slots[0..] == slots;
      LookupMisses(e.contentID, s.cache, slots, s.clock.wall, s.i, m);
      MissedInOrder(e.contentID, slots, hits, s.i, m);
      InsertsBelow(e.contentID, cache, Missed(slots, hits), s.clock.wall, s.i, m);
      NoHits(hits);
    }
  }

  lemma {:induction false} RunCold(e: Env, s: Session)
    requires ValidEnv(e) && Cold(e, s)
    ensures var r := Last(SessionRun(e, s)); r.cacheHits == 0 && forall k :: 0 <= k < |r.segments| ==> !r.segments[k].cacheHit
    decreases e.manifest.totalSegments - s.i
  {
    hide HoldsBelow;
    hide BatchStep;
    if s.i < e.manifest.totalSegments {
      StepAdvances(e, s);
      if BatchStep(e, s).Ok? {
        StepCold(e, s);
        RunCold(e, BatchStep(e, s).value);
      } else {
        StepStops(e, s);
      }
    }
  }

  /**
   A session whose cache holds no segment of its content, an empty one for example, has no cache
   hit at all, at any prefetch depth and whatever the bitrates.
   */
  lemma {:induction false} FirstViewingMisses(e: Env, handshake: nat, cache: Option<CacheState>, shield: Option<Option<CacheState>>)
    requires ValidEnv(e)
    requires cache.Some? ==>
               && CacheInv(cache.value)
               && forall it, i: nat, b: nat :: it in Residents(cache.value) ==> it.key != SegmentNames.SegmentID(e.contentID, i, b)
    ensures var s := Last(SessionRun(e, Begin(handshake, cache, shield)));
            s.cacheHits == 0 && forall k :: 0 <= k < |s.segments| ==> !s.segments[k].cacheHit
  {
    hide SessionRun;
    hide CacheInv;
    hide SegmentNames.SegmentID;
    RunCold(e, Begin(handshake, cache, shield));
  }

  // ----- nor does its shield -----

  lemma {:induction false} ShieldFetchBelow(e: Env, c: Option<CacheState>, r: SegmentRequest, now: int,
                                            answer: Result<SegmentResponse, string>, n: nat, i: nat)
    requires HoldsBelow(e.contentID, c, n) && Named(e.contentID, r, i) && n <= i
    ensures var f := ShieldFetch(c, e.shieldTTL, r, now, answer);
            f.1 && (f.2.Ok? ==> !f.2.value && HoldsBelow(e.contentID, f.0, i + 1))
  {
    hide HoldsBelow;
    hide Named;
    hide CacheGet;
    hide CachePut;
    if c.Some? {
      GetBelow(e.contentID, c.value, r, now, n, i);
      var item := Item(r.segmentID, r.sizeBytes, ExpiryAfter(now, e.shieldTTL), 0);
      PutBelow(e.contentID, CacheGet(c.value, r.segmentID, now).0, r, item, n, i);
    } else {
      HoldsMore(e.contentID, c, n, i + 1);
    }
  }

  lemma {:induction false} ShieldMisses(e: Env, c: Option<CacheState>, calls: nat, reqs: seq<SegmentRequest>, now: int, n: nat, m: nat)
    requires HoldsBelow(e.contentID, c, n) && InOrder(e.contentID, reqs, n, m)
    ensures var r := ShieldAll(e, c, calls, reqs, now);
            && (forall k :: 0 <= k < |r.hits| ==> !r.hits[k])
            && (r.failed.None? ==> HoldsBelow(e.contentID, r.cache, m) && r.calls == calls + |reqs|)
    decreases |reqs|
  {
    hide HoldsBelow;
    hide Named;
    hide ShieldFetch;
    if reqs == [] {
      HoldsMore(e.contentID, c, n, m);
    } else {
      var i: nat :| n <= i < m && Named(e.contentID, reqs[0], i) && InOrder(e.contentID, reqs[1..], i + 1, m);
      var f := ShieldFetch(c, e.shieldTTL, reqs[0], now, e.origin(calls, reqs[0]));
      ShieldFetchBelow(e, c, reqs[0], now, e.origin(calls, reqs[0]), n, i);
      if f.2.Ok? {
        ShieldMisses(e, f.0, calls + 1, reqs[1..], now, i + 1, m);
      }
    }
  }

  lemma {:induction false} MissedCount(slots: seq<SegmentRequest>, hits: seq<bool>)
    requires |hits| == |slots|
    ensures |Missed(slots, hits)| + Hits(hits) == |slots|
  {
    if slots != [] {
      MissedCount(slots[1..], hits[1..]);
    }
  }

  /** So far the shield has been asked for no segment twice, so every miss went on to the origin. */
  ghost predicate ColdShield(e: Env, s: Session) {
    && s.shield.Some? && HoldsBelow(e.contentID, s.shield.value, s.i)
    && s.originCalls + s.cacheHits == |s.segments| == s.i
    && forall k :: 0 <= k < |s.segments| ==> !s.segments[k].shieldHit
  }

  lemma {:induction false} NoShieldHits(slots: seq<SegmentRequest>, hits: seq<bool>, shieldHits: seq<bool>)
    requires |hits| == |slots| && |shieldHits| == |Missed(slots, hits)|
    requires forall k :: 0 <= k < |shieldHits| ==> !shieldHits[k]
    ensures forall k :: 0 <= k < |slots| ==> !SlotShieldHit(slots, hits, shieldHits, k)
  {
    hide Missed;
    hide MissRank;
    forall k | 0 <= k < |slots| ensures !SlotShieldHit(slots, hits, shieldHits, k) {
      if !hits[k] {
        MissRankBound(slots, hits, k);
      }
    }
  }

  lemma {:induction false} StepColdShield(e: Env, s: Session)
    requires ValidEnv(e) && s.i < e.manifest.totalSegments && ColdShield(e, s)
    ensures BatchStep(e, s).Ok? ==> ColdShield(e, BatchStep(e, s).value)
  {
    hide BatchStep;
    hide HoldsBelow;
    hide InOrder;
    hide Lookup;
    hide Missed;
    hide ShieldAll;
    hide InsertAll;
    hide Slots;
    hide Plan;
    hide ValidEnv;
    hide Reassembled;
    hide MaxLatency;
    hide Advance;
    hide SampleOf;
    hide Remember;
    hide SlotResponse;
    hide SlotShieldHit;
    hide Hits;
    if BatchStep(e, s).Ok? {
      var slots, hits, cache, shield, responses := StepCompletes(e, s);
      var m := s.i + |slots|;
      SlotsInOrder(e, Plan(e, s), s.i, |slots|, 0);
      assert slots[0..] == slots;
      MissedInOrder(e.contentID, slots, hits, s.i, m);
      ShieldMisses(e, s.shield.value, s.originCalls, Missed(slots, hits), s.clock.wall, s.i, m);
      MissedCount(slots, hits);
      NoShieldHits(slots, hits, shield.value.hits);
    }
  }

  lemma {:induction false} RunColdShield(e: Env, s: Session)
    requires ValidEnv(e) && ColdShield(e, s)
    ensures var run := SessionRun(e, s);
            && (run.Ok? ==> run.value.originCalls + run.value.cacheHits == |run.value.segments|)
            && forall k :: 0 <= k < |Last(run).segments| ==> !Last(run).segments[k].shieldHit
    decreases e.manifest.totalSegments - s.i
  {
    hide HoldsBelow;
    hide BatchStep;
    if s.i < e.manifest.totalSegments {
      StepAdvances(e, s);
      if BatchStep(e, s).Ok? {
        StepColdShield(e, s);
        RunColdShield(e, BatchStep(e, s).value);
      } else {
        StepStops(e, s);
      }
    }
  }

  /**
   A shield that holds no segment of the content when a session starts serves none of the
   session's requests itself: in a session that goes through, the origin is asked exactly once
   for each segment that the edge cache did not have.
   */
  lemma {:induction false} FirstViewingReachesOrigin(e: Env, handshake: nat, cache: Option<CacheState>, shield: Option<CacheState>)
    requires ValidEnv(e)
    requires shield.Some? ==>
               && CacheInv(shield.value)
               && forall it, i: nat, b: nat :: it in Residents(shield.value) ==> it.key != SegmentNames.SegmentID(e.contentID, i, b)
    ensures var run := SessionRun(e, Begin(handshake, cache, Some(shield)));
            && (run.Ok? ==> run.value.originCalls + run.value.cacheHits == |run.value.segments|)
            && forall k :: 0 <= k < |Last(run).segments| ==> !Last(run).segments[k].shieldHit
  {
    hide SessionRun;
    hide CacheInv;
    hide SegmentNames.SegmentID;
    RunColdShield(e, Begin(handshake, cache, Some(shield)));
  }

  // ----- every segment is served once -----

  function ShieldFlagged(segments: seq<SegmentResult>): nat {
    if segments == [] then 0 else (if segments[0].shieldHit then 1 else 0) + ShieldFlagged(segments[1..])
  }

  lemma {:induction false} ShieldFlaggedAppend(a: seq<SegmentResult>, b: seq<SegmentResult>)
    ensures ShieldFlagged(a + b) == ShieldFlagged(a) + ShieldFlagged(b)
  {
    if a == [] {
      assert a + b == b;
    } else {
      ShieldFlaggedAppend(a[1..], b);
      assert (a + b)[1..] == a[1..] + b;
    }
  }

  /** The flags of the slots are the shield's answers, neither lost nor doubled. */
  lemma {:induction false} FlagsArrive(slots: seq<SegmentRequest>, hits: seq<bool>, shieldHits: seq<bool>, results: seq<SegmentResult>)
    requires |hits| == |slots| == |results| && |shieldHits| == |Missed(slots, hits)|
    requires forall k :: 0 <= k < |slots| ==> results[k].shieldHit == SlotShieldHit(slots, hits, shieldHits, k)
    ensures ShieldFlagged(results) == Hits(shieldHits)
  {
    if slots != [] {
      var rest := if hits[0] then shieldHits else shieldHits[1..];
      forall k | 0 <= k < |slots| - 1
        ensures results[1..][k].shieldHit == SlotShieldHit(slots[1..], hits[1..], rest, k)
      {
        FlagShift(slots, hits, shieldHits, k);
      }
      FlagsArrive(slots[1..], hits[1..], rest, results[1..]);
    }
  }

  lemma {:induction false} FlagShift(slots: seq<SegmentRequest>, hits: seq<bool>, shieldHits: seq<bool>, k: nat)
    requires |hits| == |slots| && |shieldHits| == |Missed(slots, hits)| && k + 1 < |slots|
    ensures var rest := if hits[0] then shieldHits else shieldHits[1..];
            && |rest| == |Missed(slots[1..], hits[1..])|
            && SlotShieldHit(slots, hits, shieldHits, k + 1) == SlotShieldHit(slots[1..], hits[1..], rest, k)
  {
    if !hits[k + 1] {
      MissRankBound(slots[1..], hits[1..], k);
    }
  }

  lemma {:induction false} ShieldCalls(e: Env, c: Option<CacheState>, calls: nat, reqs: seq<SegmentRequest>, now: int)
    ensures var r := ShieldAll(e, c, calls, reqs, now); r.failed.None? ==> r.calls + Hits(r.hits) == calls + |reqs|
    decreases |reqs|
  {
    hide CacheGet;
    hide Access;
    if reqs != [] {
      var f := ShieldFetch(c, e.shieldTTL, reqs[0], now, e.origin(calls, reqs[0]));
      if f.2.Ok? {
        var asked := calls + (if f.1 then 1 else 0);
        ShieldCalls(e, f.0, asked, reqs[1..], now);
        var rest := ShieldAll(e, f.0, asked, reqs[1..], now);
        assert ([f.2.value] + rest.hits)[1..] == rest.hits;
      }
    }
  }

  ghost predicate ServedOnce(s: Session) {
    s.shield.Some? && s.cacheHits + ShieldFlagged(s.segments) + s.originCalls == |s.segments|
  }

  lemma {:induction false} StepServes(e: Env, s: Session)
    requires ValidEnv(e) && s.i < e.manifest.totalSegments && ServedOnce(s)
    ensures BatchStep(e, s).Ok? ==> ServedOnce(BatchStep(e, s).value)
  {
    hide BatchStep;
    hide Lookup;
    hide Missed;
    hide ShieldAll;
    hide InsertAll;
    hide Slots;
    hide Plan;
    hide ValidEnv;
    hide Reassembled;
    hide MaxLatency;
    hide Advance;
    hide SampleOf;
    hide Remember;
    hide SlotResponse;
    hide SlotShieldHit;
    hide Hits;
    hide ShieldFlagged;
    if BatchStep(e, s).Ok? {
      var slots, hits, cache, shield, responses := StepCompletes(e, s);
      var next := BatchStep(e, s).value;
      var added := next.segments[|s.segments|..];
      assert next.segments == s.segments + added;
      ShieldFlaggedAppend(s.segments, added);
      FlagsArrive(slots, hits, shield.value.hits, added);
      ShieldCalls(e, s.shield.value, s.originCalls, Missed(slots, hits), s.clock.wall);
      MissedCount(slots, hits);
    }
  }

  lemma {:induction false} RunServes(e: Env, s: Session)
    requires ValidEnv(e) && ServedOnce(s)
    ensures SessionRun(e, s).Ok? ==> ServedOnce(SessionRun(e, s).value)
    decreases e.manifest.totalSegments - s.i
  {
    hide BatchStep;
    hide ServedOnce;
    if s.i < e.manifest.totalSegments {
      StepServes(e, s);
      StepAdvances(e, s);
      if BatchStep(e, s).Ok? {
        RunServes(e, BatchStep(e, s).value);
      }
    }
  }

  /**
   Behind a shield, every segment of a session that goes through is served by exactly one of the
   edge cache, the shield and the origin: cache hits, shield hits and origin calls add up to the
   segments.
   */
  lemma {:induction false} EverySegmentServedOnce(e: Env, handshake: nat, cache: Option<CacheState>, shield: Option<CacheState>)
    requires ValidEnv(e)
    ensures var run := SessionRun(e, Begin(handshake, cache, Some(shield)));
            run.Ok? ==> run.value.cacheHits + ShieldFlagged(run.value.segments) + run.value.originCalls == |run.value.segments|
  {
    hide SessionRun;
    hide ShieldFlagged;
    assert ShieldFlagged([]) == 0 by { NothingFlagged(); }
    RunServes(e, Begin(handshake, cache, Some(shield)));
  }

  lemma NothingFlagged()
    ensures ShieldFlagged([]) == 0
  {
  }
}
