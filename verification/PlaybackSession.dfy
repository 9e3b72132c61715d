/** RunPlayback with its own loops and local state, proved against the session machine. */
module PlaybackSessions {
  import opened Wrappers
  import opened CacheItems
  import opened CacheContract
  import opened OriginShields
  import opened TransportTypes
  import opened TransportModel
  import opened Ladder
  import opened BufferBased
  import opened PlaybackModel
  import opened PlaybackTheorems
  import opened Sums

  datatype PlaybackResult = PlaybackResult(startupLatency: nat, totalPlayTime: nat, rebufferCount: nat, rebufferDuration: nat,
                                           bitrateChanges: nat, segments: seq<SegmentResult>,
                                           avgBitrateKbps: real, cacheHitRate: real)

  /** What has been accumulated when a run stops early; the totals are still zero then. */
  function PartialOf(s: Session): PlaybackResult {
    var c := s.clock;
    PlaybackResult(c.startup, 0, c.rebufferCount, c.rebufferDuration, s.bitrateChanges, s.segments, 0.0, 0.0)
  }

  function SumBitrates(segments: seq<SegmentResult>): nat {
    if segments == [] then 0 else segments[0].bitrateKbps + SumBitrates(segments[1..])
  }

  function Ratio(total: nat, count: nat): real {
    if count == 0 then 0.0 else total as real / count as real
  }

  /** Playback that never starts reports the whole session as startup. */
  function ResultOf(s: Session): PlaybackResult {
    var c := s.clock;
    PartialOf(s).(startupLatency := if !c.started && c.startup == 0 then c.wall else c.startup, totalPlayTime := c.wall,
                  avgBitrateKbps := Ratio(SumBitrates(s.segments), |s.segments|),
                  cacheHitRate := Ratio(s.cacheHits, |s.segments|))
  }

  function BitrateOf(): SegmentResult -> int {
    (r: SegmentResult) => r.bitrateKbps
  }

  lemma {:induction false} SumBitratesIs(segments: seq<SegmentResult>)
    ensures SumBitrates(segments) == Sum(segments, BitrateOf())
  {
    if segments != [] {
      SumBitratesIs(segments[1..]);
    }
  }

  lemma RatioTimes(total: nat, count: nat)
    requires count > 0
    ensures Ratio(total, count) * count as real == total as real
  {
  }

  /**
   The result of a session that went through: its times add up, its startup latency is the
   whole session when playback never starts, its average bitrate and hit rate are those of its
   segments, and its counters are those of its batches.
   */
  lemma {:induction false} FinishedResult(e: Env, handshake: nat, cache: Option<CacheState>, shield: Option<Option<CacheState>>)
    requires ValidEnv(e)
    ensures var run := SessionRun(e, Begin(handshake, cache, shield));
            run.Ok? ==>
              var r, s, n := ResultOf(run.value), run.value, e.manifest.totalSegments;
              && r.totalPlayTime == handshake + Sum(s.log, FetchOf()) + r.rebufferDuration + Sum(s.log, ExcessOf())
              && r.rebufferDuration == Sum(s.log, StallOf()) && r.rebufferCount == Sum(s.log, StalledOf())
              && (if s.clock.started then
                    r.totalPlayTime - r.startupLatency + s.clock.buffer
                    == n * e.manifest.segmentDuration + 2 * r.rebufferDuration - Sum(s.log, EarlyExcessOf())
                  else r.startupLatency == r.totalPlayTime)
              && r.segments == s.segments && |r.segments| == n
              && (n > 0 ==>
                    && r.avgBitrateKbps * n as real == Sum(r.segments, BitrateOf()) as real
                    && r.cacheHitRate * n as real == Flagged(r.segments) as real)
              && r.bitrateChanges == Changes(s.log)
  {
    hide SessionRun;
    hide Sum;
    hide SumBitrates;
    hide Ratio;
    hide Flagged;
    hide Changes;
    hide SampleList;
    RunKeeps(e, handshake, Begin(handshake, cache, shield)) by { KeptAtStart(e, handshake, cache, shield); }
    var run := SessionRun(e, Begin(handshake, cache, shield));
    if run.Ok? {
      var s := run.value;
      SumBitratesIs(s.segments);
      if |s.segments| > 0 {
        RatioTimes(SumBitrates(s.segments), |s.segments|);
        RatioTimes(s.cacheHits, |s.segments|);
      }
    }
  }

  // ----- the two miss-mapping schemes -----

  lemma {:induction false} MissRankStep(hits: seq<bool>, k: nat)
    requires k < |hits|
    ensures MissRank(hits, k + 1) == MissRank(hits, k) + (if hits[k] then 0 else 1)
  {
    if k > 0 {
      MissRankStep(hits[1..], k - 1);
    }
  }

  lemma {:induction false} MissRankPrefix(hits: seq<bool>, more: seq<bool>, k: nat)
    requires k <= |hits|
    ensures MissRank(hits + more, k) == MissRank(hits, k)
  {
    if k > 0 {
      assert (hits + more)[1..] == hits[1..] + more;
      MissRankPrefix(hits[1..], more, k - 1);
    }
  }

  lemma {:induction false} MissedSnoc(slots: seq<SegmentRequest>, hits: seq<bool>, slot: SegmentRequest, hit: bool)
    requires |hits| == |slots|
    ensures Missed(slots + [slot], hits + [hit]) == Missed(slots, hits) + (if hit then [] else [slot])
    ensures |Missed(slots, hits)| == MissRank(hits, |hits|)
  {
    if slots == [] {
      assert [slot][1..] == [] && [hit][1..] == [];
    } else {
      var first, more := if hits[0] then [] else [slots[0]], if hit then [] else [slot];
      MissedSnoc(slots[1..], hits[1..], slot, hit);
      assert (slots + [slot])[1..] == slots[1..] + [slot] && (hits + [hit])[1..] == hits[1..] + [hit];
      assert Missed(slots + [slot], hits + [hit]) == first + (Missed(slots[1..], hits[1..]) + more);
      assert Missed(slots, hits) == first + Missed(slots[1..], hits[1..]);
    }
  }

  lemma {:induction false} LookupStep(c: Option<CacheState>, slots: seq<SegmentRequest>, k: nat, now: int)
    requires k < |slots|
    ensures var hit := c.Some? && CacheGet(c.value, slots[k].segmentID, now).1.Some?;
            var after := if c.Some? then Some(CacheGet(c.value, slots[k].segmentID, now).0) else None;
            var rest := Lookup(after, slots[k + 1..], now);
            Lookup(c, slots[k..], now) == ([hit] + rest.0, rest.1)
  {
    assert slots[k..][1..] == slots[k + 1..];
  }

  /** missIndices gives every missed slot its position in the request list. */
  ghost predicate Indexed(missIndices: seq<nat>, hits: seq<bool>) {
    |missIndices| == |hits| && forall m :: 0 <= m < |hits| && !hits[m] ==> missIndices[m] == MissRank(hits, m)
  }

  lemma {:induction false} IndexedSnoc(missIndices: seq<nat>, hits: seq<bool>, hit: bool)
    requires Indexed(missIndices, hits)
    ensures Indexed(missIndices + [if hit then 0 else MissRank(hits, |hits|)], hits + [hit])
  {
    forall m | 0 <= m <= |hits| ensures MissRank(hits + [hit], m) == MissRank(hits, m) {
      MissRankPrefix(hits, [hit], m);
    }
  }

  /** Build the request list and check the cache. */
  method LookupSlots(cache: Option<CacheState>, slots: seq<SegmentRequest>, now: int)
    returns (hits: seq<bool>, missIndices: seq<nat>, batchReqs: seq<SegmentRequest>, after: Option<CacheState>)
    ensures (hits, after) == Lookup(cache, slots, now)
    ensures batchReqs == Missed(slots, hits) && Indexed(missIndices, hits)
  {
    hide Lookup;
    hide Missed;
    hide MissRank;
    hide Indexed;
    hits, missIndices, batchReqs, after := [], [], [], cache;
    ghost var all := Lookup(cache, slots, now);
    assert slots[0..] == slots && [] + all.0 == all.0 && slots[..0] == [];
    StartLookup();
    for k := 0 to |slots|
      invariant |hits| == k && Indexed(missIndices, hits) && batchReqs == Missed(slots[..k], hits)
      invariant hits + Lookup(after, slots[k..], now).0 == all.0 && Lookup(after, slots[k..], now).1 == all.1
    {
      LookupStep(after, slots, k, now);
      assert slots[..k + 1] == slots[..k] + [slots[k]];
      var hit := false;
      if after.Some? {
        var (c, item) := CacheGet(after.value, slots[k].segmentID, now);
        after := Some(c);
        hit := item.Some?;
      }
      MissedSnoc(slots[..k], hits, slots[k], hit);
      IndexedSnoc(missIndices, hits, hit);
      if hit {
        missIndices := missIndices + [0];
        assert batchReqs + [] == batchReqs;
      } else {
        missIndices := missIndices + [|batchReqs|];
        batchReqs := batchReqs + [slots[k]];
      }
      hits := hits + [hit];
    }
    assert slots[..|slots|] == slots;
    EndLookup(after, slots, now);
    assert hits + [] == hits;
  }

  lemma StartLookup()
    ensures Indexed([], []) && Missed([], []) == []
  {
  }

  lemma EndLookup(c: Option<CacheState>, slots: seq<SegmentRequest>, now: int)
    ensures Lookup(c, slots[|slots|..], now) == ([], c)
  {
  }

  /** Shield results travel back to the slots through missIndices. */
  method PropagateShieldHits(slots: seq<SegmentRequest>, hits: seq<bool>, missIndices: seq<nat>, shieldHitsByReq: seq<bool>)
    returns (flags: seq<bool>)
    requires |hits| == |slots| && Indexed(missIndices, hits) && |shieldHitsByReq| == |Missed(slots, hits)|
    ensures |flags| == |slots|
    ensures forall k :: 0 <= k < |slots| ==> flags[k] == SlotShieldHit(slots, hits, shieldHitsByReq, k)
  {
    flags := [];
    for k := 0 to |slots|
      invariant |flags| == k
      invariant forall m :: 0 <= m < k ==> flags[m] == SlotShieldHit(slots, hits, shieldHitsByReq, m)
    {
      var flag := false;
      if !hits[k] {
        MissRankBound(slots, hits, k);
        flag := shieldHitsByReq[missIndices[k]];
      }
      flags := flags + [flag];
    }
  }

  /** Responses travel back through a running cursor, which agrees with missIndices. */
  method Reassemble(slots: seq<SegmentRequest>, hits: seq<bool>, missResponses: seq<SegmentResponse>)
    returns (batchResps: seq<SegmentResponse>)
    requires |hits| == |slots| && |missResponses| == |Missed(slots, hits)|
    ensures batchResps == Reassembled(slots, hits, missResponses)
  {
    batchResps := [];
    var missCursor := 0;
    for k := 0 to |slots|
      invariant |batchResps| == k && missCursor == MissRank(hits, k)
      invariant forall m :: 0 <= m < k ==> batchResps[m] == SlotResponse(slots, hits, missResponses, m)
    {
      MissRankStep(hits, k);
      if hits[k] {
        batchResps := batchResps + [LocalHit(slots[k])];
      } else {
        MissRankBound(slots, hits, k);
        batchResps := batchResps + [missResponses[missCursor]];
        missCursor := missCursor + 1;
      }
    }
  }

  // ----- the shield -----

  function WithHits(hits: seq<bool>, r: ShieldOutcome): ShieldOutcome {
    r.(hits := hits + r.hits)
  }

  lemma {:induction false} ShieldStep(e: Env, c: Option<CacheState>, n: nat, hits: seq<bool>, reqs: seq<SegmentRequest>, k: nat, now: int)
    requires k < |reqs|
    ensures var f := ShieldFetch(c, e.shieldTTL, reqs[k], now, e.origin(n, reqs[k]));
            var asked := n + (if f.1 then 1 else 0);
            WithHits(hits, ShieldAll(e, c, n, reqs[k..], now))
            == if f.2.Err? then ShieldOutcome(f.0, asked, hits, Some(f.2.error))
               else WithHits(hits + [f.2.value], ShieldAll(e, f.0, asked, reqs[k + 1..], now))
  {
    hide ShieldFetch;
    assert reqs[k..][1..] == reqs[k + 1..];
    var f := ShieldFetch(c, e.shieldTTL, reqs[k], now, e.origin(n, reqs[k]));
    if f.2.Err? {
      assert hits + [] == hits;
    } else {
      var rest := ShieldAll(e, f.0, n + (if f.1 then 1 else 0), reqs[k + 1..], now);
      assert hits + ([f.2.value] + rest.hits) == hits + [f.2.value] + rest.hits;
    }
  }

  lemma {:induction false} ShieldEnds(e: Env, c: Option<CacheState>, n: nat, hits: seq<bool>, reqs: seq<SegmentRequest>, now: int)
    ensures WithHits(hits, ShieldAll(e, c, n, reqs[|reqs|..], now)) == ShieldOutcome(c, n, hits, None)
    ensures WithHits([], ShieldAll(e, c, n, reqs[0..], now)) == ShieldAll(e, c, n, reqs, now)
  {
    assert hits + [] == hits && reqs[0..] == reqs;
    var whole := ShieldAll(e, c, n, reqs, now);
    assert [] + whole.hits == whole.hits;
  }

  /** One call of the shield's Fetch is one step of ShieldAll. */
  method FetchOne(e: Env, shield: OriginShield, calls: nat, req: SegmentRequest, now: int)
    returns (asked: nat, outcome: Result<bool, string>)
    requires shield.defaultTTLSeconds == e.shieldTTL
    modifies shield
    ensures var f := ShieldFetch(old(shield.cache), e.shieldTTL, req, now, e.origin(calls, req));
            (shield.cache, outcome) == (f.0, f.2) && asked == if f.1 then 1 else 0
  {
    hide Access;
    var r := shield.Fetch(req, Some(now), 0, e.origin(calls, req));
    if r.Err? {
      return 1, Err(r.error);
    }
    return if r.value.1 then 0 else 1, Ok(r.value.1);
  }

  /** Every miss asks the shield, until one fails. */
  method FetchThroughShield(e: Env, shield: OriginShield, calls: nat, reqs: seq<SegmentRequest>, now: int)
    returns (r: ShieldOutcome)
    requires shield.defaultTTLSeconds == e.shieldTTL
    modifies shield
    ensures r == ShieldAll(e, old(shield.cache), calls, reqs, now) && shield.cache == r.cache
  {
    hide ShieldAll;
    hide ShieldFetch;
    hide WithHits;
    var n, hits := calls, [];
    ghost var whole := ShieldAll(e, shield.cache, calls, reqs, now);
    ShieldEnds(e, shield.cache, calls, [], reqs, now);
    for k := 0 to |reqs|
      invariant WithHits(hits, ShieldAll(e, shield.cache, n, reqs[k..], now)) == whole
    {
      ShieldStep(e, shield.cache, n, hits, reqs, k, now);
      var asked, outcome := FetchOne(e, shield, n, reqs[k], now);
      n := n + asked;
      if outcome.Err? {
        return ShieldOutcome(shield.cache, n, hits, Some(outcome.error));
      }
      hits := hits + [outcome.value];
    }
    ShieldEnds(e, shield.cache, n, hits, reqs, now);
    return ShieldOutcome(shield.cache, n, hits, None);
  }

  // ----- the rest of a batch -----

  method InsertFetched(cache: Option<CacheState>, reqs: seq<SegmentRequest>, now: int) returns (after: Option<CacheState>)
    ensures after == InsertAll(cache, reqs, now)
  {
    after := cache;
    if cache.None? {
      return;
    }
    for k := 0 to |reqs|
      invariant after.Some? && InsertAll(after, reqs[k..], now) == InsertAll(cache, reqs, now)
    {
      assert reqs[k..][1..] == reqs[k + 1..];
      after := Some(CachePut(after.value, Item(reqs[k].segmentID, reqs[k].sizeBytes, At(now + EDGE_TTL), 0)));
    }
  }

  method MaxLatencyOf(rs: seq<SegmentResponse>) returns (maxLatency: nat)
    ensures maxLatency == MaxLatency(rs)
  {
    maxLatency := 0;
    for k := 0 to |rs|
      invariant Max(maxLatency, MaxLatency(rs[k..])) == MaxLatency(rs)
    {
      assert rs[k..][1..] == rs[k + 1..];
      if rs[k].totalLatency > maxLatency {
        maxLatency := rs[k].totalLatency;
      }
    }
  }

  /** missBytes and cacheHits of a batch. */
  method CountBatch(slots: seq<SegmentRequest>, hits: seq<bool>) returns (missBytes: nat, hitCount: nat)
    requires |hits| == |slots|
    ensures missBytes == TotalBytes(Missed(slots, hits)) && hitCount == Hits(hits)
  {
    missBytes, hitCount := 0, 0;
    for k := 0 to |slots|
      invariant missBytes + TotalBytes(Missed(slots[k..], hits[k..])) == TotalBytes(Missed(slots, hits))
      invariant hitCount + Hits(hits[k..]) == Hits(hits)
    {
      assert slots[k..][1..] == slots[k + 1..] && hits[k..][1..] == hits[k + 1..];
      if hits[k] {
        hitCount := hitCount + 1;
        assert [] + Missed(slots[k + 1..], hits[k + 1..]) == Missed(slots[k + 1..], hits[k + 1..]);
      } else {
        assert ([slots[k]] + Missed(slots[k + 1..], hits[k + 1..]))[1..] == Missed(slots[k + 1..], hits[k + 1..]);
        missBytes := missBytes + slots[k].sizeBytes;
      }
    }
  }

  /** Buffer, stalls and wall clock of one batch. */
  method Account(cfg: Config, segmentDuration: nat, c: Clock, batchSize: nat, fetchTime: nat)
    returns (clock: Clock, rebuffered: bool, discarded: nat)
    ensures (clock, discarded) == Advance(cfg, segmentDuration, c, batchSize, fetchTime)
    ensures rebuffered == (clock.rebufferCount > c.rebufferCount)
  {
    var wallClock, buffer, playbackStarted := c.wall + fetchTime, c.buffer, c.started;
    var startup, rebufferCount, rebufferDuration := c.startup, c.rebufferCount, c.rebufferDuration;
    rebuffered, discarded := false, 0;
    if playbackStarted {
      if fetchTime >= buffer {
        var stall := fetchTime - buffer;
        buffer := 0;
        rebufferDuration := rebufferDuration + stall;
        rebufferCount := rebufferCount + 1;
        wallClock := wallClock + stall;
        rebuffered := true;
      } else {
        buffer := buffer - fetchTime;
      }
    }
    buffer := buffer + batchSize * segmentDuration;
    if buffer > cfg.maxBuffer {
      var excess := buffer - cfg.maxBuffer;
      buffer := cfg.maxBuffer;
      wallClock := wallClock + excess;
      discarded := excess;
    }
    if !playbackStarted && buffer >= cfg.startupThreshold {
      playbackStarted := true;
      startup := wallClock;
    }
    clock := Clock(wallClock, buffer, playbackStarted, startup, rebufferCount, rebufferDuration);
  }

  /** The shield object holds what the session machine says it holds. */
  ghost predicate ShieldAgrees(e: Env, shield: OriginShield?, s: Session)
    reads shield
  {
    if shield == null then s.shield.None? else s.shield == Some(shield.cache) && shield.defaultTTLSeconds == e.shieldTTL
  }

  /** Reassembly, accounting and results, once everything a batch needs has been fetched and inserted. */
  method FinishBatch(e: Env, s: Session, rep: Representation, slots: seq<SegmentRequest>, hits: seq<bool>,
                     missIndices: seq<nat>, ghost looked: Option<CacheState>, cache: Option<CacheState>,
                     outcome: Option<ShieldOutcome>, missResponses: seq<SegmentResponse>)
    returns (next: Session)
    requires |hits| == |slots| && Indexed(missIndices, hits)
    requires |missResponses| == |Missed(slots, hits)| && cache == InsertAll(looked, Missed(slots, hits), s.clock.wall)
    requires outcome.Some? ==> |outcome.value.hits| == |Missed(slots, hits)|
    ensures next == Complete(e, s, rep, slots, hits, looked, outcome, missResponses)
  {
    hide Missed;
    hide InsertAll;
    hide Advance;
    hide SampleOf;
    hide Remember;
    hide MaxLatency;
    hide Hits;
    hide SlotResponse;
    hide SlotShieldHit;
    hide Indexed;
    var shieldHitsByReq := if outcome.Some? then outcome.value.hits else seq(|missResponses|, _ => false);
    var batchShieldHits := PropagateShieldHits(slots, hits, missIndices, shieldHitsByReq);
    var batchResps := Reassemble(slots, hits, missResponses);
    var fetchTime := MaxLatencyOf(batchResps);
    var clock, rebuffered, excess := Account(e.config, e.manifest.segmentDuration, s.clock, |slots|, fetchTime);
    var changes := s.bitrateChanges;
    if s.currentBitrate != 0 && s.currentBitrate != rep.bitrateKbps {
      changes := changes + 1;
    }
    var missBytes, hitCount := CountBatch(slots, hits);
    var sample := SampleOf(missBytes, fetchTime);
    var results := seq(|slots|, k requires 0 <= k < |slots| =>
      SegmentResult(s.i + k, rep.bitrateKbps, slots[k].sizeBytes, batchResps[k].ttfb, batchResps[k].totalLatency,
                    batchResps[k].goodputMbps, hits[k], batchShieldHits[k], batchResps[k].holBlockEvents > 0,
                    s.clock.buffer, clock.buffer, rebuffered));
    assert results == Results(e, s, rep, slots, hits, shieldHitsByReq, missResponses, clock.buffer, rebuffered);
    var record := BatchRecord(s.i, |slots|, s.clock.buffer, s.clock.started, rep.bitrateKbps, fetchTime, excess, sample);
    next := Session(s.i + |slots|, clock, cache, if outcome.Some? then Some(outcome.value.cache) else s.shield,
                    if outcome.Some? then outcome.value.calls else s.originCalls,
                    if missResponses == [] then s.fetchCalls else s.fetchCalls + 1,
                    Remember(s.history, sample), rep.bitrateKbps, changes, s.cacheHits + hitCount, s.segments + results,
                    s.log + [record], s.asked + slots);
  }

  /** One iteration of the session loop. */
  method RunBatch(e: Env, shield: OriginShield?, s: Session) returns (r: Result<Session, Failure>)
    requires ValidEnv(e) && s.i < e.manifest.totalSegments && ShieldAgrees(e, shield, s)
    modifies shield
    ensures r == BatchStep(e, s)
    ensures ShieldAgrees(e, shield, if r.Ok? then r.value else r.error.session)
  {
    hide Lookup;
    hide ShieldAll;
    hide Missed;
    hide InsertAll;
    hide Advance;
    hide SampleOf;
    hide Remember;
    hide Reassembled;
    hide Results;
    hide MaxLatency;
    hide Hits;
    hide Indexed;
    hide Scan;
    var rep := RepresentationForBitrate(e.manifest, e.select(StateOf(e, s)));
    var batchSize := e.config.prefetchDepth;
    if s.i + batchSize > e.manifest.totalSegments {
      batchSize := e.manifest.totalSegments - s.i;
    }
    var now := s.clock.wall;
    var slots := Slots(e, rep, s.i, batchSize);
    var hits, missIndices, reqs, looked := LookupSlots(s.cache, slots, now);
    var outcome := if shield == null then None else Some(ShieldOutcome(shield.cache, s.originCalls, [], None));
    var missResponses, cache := [], looked;
    if |reqs| > 0 {
      if shield != null {
        var f := FetchThroughShield(e, shield, s.originCalls, reqs, now);
        outcome := Some(f);
        if f.failed.Some? {
          return Err(Failure("shield fetch: " + f.failed.value, Stopped(s, looked, outcome, s.fetchCalls)));
        }
      }
      var resps := e.respond(s.fetchCalls, reqs);
      if resps.Err? {
        return Err(Failure(BatchError(shield != null, resps.error), Stopped(s, looked, outcome, s.fetchCalls + 1)));
      }
      missResponses := resps.value;
      cache := InsertFetched(cache, reqs, now);
    } else {
      EmptyShield(e, s, now);
      InsertNone(cache, now);
    }
    var next := FinishBatch(e, s, rep, slots, hits, missIndices, looked, cache, outcome, missResponses);
    return Ok(next);
  }

  lemma EmptyShield(e: Env, s: Session, now: int)
    ensures s.shield.Some? ==>
              ShieldAll(e, s.shield.value, s.originCalls, [], now) == ShieldOutcome(s.shield.value, s.originCalls, [], None)
  {
  }

  lemma InsertNone(c: Option<CacheState>, now: int)
    ensures InsertAll(c, [], now) == c
  {
  }

  lemma {:induction false} RunUnfolds(e: Env, s: Session)
    requires ValidEnv(e)
    ensures s.i >= e.manifest.totalSegments ==> SessionRun(e, s) == Ok(s)
    ensures s.i < e.manifest.totalSegments ==>
              && SessionRun(e, s) == (if BatchStep(e, s).Err? then BatchStep(e, s) else SessionRun(e, BatchStep(e, s).value))
              && (BatchStep(e, s).Ok? ==> BatchStep(e, s).value.i > s.i)
  {
    hide BatchStep;
    if s.i < e.manifest.totalSegments {
      StepAdvances(e, s);
    }
  }

  /** A single viewer. The transport, the origin and the selection rule are functions; handshake is the transport's answer. */
  class PlaybackSession {
    const manifest: Manifest
    const contentID: string
    const select: PlayerState -> nat
    const handshake: Result<nat, string>
    const respond: (nat, seq<SegmentRequest>) -> Result<seq<SegmentResponse>, string>
    const origin: (nat, SegmentRequest) -> Result<SegmentResponse, string>
    const shield: OriginShield?
    var config: Config
    var cache: Option<CacheState>

    /** The environment a run starts in, with the configuration's defaults filled in. */
    function Environment(): Env
      reads this
    {
      Env(manifest, contentID, Normalized(config), select, respond, origin, if shield == null then 0 else shield.defaultTTLSeconds)
    }

    function ShieldCache(): Option<Option<CacheState>>
      reads this, shield
    {
      if shield == null then None else Some(shield.cache)
    }

    constructor (manifest: Manifest, contentID: string, select: PlayerState -> nat, handshake: Result<nat, string>,
                 respond: (nat, seq<SegmentRequest>) -> Result<seq<SegmentResponse>, string>,
                 origin: (nat, SegmentRequest) -> Result<SegmentResponse, string>, shield: OriginShield?, config: Config,
                 cache: Option<CacheState>)
      ensures this.manifest == manifest && this.contentID == contentID && this.select == select && this.handshake == handshake
      ensures this.respond == respond && this.origin == origin && this.shield == shield && this.config == config && this.cache == cache
    {
      this.manifest, this.contentID, this.select, this.handshake := manifest, contentID, select, handshake;
      this.respond, this.origin, this.shield, this.config, this.cache := respond, origin, shield, config, cache;
    }

    method RunPlayback() returns (result: PlaybackResult, error: Option<string>)
      requires ValidEnv(Environment())
      modifies this, shield
      ensures config == Normalized(old(config))
      ensures var c := old(config);
              config == if c.maxBuffer == 0 && c.startupThreshold == 0 then Config(30_000_000_000, 2_000_000_000, 1)
                        else if c.prefetchDepth < 1 then Config(c.maxBuffer, c.startupThreshold, 1) else c
      ensures handshake.Err? ==>
                && result == PlaybackResult(0, 0, 0, 0, 0, [], 0.0, 0.0) && error == Some("handshake: " + handshake.error)
                && cache == old(cache) && ShieldCache() == old(ShieldCache())
      ensures handshake.Ok? ==>
                match SessionRun(old(Environment()), Begin(handshake.value, old(cache), old(ShieldCache())))
                case Err(f) =>
                  && result == PartialOf(f.session) && error == Some(f.error)
                  && cache == f.session.cache && ShieldCache() == f.session.shield
                case Ok(s) => result == ResultOf(s) && error == None && cache == s.cache && ShieldCache() == s.shield
    {
      hide SessionRun;
      hide BatchStep;
      hide ValidEnv;
      if config.maxBuffer == 0 && config.startupThreshold == 0 {
        config := Config(30 * SECOND, 2 * SECOND, 1);
      }
      if config.prefetchDepth <= 0 {
        config := config.(prefetchDepth := 1);
      }
      if handshake.Err? {
        return PlaybackResult(0, 0, 0, 0, 0, [], 0.0, 0.0), Some("handshake: " + handshake.error);
      }
      var e := Environment();
      assert e == old(Environment());
      var s := Begin(handshake.value, cache, ShieldCache());
      ghost var run := SessionRun(e, s);
      while s.i < manifest.totalSegments
        invariant e == old(Environment()) && config == Normalized(old(config))
        invariant s.cache == cache && s.shield == ShieldCache() && SessionRun(e, s) == run
        decreases manifest.totalSegments - s.i
      {
        RunUnfolds(e, s);
        var next := RunBatch(e, shield, s);
        s := if next.Ok? then next.value else next.error.session;
        cache := s.cache;
        if next.Err? {
          return PartialOf(s), Some(next.error.error);
        }
      }
      RunUnfolds(e, s);
      var total := Total(s);
      return total, None;
    }

    /** The totals and averages of a run that went through. */
    static method Total(s: Session) returns (result: PlaybackResult)
      ensures result == ResultOf(s)
    {
      result := PartialOf(s);
      if !s.clock.started && result.startupLatency == 0 {
        result := result.(startupLatency := s.clock.wall);
      }
      result := result.(totalPlayTime := s.clock.wall);
      if |s.segments| > 0 {
        var sumBitrate := 0;
        for k := 0 to |s.segments|
          invariant sumBitrate + SumBitrates(s.segments[k..]) == SumBitrates(s.segments)
        {
          assert s.segments[k..][1..] == s.segments[k + 1..];
          sumBitrate := sumBitrate + s.segments[k].bitrateKbps;
        }
        result := result.(avgBitrateKbps := sumBitrate as real / |s.segments| as real,
                          cacheHitRate := s.cacheHits as real / |s.segments| as real);
      }
    }
  }
}
