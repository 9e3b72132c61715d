/**
 What the results of a session say (internal/video/player.go:221-303): each batch's results
 carry the batch's bitrate, buffer and stall, its fetch time is its slowest response, and its
 throughput sample counts the bytes that were really fetched.
 */
module BatchResults {
  import opened Wrappers
  import opened CacheContract
  import opened TransportTypes
  import opened TransportModel
  import opened Ladder
  import opened BufferBased
  import opened PlaybackModel
  import opened PlaybackTheorems
  import opened PlaybackRequests
  import opened Sums

  /** The bytes of a result that crossed the transport. */
  function FetchedOf(): SegmentResult -> int {
    (r: SegmentResult) => if r.cacheHit then 0 else r.sizeBytes
  }

  /** The results of one batch, given its record and the buffer it left. */
  ghost predicate Shows(r: BatchRecord, bufferAfter: nat, results: seq<SegmentResult>) {
    && |results| == r.size
    && (forall k :: 0 <= k < |results| ==> ResultShows(r, bufferAfter, results[k]))
    && (r.fetchTime > 0 ==> exists k :: 0 <= k < |results| && results[k].totalLatency == r.fetchTime)
    && SampleShows(r, Sum(results, FetchedOf()))
  }

  /** A hit takes a millisecond and touches neither shield nor transport. */
  ghost predicate ResultShows(r: BatchRecord, bufferAfter: nat, g: SegmentResult) {
    && g.bitrateKbps == r.bitrate && g.bufferBefore == r.bufferBefore && g.bufferAfter == bufferAfter
    && g.rebuffered == Stalled(r)
    && g.totalLatency <= r.fetchTime
    && (g.cacheHit ==>
          && g.ttfb == g.totalLatency == 1_000_000 && !g.shieldHit && !g.holBlocked
          && g.goodputMbps == g.sizeBytes as real * 0.008)
  }

  /** There is a sample exactly when bytes were fetched in some time, and it is their rate in kilobits per second. */
  ghost predicate SampleShows(r: BatchRecord, fetched: int) {
    && (r.sample.Some? <==> r.fetchTime > 0 && fetched > 0)
    && (r.sample.Some? ==>
          && r.sample.value.fetchTime == r.fetchTime
          && r.sample.value.kbps * r.fetchTime as real == 8_000_000.0 * fetched as real)
  }

  /** The batches tile the segments, all of them full except possibly the last of the session. */
  ghost predicate BatchAt(e: Env, s: Session, j: nat)
    requires j < |s.log|
  {
    var r := s.log[j];
    && r.first == (if j == 0 then 0 else s.log[j - 1].first + s.log[j - 1].size)
    && 1 <= r.size <= e.config.prefetchDepth
    && (r.size == e.config.prefetchDepth || r.first + r.size == e.manifest.totalSegments)
    && r.first + r.size <= |s.segments|
    && Shows(r, BufferAfter(s, j), s.segments[r.first..r.first + r.size])
  }

  ghost predicate AllShown(e: Env, s: Session) {
    && |s.segments| == s.i == (if s.log == [] then 0 else s.log[|s.log| - 1].first + s.log[|s.log| - 1].size)
    && forall j :: 0 <= j < |s.log| ==> BatchAt(e, s, j)
  }

  // ----- one batch -----

  lemma {:induction false} MaxLatencyAttained(rs: seq<SegmentResponse>)
    ensures forall k :: 0 <= k < |rs| ==> rs[k].totalLatency <= MaxLatency(rs)
    ensures MaxLatency(rs) > 0 ==> exists k :: 0 <= k < |rs| && rs[k].totalLatency == MaxLatency(rs)
  {
    if rs != [] {
      MaxLatencyAttained(rs[1..]);
      if MaxLatency(rs) > Max(rs[0].totalLatency, 0) {
        var k :| 0 <= k < |rs[1..]| && rs[1..][k].totalLatency == MaxLatency(rs[1..]);
        assert rs[k + 1].totalLatency == MaxLatency(rs);
      }
    }
  }

  lemma {:induction false} FetchedBytes(slots: seq<SegmentRequest>, hits: seq<bool>, results: seq<SegmentResult>)
    requires |hits| == |slots| == |results|
    requires forall k :: 0 <= k < |slots| ==> results[k].cacheHit == hits[k] && results[k].sizeBytes == slots[k].sizeBytes
    ensures Sum(results, FetchedOf()) == TotalBytes(Missed(slots, hits))
  {
    if slots != [] {
      FetchedBytes(slots[1..], hits[1..], results[1..]);
      var rest := Missed(slots[1..], hits[1..]);
      if hits[0] {
        assert [] + rest == rest;
      } else {
        assert ([slots[0]] + rest)[1..] == rest;
      }
    }
  }

  lemma {:induction false} SampleRate(bytes: nat, fetchTime: nat)
    requires fetchTime > 0 && bytes > 0
    ensures SampleOf(bytes, fetchTime).value.kbps * fetchTime as real == 8_000_000.0 * bytes as real
  {
    var t, bits := fetchTime as real, (bytes * 8) as real;
    var seconds := t / 1_000_000_000.0;
    Cancel(bits, seconds);
    var rate := bits / seconds;
    assert seconds * rate == bits && t == seconds * 1_000_000_000.0;
    assert rate / 1000.0 * t == (seconds * rate) * 1_000_000.0;
  }

  lemma {:induction false} HitGoodput(bytes: nat)
    ensures Goodput(bytes, MILLISECOND) == bytes as real * 0.008
  {
    assert (bytes * 8) as real == bytes as real * 8.0;
  }

  lemma {:induction false} CompleteShows(e: Env, s: Session, rep: Representation, slots: seq<SegmentRequest>, hits: seq<bool>,
                                         cache: Option<CacheState>, shield: Option<ShieldOutcome>, responses: seq<SegmentResponse>)
    requires |hits| == |slots| && |responses| == |Missed(slots, hits)|
    requires shield.Some? ==> |shield.value.hits| == |Missed(slots, hits)|
    ensures var next := Complete(e, s, rep, slots, hits, cache, shield, responses);
            && next.segments == s.segments + next.segments[|s.segments|..] && next.log == s.log + [next.log[|s.log|]]
            && next.log[|s.log|].first == s.i && next.log[|s.log|].size == |slots| && next.log[|s.log|].bufferBefore == s.clock.buffer
            && Shows(next.log[|s.log|], next.clock.buffer, next.segments[|s.segments|..])
  {
    hide Missed;
    hide MaxLatency;
    hide InsertAll;
    hide Remember;
    hide Hits;
    hide SlotResponse;
    hide SlotShieldHit;
    hide Sum;
    hide TotalBytes;
    hide SampleOf;
    hide Advance;
    hide Stalled;
    hide ResultShows;
    hide SampleShows;
    var next := Complete(e, s, rep, slots, hits, cache, shield, responses);
    var r, added := next.log[|s.log|], next.segments[|s.segments|..];
    var resps := Reassembled(slots, hits, responses);
    MaxLatencyAttained(resps);
    assert |added| == |slots|;
    assert forall k :: 0 <= k < |slots| ==> added[k].totalLatency == resps[k].totalLatency;
    if r.fetchTime > 0 {
      var k :| 0 <= k < |resps| && resps[k].totalLatency == MaxLatency(resps);
      assert added[k].totalLatency == r.fetchTime;
    }
    FetchedBytes(slots, hits, added);
    SampleIs(r, TotalBytes(Missed(slots, hits)));
    forall k | 0 <= k < |added| ensures ResultShows(r, next.clock.buffer, added[k]) {
      OneResult(e, s, rep, slots, hits, cache, shield, responses, k);
    }
  }

  lemma {:induction false} SampleIs(r: BatchRecord, bytes: nat)
    requires r.sample == SampleOf(bytes, r.fetchTime)
    ensures SampleShows(r, bytes)
  {
    if r.fetchTime > 0 && bytes > 0 {
      SampleRate(bytes, r.fetchTime);
    }
  }

  lemma {:induction false} OneResult(e: Env, s: Session, rep: Representation, slots: seq<SegmentRequest>, hits: seq<bool>,
                                     cache: Option<CacheState>, shield: Option<ShieldOutcome>, responses: seq<SegmentResponse>, k: nat)
    requires |hits| == |slots| && |responses| == |Missed(slots, hits)| && k < |slots|
    requires shield.Some? ==> |shield.value.hits| == |Missed(slots, hits)|
    ensures var next := Complete(e, s, rep, slots, hits, cache, shield, responses);
            ResultShows(next.log[|s.log|], next.clock.buffer, next.segments[|s.segments| + k])
  {
    hide Missed;
    hide MaxLatency;
    hide InsertAll;
    hide Remember;
    hide Hits;
    hide MissRank;
    hide TotalBytes;
    hide SampleOf;
    hide Goodput;
    var resps := Reassembled(slots, hits, responses);
    MaxLatencyAttained(resps);
    assert resps[k] == SlotResponse(slots, hits, responses, k);
    HitGoodput(slots[k].sizeBytes);
  }

  // ----- whole sessions -----

  lemma {:induction false} StepShows(e: Env, s: Session)
    requires ValidEnv(e) && s.i < e.manifest.totalSegments && AllShown(e, s)
    ensures BatchStep(e, s).Ok? ==> AllShown(e, BatchStep(e, s).value)
  {
    hide BatchStep;
    hide Lookup;
    hide Missed;
    hide ShieldAll;
    hide Plan;
    hide Slots;
    hide Shows;
    hide Results;
    hide Reassembled;
    hide Advance;
    hide SampleOf;
    hide InsertAll;
    if BatchStep(e, s).Ok? {
      var slots, hits, cache, shield, responses := StepCompletes(e, s);
      CompleteShows(e, s, Plan(e, s), slots, hits, cache, shield, responses);
      var next, n := BatchStep(e, s).value, |s.log|;
      forall j | 0 <= j < |next.log| ensures BatchAt(e, next, j) {
        if j < n {
          assert BatchAt(e, s, j);
          EarlierBatch(s, next, j);
        } else {
          var r := next.log[n];
          assert next.segments[r.first..r.first + r.size] == next.segments[|s.segments|..];
        }
      }
    }
  }

  lemma {:induction false} EarlierBatch(s: Session, next: Session, j: nat)
    requires j < |s.log| && |next.log| == |s.log| + 1 && s.log <= next.log && s.segments <= next.segments
    requires next.log[|s.log|].bufferBefore == s.clock.buffer
    ensures next.log[j] == s.log[j] && BufferAfter(next, j) == BufferAfter(s, j) && (j > 0 ==> next.log[j - 1] == s.log[j - 1])
    ensures forall a, b :: 0 <= a <= b <= |s.segments| ==> next.segments[a..b] == s.segments[a..b]
  {
    assert j + 1 < |s.log| ==> next.log[j + 1] == s.log[j + 1];
  }

  lemma {:induction false} RunShows(e: Env, s: Session)
    requires ValidEnv(e) && AllShown(e, s)
    ensures SessionRun(e, s).Ok? ==> AllShown(e, SessionRun(e, s).value)
    decreases e.manifest.totalSegments - s.i
  {
    hide AllShown;
    hide BatchStep;
    if s.i < e.manifest.totalSegments {
      StepShows(e, s);
      StepAdvances(e, s);
      if BatchStep(e, s).Ok? {
        RunShows(e, BatchStep(e, s).value);
      }
    }
  }

  /**
   A finished session: its batches tile the segments and are full except possibly the last one,
   and each of them shows what it did.
   */
  lemma {:induction false} EveryBatchShown(e: Env, handshake: nat, cache: Option<CacheState>, shield: Option<Option<CacheState>>)
    requires ValidEnv(e)
    ensures var run := SessionRun(e, Begin(handshake, cache, shield)); run.Ok? ==> AllShown(e, run.value)
  {
    hide SessionRun;
    hide BatchAt;
    RunShows(e, Begin(handshake, cache, shield));
  }

  // ----- whose response a result reports -----

  /** The i-th answer to call number n is the answer to req, and the result reports it. */
  ghost predicate AnsweredBy(e: Env, n: nat, reqs: seq<SegmentRequest>, i: nat, req: SegmentRequest, g: SegmentResult) {
    var r := e.respond(n, reqs);
    && r.Ok? && i < |reqs| == |r.value| && reqs[i] == req
    && g.ttfb == r.value[i].ttfb && g.totalLatency == r.value[i].totalLatency && g.goodputMbps == r.value[i].goodputMbps
    && (g.holBlocked <==> r.value[i].holBlockEvents > 0)
  }

  ghost predicate Answered(e: Env, req: SegmentRequest, g: SegmentResult) {
    g.cacheHit || exists n: nat, reqs, i: nat :: AnsweredBy(e, n, reqs, i, req, g)
  }

  ghost predicate AllAnswered(e: Env, s: Session) {
    |s.asked| == |s.segments| && forall j :: 0 <= j < |s.asked| ==> Answered(e, s.asked[j], s.segments[j])
  }

  lemma {:induction false} SlotAnswered(e: Env, s: Session, rep: Representation, slots: seq<SegmentRequest>, hits: seq<bool>,
                                        cache: Option<CacheState>, shield: Option<ShieldOutcome>, responses: seq<SegmentResponse>,
                                        k: nat)
    requires ValidEnv(e) && |hits| == |slots| && |responses| == |Missed(slots, hits)| && k < |slots|
    requires shield.Some? ==> |shield.value.hits| == |Missed(slots, hits)|
    requires Missed(slots, hits) != [] ==> e.respond(s.fetchCalls, Missed(slots, hits)) == Ok(responses)
    ensures var next := Complete(e, s, rep, slots, hits, cache, shield, responses);
            Answered(e, slots[k], next.segments[|s.segments| + k])
  {
    hide Missed;
    hide Reassembled;
    hide MaxLatency;
    hide Advance;
    hide SampleOf;
    hide Remember;
    hide InsertAll;
    hide Hits;
    hide MissRank;
    hide SlotShieldHit;
    var g := Complete(e, s, rep, slots, hits, cache, shield, responses).segments[|s.segments| + k];
    if !hits[k] {
      MissRankBound(slots, hits, k);
      assert AnsweredBy(e, s.fetchCalls, Missed(slots, hits), MissRank(hits, k), slots[k], g);
    }
  }

  lemma {:induction false} StepAnswered(e: Env, s: Session)
    requires ValidEnv(e) && s.i < e.manifest.totalSegments && AllAnswered(e, s)
    ensures AllAnswered(e, Last(BatchStep(e, s)))
  {
    hide BatchStep;
    hide Lookup;
    hide Missed;
    hide ShieldAll;
    hide Plan;
    hide Slots;
    hide SlotResponse;
    hide SlotShieldHit;
    hide Reassembled;
    hide Advance;
    hide SampleOf;
    hide InsertAll;
    hide Answered;
    if BatchStep(e, s).Err? {
      StepStops(e, s);
    } else {
      var slots, hits, cache, shield, responses := StepCompletes(e, s);
      var next := BatchStep(e, s).value;
      forall j | 0 <= j < |next.asked| ensures Answered(e, next.asked[j], next.segments[j]) {
        if j >= |s.asked| {
          SlotAnswered(e, s, Plan(e, s), slots, hits, cache, shield, responses, j - |s.asked|);
        }
      }
    }
  }

  lemma {:induction false} RunAnswered(e: Env, s: Session)
    requires ValidEnv(e) && AllAnswered(e, s)
    ensures AllAnswered(e, Last(SessionRun(e, s)))
    decreases e.manifest.totalSegments - s.i
  {
    hide AllAnswered;
    hide BatchStep;
    if s.i < e.manifest.totalSegments {
      StepAnswered(e, s);
      StepAdvances(e, s);
      if BatchStep(e, s).Ok? {
        RunAnswered(e, BatchStep(e, s).value);
      }
    }
  }

  /** Over every session, a result that is no hit reports the transport's answer to its own request. */
  lemma {:induction false} EveryMissAnswered(e: Env, handshake: nat, cache: Option<CacheState>, shield: Option<Option<CacheState>>, j: nat)
    requires ValidEnv(e)
    ensures var s := Last(SessionRun(e, Begin(handshake, cache, shield)));
            && |s.asked| == |s.segments|
            && (j < |s.segments| && !s.segments[j].cacheHit ==>
                  exists n: nat, reqs, i: nat :: AnsweredBy(e, n, reqs, i, s.asked[j], s.segments[j]))
  {
    hide SessionRun;
    RunAnswered(e, Begin(handshake, cache, shield));
    var s := Last(SessionRun(e, Begin(handshake, cache, shield)));
    if j < |s.segments| {
      assert Answered(e, s.asked[j], s.segments[j]);
    }
  }
}
