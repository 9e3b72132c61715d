/**
 A playback session (internal/video/player.go). One batch is one step of a state
 machine; `log` is a history variable that records what each batch did, and `asked` one
 that records what was looked up for each segment. The transport, the origin and the
 selection rule are interfaces in the source and functions here.
 */
module PlaybackModel {
  import opened Wrappers
  import opened CacheItems
  import opened CacheContract
  import opened OriginShields
  import opened TransportTypes
  import opened TransportModel
  import opened Ladder
  import opened BufferBased
  import SegmentNames

  const MILLISECOND: nat := 1_000_000
  const EDGE_TTL: int := 3600 * SECOND
  const HISTORY: nat := 20

  datatype Config = Config(maxBuffer: nat, startupThreshold: nat, prefetchDepth: int)

  /** The defaults that RunPlayback fills in. */
  function Normalized(c: Config): (r: Config)
    ensures r.prefetchDepth >= 1
  {
    var d := if c.maxBuffer == 0 && c.startupThreshold == 0 then Config(30 * SECOND, 2 * SECOND, 1) else c;
    if d.prefetchDepth <= 0 then d.(prefetchDepth := 1) else d
  }

  /** respond and origin get the number of the call, so that their answers may change over time. */
  datatype Env = Env(manifest: Manifest, contentID: string, config: Config, select: PlayerState -> nat,
                     respond: (nat, seq<SegmentRequest>) -> Result<seq<SegmentResponse>, string>,
                     origin: (nat, SegmentRequest) -> Result<SegmentResponse, string>, shieldTTL: int)

  /** Whatever can be selected has a size for every segment, and the transport answers every request. */
  ghost predicate ValidEnv(e: Env) {
    && e.config.prefetchDepth >= 1
    && (e.manifest.totalSegments > 0 ==>
          && e.manifest.representations != []
          && forall st :: |RepresentationFor(e.manifest, e.select(st)).segmentSizes| >= e.manifest.totalSegments)
    && (forall n, reqs :: e.respond(n, reqs).Ok? ==> |e.respond(n, reqs).value| == |reqs|)
  }

  datatype Clock = Clock(wall: nat, buffer: nat, started: bool, startup: nat, rebufferCount: nat, rebufferDuration: nat)

  datatype SegmentResult = SegmentResult(index: nat, bitrateKbps: nat, sizeBytes: nat, ttfb: nat, totalLatency: int, goodputMbps: real,
                                         cacheHit: bool, shieldHit: bool, holBlocked: bool,
                                         bufferBefore: nat, bufferAfter: nat, rebuffered: bool)

  datatype BatchRecord = BatchRecord(first: nat, size: nat, bufferBefore: nat, wasStarted: bool, bitrate: nat,
                                     fetchTime: nat, excess: nat, sample: Option<Sample>)

  /** shield is None when the session has no shield; the shield itself may lack a cache. */
  datatype Session = Session(i: nat, clock: Clock, cache: Option<CacheState>, shield: Option<Option<CacheState>>,
                             originCalls: nat, fetchCalls: nat, history: seq<Sample>, currentBitrate: nat,
                             bitrateChanges: nat, cacheHits: nat, segments: seq<SegmentResult>, log: seq<BatchRecord>,
                             asked: seq<SegmentRequest>)

  // ----- cache lookups -----

  function Slots(e: Env, rep: Representation, first: nat, size: nat): (r: seq<SegmentRequest>)
    requires first + size <= |rep.segmentSizes|
    ensures |r| == size
  {
    seq(size, k requires 0 <= k < size =>
      SegmentRequest(SegmentNames.SegmentID(e.contentID, first + k, rep.bitrateKbps), rep.bitrateKbps, rep.segmentSizes[first + k]))
  }

  /** Which slots hit, and the cache after all lookups. */
  function Lookup(c: Option<CacheState>, slots: seq<SegmentRequest>, now: int): (r: (seq<bool>, Option<CacheState>))
    ensures |r.0| == |slots|
    decreases |slots|
  {
    if slots == [] then ([], c)
    else if c.None? then
      var rest := Lookup(c, slots[1..], now);
      ([false] + rest.0, rest.1)
    else
      var g := CacheGet(c.value, slots[0].segmentID, now);
      var rest := Lookup(Some(g.0), slots[1..], now);
      ([g.1.Some?] + rest.0, rest.1)
  }

  /** The requests of the slots that missed, in order. */
  function Missed(slots: seq<SegmentRequest>, hits: seq<bool>): seq<SegmentRequest>
    requires |hits| == |slots|
  {
    if slots == [] then [] else (if hits[0] then [] else [slots[0]]) + Missed(slots[1..], hits[1..])
  }

  /** How many of the first k slots missed. */
  function MissRank(hits: seq<bool>, k: nat): nat
    requires k <= |hits|
  {
    if k == 0 then 0 else (if hits[0] then 0 else 1) + MissRank(hits[1..], k - 1)
  }

  function InsertAll(c: Option<CacheState>, reqs: seq<SegmentRequest>, now: int): (r: Option<CacheState>)
    ensures r.Some? <==> c.Some?
    decreases |reqs|
  {
    if reqs == [] || c.None? then c
    else InsertAll(Some(CachePut(c.value, Item(reqs[0].segmentID, reqs[0].sizeBytes, At(now + EDGE_TTL), 0))), reqs[1..], now)
  }

  // ----- the shield -----

  /** One OriginShield.Fetch: the shield's cache afterwards, whether it asked the origin, and whether it hit. */
  function ShieldFetch(c: Option<CacheState>, ttl: int, req: SegmentRequest, now: int, answer: Result<SegmentResponse, string>)
    : (Option<CacheState>, bool, Result<bool, string>)
  {
    if c.None? then (None, true, if answer.Ok? then Ok(false) else Err(OriginError(answer.error)))
    else
      var a := Access(c.value, req.segmentID, req.sizeBytes, ttl, now);
      if a.1 then (Some(a.0), false, Ok(true))
      else if answer.Ok? then (Some(a.0), true, Ok(false))
      else (Some(CacheGet(c.value, req.segmentID, now).0), true, Err(OriginError(answer.error)))
  }

  /** The shield's cache and calls after a batch, the hits, and the error that ended the batch, if any. */
  datatype ShieldOutcome = ShieldOutcome(cache: Option<CacheState>, calls: nat, hits: seq<bool>, failed: Option<string>)

  function ShieldAll(e: Env, c: Option<CacheState>, calls: nat, reqs: seq<SegmentRequest>, now: int): (r: ShieldOutcome)
    ensures r.failed.None? ==> |r.hits| == |reqs|
    decreases |reqs|
  {
    if reqs == [] then ShieldOutcome(c, calls, [], None)
    else
      var f := ShieldFetch(c, e.shieldTTL, reqs[0], now, e.origin(calls, reqs[0]));
      var asked := calls + (if f.1 then 1 else 0);
      if f.2.Err? then ShieldOutcome(f.0, asked, [], Some(f.2.error))
      else
        var rest := ShieldAll(e, f.0, asked, reqs[1..], now);
        rest.(hits := [f.2.value] + rest.hits)
  }

  // ----- reassembly -----

  function LocalHit(slot: SegmentRequest): SegmentResponse {
    SegmentResponse(slot.segmentID, slot.sizeBytes, MILLISECOND, MILLISECOND, 0, 0, Goodput(slot.sizeBytes, MILLISECOND))
  }

  lemma {:induction false} MissRankBound(slots: seq<SegmentRequest>, hits: seq<bool>, k: nat)
    requires |hits| == |slots| && k < |slots| && !hits[k]
    ensures MissRank(hits, k) < |Missed(slots, hits)| && Missed(slots, hits)[MissRank(hits, k)] == slots[k]
  {
    if k > 0 {
      MissRankBound(slots[1..], hits[1..], k - 1);
    }
  }

  /** The response of slot k: the local one for a hit, the response to its own request for a miss. */
  function SlotResponse(slots: seq<SegmentRequest>, hits: seq<bool>, responses: seq<SegmentResponse>, k: nat): SegmentResponse
    requires |hits| == |slots| && |responses| == |Missed(slots, hits)| && k < |slots|
  {
    if hits[k] then LocalHit(slots[k])
    else
      MissRankBound(slots, hits, k);
      responses[MissRank(hits, k)]
  }

  function Reassembled(slots: seq<SegmentRequest>, hits: seq<bool>, responses: seq<SegmentResponse>): (r: seq<SegmentResponse>)
    requires |hits| == |slots| && |responses| == |Missed(slots, hits)|
    ensures |r| == |slots|
  {
    seq(|slots|, k requires 0 <= k < |slots| => SlotResponse(slots, hits, responses, k))
  }

  function SlotShieldHit(slots: seq<SegmentRequest>, hits: seq<bool>, shieldHits: seq<bool>, k: nat): bool
    requires |hits| == |slots| && |shieldHits| == |Missed(slots, hits)| && k < |slots|
  {
    if hits[k] then false
    else
      MissRankBound(slots, hits, k);
      shieldHits[MissRank(hits, k)]
  }

  // ----- clock and buffer -----

  /** Clock after a batch, and the excess that did not fit the buffer. */
  function Advance(cfg: Config, segmentDuration: nat, c: Clock, size: nat, fetchTime: nat): (Clock, nat) {
    var stalled := c.started && fetchTime >= c.buffer;
    var stall := if stalled then fetchTime - c.buffer else 0;
    var drained := if !c.started then c.buffer else if stalled then 0 else c.buffer - fetchTime;
    var filled := drained + size * segmentDuration;
    var excess := if filled > cfg.maxBuffer then filled - cfg.maxBuffer else 0;
    var wall := c.wall + fetchTime + stall + excess;
    var buffer := filled - excess;
    var starts := !c.started && buffer >= cfg.startupThreshold;
    (Clock(wall, buffer, c.started || starts, if starts then wall else c.startup,
           c.rebufferCount + (if stalled then 1 else 0), c.rebufferDuration + stall), excess)
  }

  // ----- throughput samples -----

  function SampleOf(bytes: nat, fetchTime: nat): Option<Sample> {
    if fetchTime > 0 && bytes > 0 then
      Some(Sample((bytes * 8) as real / (fetchTime as real / 1_000_000_000.0) / 1000.0, fetchTime))
    else None
  }

  function LastTwenty(h: seq<Sample>): seq<Sample> {
    if |h| > HISTORY then h[|h| - HISTORY..] else h
  }

  function Remember(h: seq<Sample>, s: Option<Sample>): seq<Sample> {
    if s.Some? then LastTwenty(h + [s.value]) else h
  }

  // ----- one batch -----

  function StateOf(e: Env, s: Session): PlayerState {
    PlayerState(s.clock.buffer, e.config.maxBuffer, s.history, s.currentBitrate, s.i, s.clock.started, s.clock.rebufferCount)
  }

  function Plan(e: Env, s: Session): Representation
    requires e.manifest.representations != []
  {
    RepresentationFor(e.manifest, e.select(StateOf(e, s)))
  }

  function BatchSize(e: Env, s: Session): nat
    requires e.config.prefetchDepth >= 1 && s.i < e.manifest.totalSegments
  {
    Min(e.config.prefetchDepth, e.manifest.totalSegments - s.i)
  }

  function Results(e: Env, s: Session, rep: Representation, slots: seq<SegmentRequest>, hits: seq<bool>, shieldHits: seq<bool>,
                   responses: seq<SegmentResponse>, bufferAfter: nat, rebuffered: bool): (r: seq<SegmentResult>)
    requires |hits| == |slots| && |responses| == |shieldHits| == |Missed(slots, hits)|
    ensures |r| == |slots|
  {
    seq(|slots|, k requires 0 <= k < |slots| =>
      var resp := SlotResponse(slots, hits, responses, k);
      SegmentResult(s.i + k, rep.bitrateKbps, slots[k].sizeBytes, resp.ttfb, resp.totalLatency, resp.goodputMbps, hits[k],
                    SlotShieldHit(slots, hits, shieldHits, k), resp.holBlockEvents > 0, s.clock.buffer, bufferAfter, rebuffered))
  }

  function Hits(hits: seq<bool>): nat {
    if hits == [] then 0 else (if hits[0] then 1 else 0) + Hits(hits[1..])
  }

  /** The session after a batch whose lookups, shield fetches and transport fetches all succeeded. */
  function Complete(e: Env, s: Session, rep: Representation, slots: seq<SegmentRequest>, hits: seq<bool>,
                    cache: Option<CacheState>, shield: Option<ShieldOutcome>, responses: seq<SegmentResponse>): Session
    requires |hits| == |slots| && |responses| == |Missed(slots, hits)|
    requires shield.Some? ==> |shield.value.hits| == |Missed(slots, hits)|
  {
    var reqs := Missed(slots, hits);
    var fetchTime := MaxLatency(Reassembled(slots, hits, responses));
    var (clock, excess) := Advance(e.config, e.manifest.segmentDuration, s.clock, |slots|, fetchTime);
    var sample := SampleOf(TotalBytes(reqs), fetchTime);
    var shieldHits := if shield.Some? then shield.value.hits else seq(|reqs|, _ => false);
    Session(s.i + |slots|, clock, InsertAll(cache, reqs, s.clock.wall),
            if shield.Some? then Some(shield.value.cache) else s.shield,
            if shield.Some? then shield.value.calls else s.originCalls,
            s.fetchCalls + (if reqs == [] then 0 else 1),
            Remember(s.history, sample), rep.bitrateKbps,
            s.bitrateChanges + (if s.currentBitrate != 0 && s.currentBitrate != rep.bitrateKbps then 1 else 0),
            s.cacheHits + Hits(hits),
            s.segments + Results(e, s, rep, slots, hits, shieldHits, responses, clock.buffer,
                                 clock.rebufferCount > s.clock.rebufferCount),
            s.log + [BatchRecord(s.i, |slots|, s.clock.buffer, s.clock.started, rep.bitrateKbps, fetchTime, excess, sample)],
            s.asked + slots)
  }

  /** An error, and the session as the failing batch leaves it. */
  datatype Failure = Failure(error: string, session: Session)

  /** The failing batch has looked its slots up, and its shield has served some of the requests. */
  function Stopped(s: Session, cache: Option<CacheState>, shield: Option<ShieldOutcome>, fetchCalls: nat): Session {
    s.(cache := cache, fetchCalls := fetchCalls,
       shield := if shield.Some? then Some(shield.value.cache) else s.shield,
       originCalls := if shield.Some? then shield.value.calls else s.originCalls)
  }

  function BatchError(shielded: bool, error: string): string {
    (if shielded then "edge batch: " else "transport batch: ") + error
  }

  ghost function BatchStep(e: Env, s: Session): Result<Session, Failure>
    requires ValidEnv(e) && s.i < e.manifest.totalSegments
  {
    var rep := Plan(e, s);
    var slots := Slots(e, rep, s.i, BatchSize(e, s));
    var look := Lookup(s.cache, slots, s.clock.wall);
    var reqs := Missed(slots, look.0);
    var shield := if s.shield.None? then None else Some(ShieldAll(e, s.shield.value, s.originCalls, reqs, s.clock.wall));
    if shield.Some? && shield.value.failed.Some? then
      Err(Failure("shield fetch: " + shield.value.failed.value, Stopped(s, look.1, shield, s.fetchCalls)))
    else
      var responses := if reqs == [] then Ok([]) else e.respond(s.fetchCalls, reqs);
      if responses.Err? then
        Err(Failure(BatchError(shield.Some?, responses.error), Stopped(s, look.1, shield, s.fetchCalls + 1)))
      else Ok(Complete(e, s, rep, slots, look.0, look.1, shield, responses.value))
  }

  ghost function SessionRun(e: Env, s: Session): Result<Session, Failure>
    requires ValidEnv(e)
    decreases e.manifest.totalSegments - s.i
  {
    if s.i >= e.manifest.totalSegments then Ok(s)
    else
      var next := BatchStep(e, s);
      if next.Err? then next else SessionRun(e, next.value)
  }

  function Begin(handshake: nat, cache: Option<CacheState>, shield: Option<Option<CacheState>>): Session {
    Session(0, Clock(handshake, 0, false, 0, 0, 0), cache, shield, 0, 0, [], 0, 0, 0, [], [], [])
  }
}
