/** What every playback session keeps (internal/video/player.go:94-309). */
module PlaybackTheorems {
  import opened Wrappers
  import opened CacheContract
  import opened TransportTypes
  import opened LossModel
  import opened TransportModel
  import opened TransportTheorems
  import opened Ladder
  import opened BufferBased
  import opened Sums
  import opened PlaybackModel

  // ----- sums over the log -----

  function FetchOf(): BatchRecord -> int {
    (r: BatchRecord) => r.fetchTime
  }

  /** A batch stalls playback when fetching takes at least as long as the buffer lasts. */
  predicate Stalled(r: BatchRecord) {
    r.wasStarted && r.fetchTime >= r.bufferBefore
  }

  function StallOf(): BatchRecord -> int {
    (r: BatchRecord) => if Stalled(r) then r.fetchTime - r.bufferBefore else 0
  }

  function StalledOf(): BatchRecord -> int {
    (r: BatchRecord) => if Stalled(r) then 1 else 0
  }

  function ExcessOf(): BatchRecord -> int {
    (r: BatchRecord) => r.excess
  }

  /** Excess of the batches up to and including the one that starts playback. */
  function EarlyExcessOf(): BatchRecord -> int {
    (r: BatchRecord) => if r.wasStarted then 0 else r.excess
  }

  lemma {:induction false} SumSnoc(log: seq<BatchRecord>, r: BatchRecord, f: BatchRecord -> int)
    ensures Sum(log + [r], f) == Sum(log, f) + f(r)
  {
    SumAppend(log, [r], f);
    SumSingle(r, f);
  }

  // ----- time -----

  /**
   Every nanosecond of the wall clock is handshake, fetching, stalling or excess, and
   playback time is conserved. A stall is in the wall clock twice: the source adds it
   on top of the fetch time that already contains it.
   */
  ghost predicate TimeConserved(e: Env, handshake: nat, s: Session) {
    var c, d := s.clock, e.manifest.segmentDuration;
    && c.buffer <= e.config.maxBuffer
    && c.wall == handshake + Sum(s.log, FetchOf()) + c.rebufferDuration + Sum(s.log, ExcessOf())
    && c.rebufferDuration == Sum(s.log, StallOf())
    && c.rebufferCount == Sum(s.log, StalledOf())
    && (if c.started then
          c.wall - c.startup + c.buffer == s.i * d + 2 * c.rebufferDuration - Sum(s.log, EarlyExcessOf())
        else
          && c.rebufferDuration == 0 && c.startup == 0 && c.rebufferCount == 0
          && c.buffer == s.i * d - Sum(s.log, ExcessOf())
          && Sum(s.log, EarlyExcessOf()) == Sum(s.log, ExcessOf()))
  }

  lemma {:induction false} CompleteKeepsTime(e: Env, handshake: nat, s: Session, rep: Representation, slots: seq<SegmentRequest>,
                                             hits: seq<bool>, cache: Option<CacheState>, shield: Option<ShieldOutcome>,
                                             responses: seq<SegmentResponse>)
    requires |hits| == |slots| && |responses| == |Missed(slots, hits)|
    requires shield.Some? ==> |shield.value.hits| == |Missed(slots, hits)|
    requires TimeConserved(e, handshake, s)
    ensures TimeConserved(e, handshake, Complete(e, s, rep, slots, hits, cache, shield, responses))
  {
    hide Sum;
    hide Reassembled;
    hide Results;
    hide MaxLatency;
    hide Missed;
    hide InsertAll;
    hide Remember;
    hide SampleOf;
    hide Hits;
    hide TotalBytes;
    hide Advance;
    var next := Complete(e, s, rep, slots, hits, cache, shield, responses);
    var r := next.log[|s.log|];
    assert next.log == s.log + [r];
    SumSnoc(s.log, r, FetchOf());
    SumSnoc(s.log, r, StallOf());
    SumSnoc(s.log, r, StalledOf());
    SumSnoc(s.log, r, ExcessOf());
    SumSnoc(s.log, r, EarlyExcessOf());
    AdvanceBalance(e.config, e.manifest.segmentDuration, s.clock, |slots|, r.fetchTime);
    MoreSegments(s.i, |slots|, e.manifest.segmentDuration);
  }

  lemma MoreSegments(i: nat, n: nat, d: nat)
    ensures (i + n) * d == i * d + n * d
  {
  }

  /** One batch of the clock: what the wall, the buffer and the rebuffering counters gain. */
  lemma AdvanceBalance(cfg: Config, d: nat, c: Clock, size: nat, fetchTime: nat)
    ensures var (next, excess) := Advance(cfg, d, c, size, fetchTime);
            var stalls := c.started && fetchTime >= c.buffer; var stall := if stalls then fetchTime - c.buffer else 0;
            && next.buffer <= cfg.maxBuffer
            && next.wall == c.wall + fetchTime + stall + excess
            && next.rebufferDuration == c.rebufferDuration + stall
            && next.rebufferCount == c.rebufferCount + (if stalls then 1 else 0)
            && next.buffer + excess == (if c.started then c.buffer + stall - fetchTime else c.buffer) + size * d
            && (c.started ==> next.started && next.startup == c.startup)
            && (!c.started && next.started ==> next.startup == next.wall)
            && (!next.started ==> next.startup == c.startup)
  {
  }


  // ----- batch by batch -----

  function BufferAfter(s: Session, j: nat): nat
    requires j < |s.log|
  {
    if j + 1 < |s.log| then s.log[j + 1].bufferBefore else s.clock.buffer
  }

  predicate StartedAfter(s: Session, j: nat)
    requires j < |s.log|
  {
    if j + 1 < |s.log| then s.log[j + 1].wasStarted else s.clock.started
  }

  /** Video is thrown away only when the buffer is full, and playback starts when the buffer first reaches the threshold. */
  ghost predicate BufferRules(e: Env, s: Session) {
    && (if s.log == [] then !s.clock.started else !s.log[0].wasStarted)
    && forall j :: 0 <= j < |s.log| ==>
         && (s.log[j].excess > 0 ==> BufferAfter(s, j) == e.config.maxBuffer)
         && (StartedAfter(s, j) <==> s.log[j].wasStarted || BufferAfter(s, j) >= e.config.startupThreshold)
  }

  lemma {:induction false} CompleteKeepsBuffer(e: Env, s: Session, rep: Representation, slots: seq<SegmentRequest>,
                                               hits: seq<bool>, cache: Option<CacheState>, shield: Option<ShieldOutcome>,
                                               responses: seq<SegmentResponse>)
    requires |hits| == |slots| && |responses| == |Missed(slots, hits)|
    requires shield.Some? ==> |shield.value.hits| == |Missed(slots, hits)|
    requires BufferRules(e, s)
    ensures BufferRules(e, Complete(e, s, rep, slots, hits, cache, shield, responses))
  {
    hide Reassembled;
    hide Missed;
    hide SampleOf;
    hide Remember;
    hide Results;
    hide Hits;
    hide MaxLatency;
    hide InsertAll;
    var next := Complete(e, s, rep, slots, hits, cache, shield, responses);
    var n := |s.log|;
    assert next.log == s.log + [next.log[n]] && next.log[n].bufferBefore == s.clock.buffer && next.log[n].wasStarted == s.clock.started;
    forall j | 0 <= j < n ensures BufferAfter(next, j) == BufferAfter(s, j) && StartedAfter(next, j) == StartedAfter(s, j) {
      assert j + 1 < n ==> next.log[j + 1] == s.log[j + 1];
    }
  }

  // ----- segments, hits and samples -----

  function SampleList(log: seq<BatchRecord>): seq<Sample> {
    if log == [] then []
    else SampleList(log[..|log| - 1]) + (if log[|log| - 1].sample.Some? then [log[|log| - 1].sample.value] else [])
  }

  function Flagged(segments: seq<SegmentResult>): nat {
    if segments == [] then 0 else (if segments[0].cacheHit then 1 else 0) + Flagged(segments[1..])
  }

  /** The last twenty samples, or all of them when there are fewer. */
  ghost predicate IsLastTwenty(history: seq<Sample>, all: seq<Sample>) {
    |history| == Min(20, |all|) && history == all[|all| - |history|..]
  }

  ghost predicate SegmentsKept(s: Session) {
    && |s.segments| == s.i
    && (forall k :: 0 <= k < |s.segments| ==> s.segments[k].index == k)
    && s.cacheHits == Flagged(s.segments)
  }

  ghost predicate LogKept(s: Session) {
    && s.history == LastTwenty(SampleList(s.log))
    && s.currentBitrate == (if s.log == [] then 0 else s.log[|s.log| - 1].bitrate)
    && s.bitrateChanges == Changes(s.log)
  }

  /** How many batches were fetched at another bitrate than the batch before them. */
  function Changes(log: seq<BatchRecord>): nat {
    if |log| <= 1 then 0
    else
      var a, b := log[|log| - 2].bitrate, log[|log| - 1].bitrate;
      Changes(log[..|log| - 1]) + (if a != 0 && a != b then 1 else 0)
  }

  lemma {:induction false} FlaggedAppend(a: seq<SegmentResult>, b: seq<SegmentResult>)
    ensures Flagged(a + b) == Flagged(a) + Flagged(b)
  {
    if a == [] {
      assert a + b == b;
    } else {
      FlaggedAppend(a[1..], b);
      assert (a + b)[1..] == a[1..] + b;
    }
  }

  lemma {:induction false} FlaggedHits(segments: seq<SegmentResult>, hits: seq<bool>)
    requires |segments| == |hits| && forall k :: 0 <= k < |hits| ==> segments[k].cacheHit == hits[k]
    ensures Flagged(segments) == Hits(hits)
  {
    if hits != [] {
      FlaggedHits(segments[1..], hits[1..]);
    }
  }

  /** Trimming to twenty at every step is trimming the whole session's samples once. */
  lemma {:induction false} RememberIsLastTwenty(all: seq<Sample>, s: Option<Sample>)
    ensures Remember(LastTwenty(all), s) == LastTwenty(all + (if s.Some? then [s.value] else []))
  {
    if s.None? {
      assert all + [] == all;
    }
  }

  lemma {:induction false} CompleteKeepsSegments(e: Env, s: Session, rep: Representation, slots: seq<SegmentRequest>,
                                                hits: seq<bool>, cache: Option<CacheState>, shield: Option<ShieldOutcome>,
                                                responses: seq<SegmentResponse>)
    requires |hits| == |slots| && |responses| == |Missed(slots, hits)|
    requires shield.Some? ==> |shield.value.hits| == |Missed(slots, hits)|
    requires SegmentsKept(s)
    ensures SegmentsKept(Complete(e, s, rep, slots, hits, cache, shield, responses))
  {
    hide Reassembled;
    hide Missed;
    hide Advance;
    hide SampleOf;
    hide Remember;
    hide LastTwenty;
    hide SlotResponse;
    hide SlotShieldHit;
    hide InsertAll;
    hide TotalBytes;
    hide MaxLatency;
    hide Hits;
    hide Flagged;
    var next := Complete(e, s, rep, slots, hits, cache, shield, responses);
    var added := next.segments[|s.segments|..];
    assert next.segments == s.segments + added;
    FlaggedAppend(s.segments, added);
    FlaggedHits(added, hits);
  }

  lemma {:induction false} CompleteKeepsLog(e: Env, s: Session, rep: Representation, slots: seq<SegmentRequest>,
                                           hits: seq<bool>, cache: Option<CacheState>, shield: Option<ShieldOutcome>,
                                           responses: seq<SegmentResponse>)
    requires |hits| == |slots| && |responses| == |Missed(slots, hits)|
    requires shield.Some? ==> |shield.value.hits| == |Missed(slots, hits)|
    requires LogKept(s)
    ensures LogKept(Complete(e, s, rep, slots, hits, cache, shield, responses))
  {
    hide Reassembled;
    hide Missed;
    hide Advance;
    hide SampleOf;
    hide Remember;
    hide LastTwenty;
    hide Results;
    hide Hits;
    hide MaxLatency;
    hide InsertAll;
    hide TotalBytes;
    hide SampleList;
    hide Changes;
    var next := Complete(e, s, rep, slots, hits, cache, shield, responses);
    var r := next.log[|s.log|];
    assert next.log == s.log + [r];
    OneRecord(s.log, r);
    RememberIsLastTwenty(SampleList(s.log), r.sample);
  }

  lemma {:induction false} OneRecord(log: seq<BatchRecord>, r: BatchRecord)
    ensures SampleList(log + [r]) == SampleList(log) + (if r.sample.Some? then [r.sample.value] else [])
    ensures var prev := if log == [] then 0 else log[|log| - 1].bitrate;
            Changes(log + [r]) == Changes(log) + (if prev != 0 && prev != r.bitrate then 1 else 0)
  {
    var next := log + [r];
    assert next[|next| - 1] == r && next[..|next| - 1] == log;
    if log != [] {
      assert next[|next| - 2] == log[|log| - 1];
    }
  }

  // ----- whole sessions -----

  ghost predicate Kept(e: Env, handshake: nat, s: Session) {
    TimeConserved(e, handshake, s) && BufferRules(e, s) && SegmentsKept(s) && LogKept(s) && s.i <= e.manifest.totalSegments
  }

  lemma {:induction false} PlanListed(e: Env, s: Session)
    requires e.manifest.representations != []
    ensures Plan(e, s) in e.manifest.representations
  {
    ScanBounds(e.manifest.representations, e.manifest.representations[0], e.select(StateOf(e, s)));
  }

  /** What a successful batch is made of. */
  lemma {:induction false} StepCompletes(e: Env, s: Session)
    returns (slots: seq<SegmentRequest>, hits: seq<bool>, cache: Option<CacheState>, shield: Option<ShieldOutcome>,
             responses: seq<SegmentResponse>)
    requires ValidEnv(e) && s.i < e.manifest.totalSegments && BatchStep(e, s).Ok?
    ensures Plan(e, s) in e.manifest.representations
    ensures |slots| == BatchSize(e, s) && s.i + |slots| <= |Plan(e, s).segmentSizes|
    ensures slots == Slots(e, Plan(e, s), s.i, |slots|) && (hits, cache) == Lookup(s.cache, slots, s.clock.wall)
    ensures |hits| == |slots| && |responses| == |Missed(slots, hits)|
    ensures if s.shield.None? then shield == None
            else shield == Some(ShieldAll(e, s.shield.value, s.originCalls, Missed(slots, hits), s.clock.wall))
    ensures shield.Some? ==> shield.value.failed.None? && |shield.value.hits| == |Missed(slots, hits)|
    ensures Missed(slots, hits) != [] ==> e.respond(s.fetchCalls, Missed(slots, hits)) == Ok(responses)
    ensures BatchStep(e, s).value == Complete(e, s, Plan(e, s), slots, hits, cache, shield, responses)
  {
    hide Complete;
    hide Lookup;
    hide Missed;
    hide ShieldAll;
    PlanListed(e, s);
    slots := Slots(e, Plan(e, s), s.i, BatchSize(e, s));
    hits, cache := Lookup(s.cache, slots, s.clock.wall).0, Lookup(s.cache, slots, s.clock.wall).1;
    var reqs := Missed(slots, hits);
    shield := if s.shield.None? then None else Some(ShieldAll(e, s.shield.value, s.originCalls, reqs, s.clock.wall));
    responses := if reqs == [] then [] else e.respond(s.fetchCalls, reqs).value;
  }

  lemma {:induction false} StepKeeps(e: Env, handshake: nat, s: Session)
    requires ValidEnv(e) && s.i < e.manifest.totalSegments && Kept(e, handshake, s)
    ensures BatchStep(e, s).Ok? ==> Kept(e, handshake, BatchStep(e, s).value) && BatchStep(e, s).value.i > s.i
  {
    hide TimeConserved;
    hide BufferRules;
    hide SegmentsKept;
    hide LogKept;
    hide BatchStep;
    hide Lookup;
    hide ShieldAll;
    hide Missed;
    hide Plan;
    if BatchStep(e, s).Ok? {
      var slots, hits, cache, shield, responses := StepCompletes(e, s);
      CompleteKeepsTime(e, handshake, s, Plan(e, s), slots, hits, cache, shield, responses);
      CompleteKeepsBuffer(e, s, Plan(e, s), slots, hits, cache, shield, responses);
      CompleteKeepsSegments(e, s, Plan(e, s), slots, hits, cache, shield, responses);
      CompleteKeepsLog(e, s, Plan(e, s), slots, hits, cache, shield, responses);
    }
  }

  lemma {:induction false} RunKeeps(e: Env, handshake: nat, s: Session)
    requires ValidEnv(e) && Kept(e, handshake, s)
    ensures SessionRun(e, s).Ok? ==> Kept(e, handshake, SessionRun(e, s).value)
                                     && SessionRun(e, s).value.i == e.manifest.totalSegments
    decreases e.manifest.totalSegments - s.i
  {
    hide Kept;
    hide BatchStep;
    if s.i < e.manifest.totalSegments {
      StepKeeps(e, handshake, s) by { KeptBound(e, handshake, s); }
      if BatchStep(e, s).Ok? {
        RunKeeps(e, handshake, BatchStep(e, s).value);
      }
    } else {
      KeptBound(e, handshake, s);
    }
  }

  lemma KeptBound(e: Env, handshake: nat, s: Session)
    requires Kept(e, handshake, s)
    ensures s.i <= e.manifest.totalSegments
  {
  }

  lemma {:induction false} KeptAtStart(e: Env, handshake: nat, cache: Option<CacheState>, shield: Option<Option<CacheState>>)
    ensures Kept(e, handshake, Begin(handshake, cache, shield))
  {
    assert Sum<BatchRecord>([], FetchOf()) == 0;
  }

  /**
   A finished session: buffer within bounds, the wall clock accounted for, playback
   time conserved, exactly the segments 0..TotalSegments-1 in order, the hit count
   equal to the flagged hits, and the history equal to the last twenty samples of the
   whole session.
   */
  lemma {:induction false} FinishedSession(e: Env, handshake: nat, cache: Option<CacheState>, shield: Option<Option<CacheState>>)
    requires ValidEnv(e)
    ensures var run := SessionRun(e, Begin(handshake, cache, shield));
            run.Ok? ==>
              var s := run.value; var c := s.clock;
              && c.buffer <= e.config.maxBuffer
              && c.wall == handshake + Sum(s.log, FetchOf()) + c.rebufferDuration + Sum(s.log, ExcessOf())
              && c.rebufferDuration == Sum(s.log, StallOf())
              && c.rebufferCount == Sum(s.log, StalledOf())
              && (c.started ==> c.wall - c.startup + c.buffer
                                == e.manifest.totalSegments * e.manifest.segmentDuration + 2 * c.rebufferDuration
                                   - Sum(s.log, EarlyExcessOf()))
              && BufferRules(e, s)
              && |s.segments| == e.manifest.totalSegments
              && (forall k :: 0 <= k < |s.segments| ==> s.segments[k].index == k)
              && s.cacheHits == Flagged(s.segments)
              && IsLastTwenty(s.history, SampleList(s.log))
              && s.bitrateChanges == Changes(s.log)
  {
    hide BatchStep;
    hide SessionRun;
    hide SampleList;
    RunKeeps(e, handshake, Begin(handshake, cache, shield)) by { KeptAtStart(e, handshake, cache, shield); }
  }

  // ----- what a decision is made from -----

  /** What the player knew when batch j was decided, read off the batches before it. */
  ghost predicate SawPast(e: Env, log: seq<BatchRecord>, j: nat, st: PlayerState)
    requires j < |log|
  {
    && st.bufferLevel == log[j].bufferBefore && st.maxBuffer == e.config.maxBuffer
    && IsLastTwenty(st.history, SampleList(log[..j])) && st.currentBitrateKbps == Previous(log, j)
    && st.segmentIndex == log[j].first && st.startupComplete == log[j].wasStarted
    && st.rebufferCount == Sum(log[..j], StalledOf())
  }

  ghost predicate Decided(e: Env, log: seq<BatchRecord>, j: nat)
    requires j < |log|
  {
    e.manifest.representations != []
    && exists st :: SawPast(e, log, j, st) && log[j].bitrate == RepresentationFor(e.manifest, e.select(st)).bitrateKbps
  }

  ghost predicate AllDecided(e: Env, s: Session) {
    forall j :: 0 <= j < |s.log| ==> Decided(e, s.log, j)
  }

  lemma {:induction false} DecidedEarlier(e: Env, log: seq<BatchRecord>, r: BatchRecord, j: nat)
    requires j < |log| && Decided(e, log, j)
    ensures Decided(e, log + [r], j)
  {
    hide SampleList;
    hide Sum;
    hide RepresentationFor;
    var st :| SawPast(e, log, j, st) && log[j].bitrate == RepresentationFor(e.manifest, e.select(st)).bitrateKbps;
    assert (log + [r])[..j] == log[..j];
    assert SawPast(e, log + [r], j, st);
  }

  lemma {:induction false} DecidedNow(e: Env, handshake: nat, s: Session, r: BatchRecord)
    requires e.manifest.representations != [] && Kept(e, handshake, s)
    requires r.first == s.i && r.bufferBefore == s.clock.buffer && r.wasStarted == s.clock.started && r.bitrate == Plan(e, s).bitrateKbps
    ensures Decided(e, s.log + [r], |s.log|)
  {
    hide SampleList;
    hide Sum;
    hide Changes;
    hide RepresentationFor;
    assert (s.log + [r])[..|s.log|] == s.log;
    assert SawPast(e, s.log + [r], |s.log|, StateOf(e, s));
  }

  lemma {:induction false} StepDecides(e: Env, handshake: nat, s: Session)
    requires ValidEnv(e) && s.i < e.manifest.totalSegments && Kept(e, handshake, s) && AllDecided(e, s)
    ensures BatchStep(e, s).Ok? ==> AllDecided(e, BatchStep(e, s).value)
  {
    hide Kept;
    hide Decided;
    hide BatchStep;
    hide Lookup;
    hide Missed;
    hide ShieldAll;
    hide Plan;
    hide Slots;
    hide Results;
    hide Advance;
    hide SampleOf;
    if BatchStep(e, s).Ok? {
      var slots, hits, cache, shield, responses := StepCompletes(e, s);
      var next := BatchStep(e, s).value;
      var r := next.log[|s.log|];
      assert next.log == s.log + [r];
      DecidedNow(e, handshake, s, r);
      forall j | 0 <= j < |s.log| ensures Decided(e, next.log, j) {
        DecidedEarlier(e, s.log, r, j);
      }
    }
  }

  lemma {:induction false} RunDecides(e: Env, handshake: nat, s: Session)
    requires ValidEnv(e) && Kept(e, handshake, s) && AllDecided(e, s)
    ensures SessionRun(e, s).Ok? ==> AllDecided(e, SessionRun(e, s).value)
    decreases e.manifest.totalSegments - s.i
  {
    hide Kept;
    hide AllDecided;
    hide BatchStep;
    if s.i < e.manifest.totalSegments {
      StepKeeps(e, handshake, s);
      StepDecides(e, handshake, s);
      if BatchStep(e, s).Ok? {
        RunDecides(e, handshake, BatchStep(e, s).value);
      }
    }
  }

  /**
   Whatever the selection rule, each batch of a finished session is fetched at the bitrate of the
   representation for what the rule chose, given the buffer and the stalls, bitrate and last
   twenty samples of the batches before it.
   */
  lemma {:induction false} EveryBatchDecided(e: Env, handshake: nat, cache: Option<CacheState>, shield: Option<Option<CacheState>>,
                                             j: nat)
    requires ValidEnv(e)
    ensures var run := SessionRun(e, Begin(handshake, cache, shield));
            run.Ok? && j < |run.value.log| ==>
              && e.manifest.representations != []
              && exists st :: SawPast(e, run.value.log, j, st)
                              && run.value.log[j].bitrate == RepresentationFor(e.manifest, e.select(st)).bitrateKbps
  {
    hide SessionRun;
    hide SawPast;
    hide RepresentationFor;
    RunDecides(e, handshake, Begin(handshake, cache, shield));
    var run := SessionRun(e, Begin(handshake, cache, shield));
    if run.Ok? && j < |run.value.log| {
      assert Decided(e, run.value.log, j);
    }
  }

  // ----- every slot gets the response to its own request -----

  lemma {:induction false} OwnResponse(slots: seq<SegmentRequest>, hits: seq<bool>, responses: seq<SegmentResponse>, k: nat)
    requires |hits| == |slots| && |responses| == |Missed(slots, hits)| && k < |slots|
    requires forall j :: 0 <= j < |responses| ==> responses[j].segmentID == Missed(slots, hits)[j].segmentID
    ensures SlotResponse(slots, hits, responses, k).segmentID == slots[k].segmentID
  {
    if !hits[k] {
      MissRankBound(slots, hits, k);
    }
  }

  /** If the shield's answer depends on the key, every missed slot gets the answer for its own key. */
  lemma {:induction false} OwnShieldFlag(slots: seq<SegmentRequest>, hits: seq<bool>, shieldHits: seq<bool>, k: nat, held: string -> bool)
    requires |hits| == |slots| && |shieldHits| == |Missed(slots, hits)| && k < |slots|
    requires forall j :: 0 <= j < |shieldHits| ==> shieldHits[j] == held(Missed(slots, hits)[j].segmentID)
    ensures SlotShieldHit(slots, hits, shieldHits, k) <==> !hits[k] && held(slots[k].segmentID)
  {
    if !hits[k] {
      MissRankBound(slots, hits, k);
    }
  }

  /** Both modelled transports answer in order, so over either every slot gets the response to its own request. */
  lemma {:induction false} ModeledOwnResponse(slots: seq<SegmentRequest>, hits: seq<bool>, k: nat, link: Link, d: Draws, cursor: nat,
                                              time: nat, losses: nat, lost: seq<seq<int>>, total: nat)
    requires |hits| == |slots| && k < |slots| && |lost| == |Missed(slots, hits)|
    requires total > 0 || TotalBytes(Missed(slots, hits)) == 0
    ensures var reqs := Missed(slots, hits);
            && SlotResponse(slots, hits, TcpResponses(link, d, cursor, reqs, time, losses, total), k).segmentID == slots[k].segmentID
            && SlotResponse(slots, hits, QuicResponses(link, d, cursor, reqs, time, lost, total), k).segmentID == slots[k].segmentID
  {
    hide Missed;
    hide MissRank;
    var reqs := Missed(slots, hits);
    forall j | 0 <= j < |reqs|
      ensures TcpResponses(link, d, cursor, reqs, time, losses, total)[j].segmentID == reqs[j].segmentID
      ensures QuicResponses(link, d, cursor, reqs, time, lost, total)[j].segmentID == reqs[j].segmentID
    {
      AnswersInOrder(link, d, cursor, reqs, time, losses, lost, total, j);
    }
    OwnResponse(slots, hits, TcpResponses(link, d, cursor, reqs, time, losses, total), k);
    OwnResponse(slots, hits, QuicResponses(link, d, cursor, reqs, time, lost, total), k);
  }

  // ----- bitrates over a whole session of the buffer-based rule -----

  ghost predicate BufferBasedEnv(e: Env) {
    && ValidEnv(e)
    && DistinctRungs(Rungs(e.manifest))
    && (forall st :: e.select(st) == Select(Rungs(e.manifest), st).bitrateKbps)
  }

  ghost predicate LowestListedFirst(e: Env) {
    e.manifest.representations != [] ==> e.manifest.representations[0].bitrateKbps == Lowest(Rungs(e.manifest))
  }

  /** What one batch may do to the bitrate, given the one before it (0 at the start). */
  ghost predicate Transition(xs: seq<nat>, prev: nat, buffer: nat, bitrate: nat) {
    && bitrate in xs
    && (buffer < CRITICAL ==> bitrate == Lowest(xs))
    && (CRITICAL <= buffer < DANGER ==> bitrate == Effective(xs, prev))
    && (buffer >= DANGER ==> bitrate == Effective(xs, prev) || Distance(Rank(xs, Effective(xs, prev)), Rank(xs, bitrate)) >= 2)
    && (buffer >= DANGER ==> exists t :: Aim(xs, buffer, t) && Follows(xs, Effective(xs, prev), t, bitrate))
  }

  /** The bitrate moves to t exactly when a rung lies strictly between t and where it was. */
  ghost predicate Follows(xs: seq<nat>, prev: nat, t: nat, bitrate: nat) {
    bitrate == if Between(xs, prev, t) then t else prev
  }

  function Previous(log: seq<BatchRecord>, j: nat): nat
    requires j <= |log|
  {
    if j == 0 then 0 else log[j - 1].bitrate
  }

  ghost predicate BitrateRules(e: Env, s: Session) {
    && s.currentBitrate == Previous(s.log, |s.log|)
    && forall j :: 0 <= j < |s.log| ==>
         Transition(Rungs(e.manifest), Previous(s.log, j), s.log[j].bufferBefore, s.log[j].bitrate)
  }

  /** With the lowest rung listed first, what is fetched is what was decided. */
  lemma {:induction false} FetchedAsDecided(e: Env, s: Session)
    requires BufferBasedEnv(e) && LowestListedFirst(e) && e.manifest.representations != []
    requires s.currentBitrate == 0 || s.currentBitrate in Rungs(e.manifest)
    ensures Transition(Rungs(e.manifest), s.currentBitrate, s.clock.buffer, Plan(e, s).bitrateKbps)
  {
    hide LevelsApart;
    hide Rank;
    hide Select;
    hide Aim;
    hide Between;
    hide Target;
    var xs, st := Rungs(e.manifest), StateOf(e, s);
    DecisionRules(xs, st);
    RungServed(e.manifest, Select(xs, st).bitrateKbps);
    if st.bufferLevel >= DANGER {
      var t := Target(xs, st).0;
      TargetIsAim(xs, st, t);
      DecisionExact(xs, st, t);
      assert Follows(xs, Effective(xs, s.currentBitrate), t, Plan(e, s).bitrateKbps);
    }
  }

  lemma {:induction false} StepKeepsRules(e: Env, s: Session)
    requires BufferBasedEnv(e) && LowestListedFirst(e) && s.i < e.manifest.totalSegments && BitrateRules(e, s)
    ensures BatchStep(e, s).Ok? ==> BitrateRules(e, BatchStep(e, s).value)
  {
    hide Lookup;
    hide ShieldAll;
    hide Missed;
    hide Reassembled;
    hide Results;
    hide Advance;
    hide Transition;
    hide Plan;
    var xs, prev := Rungs(e.manifest), Previous(s.log, |s.log|);
    assert prev == 0 || prev in xs by {
      if s.log != [] {
        TransitionRung(xs, Previous(s.log, |s.log| - 1), s.log[|s.log| - 1].bufferBefore, prev);
      }
    }
    FetchedAsDecided(e, s);
    if BatchStep(e, s).Ok? {
      var next := BatchStep(e, s).value;
      assert |next.log| == |s.log| + 1 && next.log[..|s.log|] == s.log;
      forall j | 0 <= j < |next.log|
        ensures Transition(xs, Previous(next.log, j), next.log[j].bufferBefore, next.log[j].bitrate)
      {
        if j < |s.log| {
          assert next.log[j] == s.log[j] && Previous(next.log, j) == Previous(s.log, j);
        }
      }
    }
  }

  lemma TransitionRung(xs: seq<nat>, prev: nat, buffer: nat, bitrate: nat)
    requires Transition(xs, prev, buffer, bitrate)
    ensures bitrate in xs
  {
  }

  lemma {:induction false} RunKeepsRules(e: Env, s: Session)
    requires BufferBasedEnv(e) && LowestListedFirst(e) && BitrateRules(e, s)
    ensures SessionRun(e, s).Ok? ==> BitrateRules(e, SessionRun(e, s).value)
    decreases e.manifest.totalSegments - s.i
  {
    hide BitrateRules;
    hide BatchStep;
    if s.i < e.manifest.totalSegments {
      StepKeepsRules(e, s);
      StepAdvances(e, s);
      if BatchStep(e, s).Ok? {
        RunKeepsRules(e, BatchStep(e, s).value);
      }
    }
  }

  lemma {:induction false} StepAdvances(e: Env, s: Session)
    requires ValidEnv(e) && s.i < e.manifest.totalSegments
    ensures BatchStep(e, s).Ok? ==> BatchStep(e, s).value.i == s.i + BatchSize(e, s)
  {
    hide Lookup;
    hide ShieldAll;
    hide Missed;
    hide Advance;
  }

  /**
   Over a whole session every fetched bitrate is a rung, and it follows from the one before
   it and from the buffer: the lowest rung below the critical level, no change in the danger
   zone, and above it the rung that the buffer affords, unless nothing lies in between. So
   every other change is a move of at least two rungs.
   */
  lemma {:induction false} EverySessionFollowsRules(e: Env, handshake: nat, cache: Option<CacheState>,
                                                    shield: Option<Option<CacheState>>, j: nat)
    requires BufferBasedEnv(e) && LowestListedFirst(e)
    ensures var run := SessionRun(e, Begin(handshake, cache, shield)); var xs := Rungs(e.manifest);
            run.Ok? && j < |run.value.log| ==>
              var log := run.value.log; var buffer := log[j].bufferBefore;
              var prev := if j == 0 then Lowest(xs) else log[j - 1].bitrate;
              && log[j].bitrate in xs
              && (buffer < CRITICAL ==> log[j].bitrate == Lowest(xs))
              && (CRITICAL <= buffer < DANGER ==> log[j].bitrate == prev)
              && (buffer >= DANGER ==>
                    exists t :: Aim(xs, buffer, t) && Follows(xs, prev, t, log[j].bitrate))
              && (j > 0 && log[j].bitrate != log[j - 1].bitrate ==>
                    || (buffer < CRITICAL && log[j].bitrate == Lowest(xs))
                    || (buffer >= DANGER
                        && Distance(Rank(xs, log[j - 1].bitrate), Rank(xs, log[j].bitrate)) >= 2))
  {
    hide SessionRun;
    hide BatchStep;
    hide Rank;
    hide Aim;
    hide Follows;
    RunKeepsRules(e, Begin(handshake, cache, shield));
  }

  /** The ordering is needed: the first batch is fetched as decided exactly when the lowest rung is listed first. */
  lemma {:induction false} FirstBatchServesFirstListed(e: Env, handshake: nat, cache: Option<CacheState>,
                                                       shield: Option<Option<CacheState>>)
    requires BufferBasedEnv(e) && e.manifest.representations != []
    ensures var s := Begin(handshake, cache, shield);
            && Plan(e, s).bitrateKbps == e.manifest.representations[0].bitrateKbps
            && (Plan(e, s).bitrateKbps == e.select(StateOf(e, s)) <==> LowestListedFirst(e))
  {
    var s, xs, reps := Begin(handshake, cache, shield), Rungs(e.manifest), e.manifest.representations;
    var low := Lowest(xs);
    assert e.select(StateOf(e, s)) == low;
    assert reps[0].bitrateKbps == xs[0] && xs[0] in xs;
    ScanBounds(reps, reps[0], low);
    if reps[0].bitrateKbps == low {
      RungServed(e.manifest, low);
    }
  }
}
