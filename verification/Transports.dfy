/**
 The modeled TCP/H2 and QUIC/H3 transports (internal/transport/modeled/tcp.go, quic.go).
 Durations are nanoseconds and shares are exact integer division. Box-Muller jitter is
 an unspecified function of two draws; the generator is its sequence of results.
 */
module TransportModel {
  import opened Wrappers
  import opened Reno
  import opened LossModel
  import opened TransportTypes

  const MTU_PAYLOAD: nat := 1460

  /** rand.New(rand.NewSource(seed)): its first Int63, the floats after that, and its floats when Int63 is never called. */
  datatype Generator = Generator(firstInt: int -> int, floatsAfterInt: int -> Draws, floats: int -> Draws)

  /**
   A network profile: bandwidth as a function of the wall clock covers fixed rates and
   traces. notANumber is the duration that the platform makes of a floating-point NaN.
   */
  datatype Link = Link(rtt: nat, jitterMs: real, jitter: (real, real) -> nat, bandwidth: nat -> real, loss: LossConfig, notANumber: int)

  function Packets(size: nat): nat {
    (size + MTU_PAYLOAD - 1) / MTU_PAYLOAD
  }

  function TotalBytes(reqs: seq<SegmentRequest>): nat {
    if reqs == [] then 0 else reqs[0].sizeBytes + TotalBytes(reqs[1..])
  }

  function TotalPackets(reqs: seq<SegmentRequest>): nat {
    if reqs == [] then 0 else Packets(reqs[0].sizeBytes) + TotalPackets(reqs[1..])
  }

  /** sampleJitter at a cursor: no draws when the profile has no jitter, two otherwise. */
  function Jitter(link: Link, d: Draws, cursor: nat): nat {
    if link.jitterMs <= 0.0 then 0 else link.jitter(d(cursor), d(cursor + 1))
  }

  function JitterDraws(link: Link): nat {
    if link.jitterMs <= 0.0 then 0 else 2
  }

  /** Draws of a number of streams, each with jitter on its first byte and on its completion. */
  function StreamDraws(link: Link, streams: nat): nat {
    if link.jitterMs <= 0.0 then 0 else 4 * streams
  }

  /** A rate that is not positive counts as 1 Mbps. */
  function Rate(mbps: real): (r: real)
    ensures r > 0.0
  {
    if mbps <= 0.0 then 1.0 else mbps
  }

  function BandwidthTime(bytes: nat, mbps: real): (t: nat) {
    var seconds := (bytes * 8) as real / (Rate(mbps) * 1_000_000.0);
    assert seconds >= 0.0 by { QuotientNonNegative((bytes * 8) as real, Rate(mbps) * 1_000_000.0); }
    (seconds * 1_000_000_000.0).Floor
  }

  lemma QuotientNonNegative(x: real, y: real)
    requires x >= 0.0 && y > 0.0
    ensures x / y >= 0.0
  {
  }

  /** What the link needs for the bytes, in nanoseconds rounded down: t * rate <= bits < (t + 1) * rate. */
  lemma {:induction false} LinkCarries(bytes: nat, mbps: real)
    ensures var t := BandwidthTime(bytes, mbps);
            Rate(mbps) * t as real <= (bytes * 8) as real * 1000.0 < Rate(mbps) * (t as real + 1.0)
  {
    hide Rate;
    RateBounds(BandwidthTime(bytes, mbps), (bytes * 8) as real, Rate(mbps));
  }

  lemma {:induction false} RateBounds(t: nat, bits: real, rate: real)
    requires rate > 0.0 && t == (bits / (rate * 1_000_000.0) * 1_000_000_000.0).Floor
    ensures rate * t as real <= bits * 1000.0 < rate * (t as real + 1.0)
  {
    var q := bits / (rate * 1_000_000.0);
    var x := q * 1_000_000_000.0;
    Cancel(bits, rate * 1_000_000.0);
    assert rate * x == (rate * 1_000_000.0) * q * 1000.0;
    ScaleOrder(rate, t as real, x);
    ScaleOrder(rate, x, t as real + 1.0);
    assert bits * 1000.0 == rate * x;
    assert bits * 1000.0 < rate * (t as real + 1.0);
  }

  lemma Cancel(x: real, y: real)
    requires y > 0.0
    ensures y * (x / y) == x
  {
  }

  lemma ScaleOrder(k: real, a: real, b: real)
    requires k > 0.0
    ensures a <= b ==> k * a <= k * b
    ensures a < b ==> k * a < k * b
  {
  }

  /** Connection time: the congestion window or the link rate, whichever is slower. */
  ghost function ConnectionTime(link: Link, bytes: nat, offsets: seq<int>, wallClock: nat): nat {
    Max(TransferRtts(bytes, offsets) * link.rtt, BandwidthTime(bytes, link.bandwidth(wallClock)))
  }

  function Share(time: nat, size: nat, total: nat): nat
    requires total > 0
  {
    time * size / total
  }

  /** Byte offsets of lost packets, the first packet starting at `base`. */
  function Offsets(lost: seq<int>, base: int): seq<int> {
    seq(|lost|, i requires 0 <= i < |lost| => base + lost[i] * MTU_PAYLOAD)
  }

  // ----- one stream on its own -----

  function SingleResponse(link: Link, d: Draws, cursor: nat, req: SegmentRequest, time: nat, losses: nat): SegmentResponse {
    var ttfb := link.rtt / 2 + Jitter(link, d, cursor);
    var latency := ttfb + time + Jitter(link, d, cursor + JitterDraws(link));
    SegmentResponse(req.segmentID, req.sizeBytes, ttfb, latency, losses, 0, Goodput(req.sizeBytes, latency))
  }

  // ----- TCP -----

  /**
   Any loss holds every stream back to the end of the connection; without loss a stream
   takes its share, which for a batch without bytes is zero divided by zero.
   */
  function TcpStreamTime(link: Link, time: nat, lossy: bool, size: nat, total: nat): int {
    if lossy then time else if total == 0 then link.notANumber else Share(time, size, total)
  }

  function TcpResponse(link: Link, d: Draws, cursor: nat, req: SegmentRequest, time: nat, losses: nat, total: nat): SegmentResponse {
    var ttfb := link.rtt / 2 + Jitter(link, d, cursor);
    var latency := ttfb + TcpStreamTime(link, time, losses > 0, req.sizeBytes, total) + Jitter(link, d, cursor + JitterDraws(link));
    SegmentResponse(req.segmentID, req.sizeBytes, ttfb, latency, losses, losses, Goodput(req.sizeBytes, latency))
  }

  function TcpResponses(link: Link, d: Draws, cursor: nat, reqs: seq<SegmentRequest>, time: nat, losses: nat, total: nat)
    : (r: seq<SegmentResponse>)
    ensures |r| == |reqs|
    decreases |reqs|
  {
    if reqs == [] then []
    else
      [TcpResponse(link, d, cursor, reqs[0], time, losses, total)]
      + TcpResponses(link, d, cursor + 2 * JitterDraws(link), reqs[1..], time, losses, total)
  }

  // ----- QUIC -----

  /** The lost packets of each stream; the streams draw their fates one after the other. */
  function StreamLosses(d: Draws, c: Channel, reqs: seq<SegmentRequest>): (r: seq<seq<int>>)
    ensures |r| == |reqs|
    decreases |reqs|
  {
    if reqs == [] then []
    else
      var n := Packets(reqs[0].sizeBytes);
      [Lost(d, c, n)] + StreamLosses(d, After(d, c, n), reqs[1..])
  }

  /** All loss offsets of the connection, stream after stream from byte `base`. */
  function StreamOffsets(d: Draws, c: Channel, reqs: seq<SegmentRequest>, base: int): seq<int>
    decreases |reqs|
  {
    if reqs == [] then []
    else
      var n := Packets(reqs[0].sizeBytes);
      Offsets(Lost(d, c, n), base) + StreamOffsets(d, After(d, c, n), reqs[1..], base + reqs[0].sizeBytes)
  }

  function QuicResponse(link: Link, d: Draws, cursor: nat, req: SegmentRequest, time: nat, losses: nat, total: nat): SegmentResponse
    requires total > 0
  {
    var ttfb := link.rtt / 2 + Jitter(link, d, cursor);
    var transfer := Share(time, req.sizeBytes, total) + losses * link.rtt;
    var latency := ttfb + transfer + Jitter(link, d, cursor + JitterDraws(link));
    SegmentResponse(req.segmentID, req.sizeBytes, ttfb, latency, losses, 0, Goodput(req.sizeBytes, latency))
  }

  /** An empty stream answers at once and draws no jitter. */
  function QuicResponses(link: Link, d: Draws, cursor: nat, reqs: seq<SegmentRequest>, time: nat, losses: seq<seq<int>>, total: nat)
    : (r: seq<SegmentResponse>)
    requires |losses| == |reqs| && (total > 0 || TotalBytes(reqs) == 0)
    ensures |r| == |reqs|
    decreases |reqs|
  {
    if reqs == [] then []
    else if reqs[0].sizeBytes == 0 then
      [EmptyResponse(reqs[0].segmentID)]
      + QuicResponses(link, d, cursor, reqs[1..], time, losses[1..], total)
    else
      [QuicResponse(link, d, cursor, reqs[0], time, |losses[0]|, total)]
      + QuicResponses(link, d, cursor + 2 * JitterDraws(link), reqs[1..], time, losses[1..], total)
  }

  function PositiveStreams(reqs: seq<SegmentRequest>): nat {
    if reqs == [] then 0 else (if reqs[0].sizeBytes > 0 then 1 else 0) + PositiveStreams(reqs[1..])
  }

  function MaxLatency(rs: seq<SegmentResponse>): nat {
    if rs == [] then 0 else Max(rs[0].totalLatency, MaxLatency(rs[1..]))
  }

  // ----- the loops, one request at a time -----

  lemma {:induction false} TcpResponsesStep(link: Link, d: Draws, cursor: nat, reqs: seq<SegmentRequest>, i: nat,
                                            time: nat, losses: nat, total: nat)
    requires i < |reqs|
    ensures TcpResponses(link, d, cursor, reqs[i..], time, losses, total)
            == [TcpResponse(link, d, cursor, reqs[i], time, losses, total)]
               + TcpResponses(link, d, cursor + 2 * JitterDraws(link), reqs[i + 1..], time, losses, total)
  {
    assert reqs[i..][1..] == reqs[i + 1..];
  }

  lemma {:induction false} QuicResponsesStep(link: Link, d: Draws, cursor: nat, reqs: seq<SegmentRequest>, i: nat,
                                             time: nat, losses: seq<seq<int>>, total: nat)
    requires i < |reqs| == |losses| && total == TotalBytes(reqs)
    ensures TotalBytes(reqs[i..]) <= total && TotalBytes(reqs[i + 1..]) <= total && reqs[i].sizeBytes <= total
    ensures QuicResponses(link, d, cursor, reqs[i..], time, losses[i..], total)
            == if reqs[i].sizeBytes == 0 then
                 [EmptyResponse(reqs[i].segmentID)]
                 + QuicResponses(link, d, cursor, reqs[i + 1..], time, losses[i + 1..], total)
               else
                 [QuicResponse(link, d, cursor, reqs[i], time, |losses[i]|, total)]
                 + QuicResponses(link, d, cursor + 2 * JitterDraws(link), reqs[i + 1..], time, losses[i + 1..], total)
  {
    TotalBytesSuffix(reqs, i);
    TotalBytesSuffix(reqs, i + 1);
    assert reqs[i..][1..] == reqs[i + 1..] && losses[i..][1..] == losses[i + 1..];
  }

  lemma {:induction false} TotalBytesSuffix(reqs: seq<SegmentRequest>, i: nat)
    requires i <= |reqs|
    ensures TotalBytes(reqs[i..]) <= TotalBytes(reqs)
    decreases |reqs|
  {
    if i > 0 {
      TotalBytesSuffix(reqs[1..], i - 1);
      assert reqs[1..][i - 1..] == reqs[i..];
    } else {
      assert reqs[0..] == reqs;
    }
  }

  lemma {:induction false} StreamsStep(d: Draws, c: Channel, reqs: seq<SegmentRequest>, i: nat, base: int)
    requires i < |reqs|
    ensures var n := Packets(reqs[i].sizeBytes);
            && StreamLosses(d, c, reqs[i..]) == [Lost(d, c, n)] + StreamLosses(d, After(d, c, n), reqs[i + 1..])
            && StreamOffsets(d, c, reqs[i..], base)
               == Offsets(Lost(d, c, n), base) + StreamOffsets(d, After(d, c, n), reqs[i + 1..], base + reqs[i].sizeBytes)
            && After(d, c, TotalPackets(reqs[i..])) == After(d, After(d, c, n), TotalPackets(reqs[i + 1..]))
  {
    assert reqs[i..][1..] == reqs[i + 1..];
    FatesSplit(d, c, Packets(reqs[i].sizeBytes), TotalPackets(reqs[i + 1..]));
  }

  lemma EmptyStream(d: Draws, c: Channel, base: int)
    ensures Lost(d, c, Packets(0)) == [] && After(d, c, Packets(0)) == c && Offsets([], base) == []
  {
  }

  // ----- loss offsets -----

  /** The offsets of one stream: strictly increasing and inside its own byte range. */
  lemma {:induction false} StreamRange(d: Draws, c: Channel, size: nat, base: int)
    ensures var o := Offsets(Lost(d, c, Packets(size)), base);
            && Increasing(o)
            && forall i :: 0 <= i < |o| ==> base <= o[i] < base + size
  {
    var n := Packets(size);
    var lost, o := Lost(d, c, n), Offsets(Lost(d, c, n), base);
    LostExact(d, c, n);
    forall i | 0 <= i < |o| ensures base <= o[i] < base + size {
      assert lost[i] in lost;
      assert lost[i] <= n - 1 && (n - 1) * MTU_PAYLOAD < size;
    }
    forall i, j | 0 <= i < j < |o| ensures o[i] < o[j] {
      assert lost[i] < lost[j];
    }
  }

  lemma {:induction false} IncreasingAppend(a: seq<int>, b: seq<int>, mid: int)
    requires Increasing(a) && Increasing(b)
    requires (forall i :: 0 <= i < |a| ==> a[i] < mid) && (forall i :: 0 <= i < |b| ==> mid <= b[i])
    ensures Increasing(a + b)
  {
    var ab := a + b;
    forall i, j | 0 <= i < j < |ab| ensures ab[i] < ab[j] {
      assert ab[i] == if i < |a| then a[i] else b[i - |a|];
      assert ab[j] == if j < |a| then a[j] else b[j - |a|];
    }
  }

  /** All offsets of a QUIC batch: strictly increasing before any sort, and within the connection's bytes. */
  lemma {:induction false} StreamOffsetsIncrease(d: Draws, c: Channel, reqs: seq<SegmentRequest>, base: int)
    ensures var o := StreamOffsets(d, c, reqs, base);
            && Increasing(o)
            && forall i :: 0 <= i < |o| ==> base <= o[i] < base + TotalBytes(reqs)
    decreases |reqs|
  {
    if reqs != [] {
      var size := reqs[0].sizeBytes;
      var n := Packets(size);
      StreamRange(d, c, size, base);
      StreamOffsetsIncrease(d, After(d, c, n), reqs[1..], base + size);
      IncreasingAppend(Offsets(Lost(d, c, n), base), StreamOffsets(d, After(d, c, n), reqs[1..], base + size), base + size);
    }
  }
}

module Transports {
  import opened Wrappers
  import opened Sorting
  import opened Reno
  import opened LossModel
  import opened TransportTypes
  import opened TransportModel

  /** What a call returns once its context is done. */
  const CANCELLED: string := "context canceled"

  lemma {:induction false} IncreasingIsAscending(xs: seq<int>, ys: seq<int>)
    requires Increasing(xs) && Ascending(ys) && multiset(xs) == multiset(ys)
    ensures xs == ys
  {
    SortedPermutationUnique(xs, ys);
  }

  method SumBytes(reqs: seq<SegmentRequest>) returns (total: nat)
    ensures total == TotalBytes(reqs)
  {
    total := 0;
    for i := 0 to |reqs|
      invariant total + TotalBytes(reqs[i..]) == TotalBytes(reqs)
    {
      assert reqs[i..][1..] == reqs[i + 1..];
      total := total + reqs[i].sizeBytes;
    }
  }

  /** sampleJitter, with the generator's cursor before and after. */
  method SampleJitter(link: Link, draws: Draws, cursor: nat) returns (j: nat, next: nat)
    ensures j == Jitter(link, draws, cursor) && next == cursor + JitterDraws(link)
  {
    if link.jitterMs <= 0.0 {
      return 0, cursor;
    }
    return link.jitter(draws(cursor), draws(cursor + 1)), cursor + 2;
  }

  /** The part that every fetch shares: sort the offsets, run the congestion window, bound by the bandwidth. */
  method ConnectionTimeOf(link: Link, bytes: nat, offsets: seq<int>, wallClock: nat) returns (time: nat)
    requires Increasing(offsets)
    ensures time == ConnectionTime(link, bytes, offsets, wallClock)
  {
    var sorted := SortInts(offsets);
    IncreasingIsAscending(offsets, sorted);
    var cc := new CongestionController(link.rtt);
    var cwndTime := cc.TransferTime(bytes, sorted);
    var bwTime := BandwidthTime(bytes, link.bandwidth(wallClock));
    time := Max(cwndTime, bwTime);
  }

  /** computeDelivery and the single-stream fetch around it, the same for both transports. */
  method FetchAlone(link: Link, draws: Draws, cursor: nat, wallClock: nat, loss: LossSimulator, req: SegmentRequest)
    returns (r: SegmentResponse, next: nat)
    modifies loss
    ensures var n := Packets(req.sizeBytes);
            var lost := Lost(loss.draws, old(loss.State()), n);
            var time := ConnectionTime(link, req.sizeBytes, Offsets(lost, 0), wallClock);
            && loss.State() == After(loss.draws, old(loss.State()), n)
            && (req.sizeBytes == 0 ==> r == EmptyResponse(req.segmentID) && next == cursor && loss.State() == old(loss.State()))
            && (req.sizeBytes > 0 ==>
                  r == SingleResponse(link, draws, cursor, req, time, |lost|) && next == cursor + StreamDraws(link, 1))
  {
    if req.sizeBytes == 0 {
      EmptyStream(loss.draws, loss.State(), 0);
      return EmptyResponse(req.segmentID), cursor;
    }
    StreamRange(loss.draws, loss.State(), req.sizeBytes, 0);
    var losses := loss.SimulatePackets(Packets(req.sizeBytes));
    var time := ConnectionTimeOf(link, req.sizeBytes, Offsets(losses, 0), wallClock);
    var j1, j2;
    j1, next := SampleJitter(link, draws, cursor);
    var ttfb := link.rtt / 2 + j1;
    j2, next := SampleJitter(link, draws, next);
    var total := ttfb + time + j2;
    r := SegmentResponse(req.segmentID, req.sizeBytes, ttfb, total, |losses|, 0, Goodput(req.sizeBytes, total));
  }

  class ModeledTCPTransport {
    const link: Link
    const draws: Draws
    const loss: LossSimulator
    var cursor: nat
    var wallClock: nat

    constructor (link: Link, gen: Generator, seed: int)
      ensures this.link == link && draws == gen.floatsAfterInt(seed) && cursor == 0 && wallClock == 0
      ensures fresh(loss) && loss.draws == gen.floats(gen.firstInt(seed))
      ensures loss.State() == Channel(NewModel(link.loss), false, 0)
    {
      this.link := link;
      draws := gen.floatsAfterInt(seed);
      loss := new LossSimulator(link.loss, gen.floats(gen.firstInt(seed)));
      cursor, wallClock := 0, 0;
    }

    /** TCP and TLS 1.3: two round trips, or one and a half when resuming. */
    method Handshake(cancelled: bool, resumption: bool) returns (r: Result<nat, string>)
      modifies this`cursor
      ensures cancelled ==> r == Err(CANCELLED) && cursor == old(cursor)
      ensures !cancelled ==>
                && r == Ok((if resumption then link.rtt + link.rtt / 2 else 2 * link.rtt) + Jitter(link, draws, old(cursor)))
                && cursor == old(cursor) + JitterDraws(link)
    {
      if cancelled {
        return Err(CANCELLED);
      }
      var total := if resumption then link.rtt + link.rtt / 2 else 2 * link.rtt;
      var j;
      j, cursor := SampleJitter(link, draws, cursor);
      return Ok(total + j);
    }

    /** One stream; the clock advances by its whole latency. */
    method FetchSegment(cancelled: bool, req: SegmentRequest) returns (r: Result<SegmentResponse, string>)
      modifies this, loss
      ensures cancelled ==> r == Err(CANCELLED) && unchanged(this) && unchanged(loss)
      ensures !cancelled && req.sizeBytes == 0 ==> r == Ok(EmptyResponse(req.segmentID)) && unchanged(this)
      ensures !cancelled && req.sizeBytes > 0 ==>
                var lost := Lost(loss.draws, old(loss.State()), Packets(req.sizeBytes));
                var time := ConnectionTime(link, req.sizeBytes, Offsets(lost, 0), old(wallClock));
                var out := SingleResponse(link, draws, old(cursor), req, time, |lost|);
                && r == Ok(out)
                && wallClock == old(wallClock) + out.totalLatency
                && cursor == old(cursor) + StreamDraws(link, 1)
      ensures !cancelled ==> loss.State() == After(loss.draws, old(loss.State()), Packets(req.sizeBytes))
    {
      if cancelled {
        return Err(CANCELLED);
      }
      var out;
      out, cursor := FetchAlone(link, draws, cursor, wallClock, loss, req);
      wallClock := wallClock + out.totalLatency;
      return Ok(out);
    }

    /** All streams share one byte stream: any loss makes every stream wait for the whole connection. */
    method FetchConcurrent(cancelled: bool, reqs: seq<SegmentRequest>) returns (r: Result<seq<SegmentResponse>, string>)
      modifies this, loss
      ensures cancelled ==> r == Err(CANCELLED) && unchanged(this) && unchanged(loss)
      ensures !cancelled && reqs == [] ==> r == Ok([]) && unchanged(this) && unchanged(loss)
      ensures !cancelled && reqs != [] ==>
                var total := TotalBytes(reqs);
                var lost := Lost(loss.draws, old(loss.State()), Packets(total));
                var time := ConnectionTime(link, total, Offsets(lost, 0), old(wallClock));
                && r == Ok(TcpResponses(link, draws, old(cursor), reqs, time, |lost|, total))
                && wallClock == old(wallClock) + time
                && cursor == old(cursor) + StreamDraws(link, |reqs|)
                && loss.State() == After(loss.draws, old(loss.State()), Packets(total))
    {
      if cancelled {
        return Err(CANCELLED);
      }
      if reqs == [] {
        return Ok([]);
      }
      var totalBytes := SumBytes(reqs);
      StreamRange(loss.draws, loss.State(), totalBytes, 0);
      var losses := loss.SimulatePackets(Packets(totalBytes));
      var time := ConnectionTimeOf(link, totalBytes, Offsets(losses, 0), wallClock);
      var out := Respond(reqs, time, |losses|, totalBytes);
      wallClock := wallClock + time;
      return Ok(out);
    }

    /** The response loop of FetchConcurrent. */
    method Respond(reqs: seq<SegmentRequest>, time: nat, holEvents: nat, totalBytes: nat) returns (out: seq<SegmentResponse>)
      modifies this`cursor
      ensures out == TcpResponses(link, draws, old(cursor), reqs, time, holEvents, totalBytes)
      ensures cursor == old(cursor) + StreamDraws(link, |reqs|)
    {
      hide TcpResponses;
      hide Jitter;
      hide Share;
      hide Goodput;
      out := [];
      ghost var all := TcpResponses(link, draws, cursor, reqs, time, holEvents, totalBytes);
      assert reqs[0..] == reqs && [] + all == all;
      for i := 0 to |reqs|
        invariant out + TcpResponses(link, draws, cursor, reqs[i..], time, holEvents, totalBytes) == all
        invariant cursor == old(cursor) + StreamDraws(link, i)
      {
        TcpResponsesStep(link, draws, cursor, reqs, i, time, holEvents, totalBytes);
        ghost var c := cursor;
        var j1, j2;
        j1, cursor := SampleJitter(link, draws, cursor);
        var ttfb := link.rtt / 2 + j1;
        var streamTime: int := time;
        if holEvents == 0 {
          streamTime := if totalBytes == 0 then link.notANumber else Share(time, reqs[i].sizeBytes, totalBytes);
        }
        j2, cursor := SampleJitter(link, draws, cursor);
        var total := ttfb + streamTime + j2;
        var r := SegmentResponse(reqs[i].segmentID, reqs[i].sizeBytes, ttfb, total, holEvents, holEvents,
                                 Goodput(reqs[i].sizeBytes, total));
        assert r == TcpResponse(link, draws, c, reqs[i], time, holEvents, totalBytes);
        out := out + [r];
      }
      assert TcpResponses(link, draws, cursor, reqs[|reqs|..], time, holEvents, totalBytes) == [];
    }
  }

  class ModeledQUICTransport {
    const link: Link
    const draws: Draws
    const loss: LossSimulator
    const zeroRTTSuccessRate: real
    var cursor: nat
    var wallClock: nat

    constructor (link: Link, gen: Generator, seed: int, zeroRTTRate: real)
      ensures this.link == link && draws == gen.floatsAfterInt(seed) && cursor == 0 && wallClock == 0
      ensures fresh(loss) && loss.draws == gen.floats(gen.firstInt(seed))
      ensures loss.State() == Channel(NewModel(link.loss), false, 0)
      ensures zeroRTTSuccessRate == if zeroRTTRate < 0.0 then 0.0 else if zeroRTTRate > 1.0 then 1.0 else zeroRTTRate
    {
      this.link := link;
      draws := gen.floatsAfterInt(seed);
      loss := new LossSimulator(link.loss, gen.floats(gen.firstInt(seed)));
      zeroRTTSuccessRate := if zeroRTTRate < 0.0 then 0.0 else if zeroRTTRate > 1.0 then 1.0 else zeroRTTRate;
      cursor, wallClock := 0, 0;
    }

    /** One round trip, or none when a resumption succeeds with 0-RTT; only a resumption draws for it. */
    method Handshake(cancelled: bool, resumption: bool) returns (r: Result<nat, string>)
      modifies this`cursor
      ensures cancelled ==> r == Err(CANCELLED) && cursor == old(cursor)
      ensures !cancelled ==>
                var c := old(cursor) + (if resumption then 1 else 0);
                var early := resumption && draws(old(cursor)) < zeroRTTSuccessRate;
                && r == Ok((if early then 0 else link.rtt) + Jitter(link, draws, c))
                && cursor == c + JitterDraws(link)
    {
      if cancelled {
        return Err(CANCELLED);
      }
      var total := link.rtt;
      if resumption {
        if draws(cursor) < zeroRTTSuccessRate {
          total := 0;
        }
        cursor := cursor + 1;
      }
      var j;
      j, cursor := SampleJitter(link, draws, cursor);
      return Ok(total + j);
    }

    /** As for TCP: a stream on its own has nothing to share. */
    method FetchSegment(cancelled: bool, req: SegmentRequest) returns (r: Result<SegmentResponse, string>)
      modifies this, loss
      ensures cancelled ==> r == Err(CANCELLED) && unchanged(this) && unchanged(loss)
      ensures !cancelled && req.sizeBytes == 0 ==> r == Ok(EmptyResponse(req.segmentID)) && unchanged(this)
      ensures !cancelled && req.sizeBytes > 0 ==>
                var lost := Lost(loss.draws, old(loss.State()), Packets(req.sizeBytes));
                var time := ConnectionTime(link, req.sizeBytes, Offsets(lost, 0), old(wallClock));
                var out := SingleResponse(link, draws, old(cursor), req, time, |lost|);
                && r == Ok(out)
                && wallClock == old(wallClock) + out.totalLatency
                && cursor == old(cursor) + StreamDraws(link, 1)
      ensures !cancelled ==> loss.State() == After(loss.draws, old(loss.State()), Packets(req.sizeBytes))
    {
      if cancelled {
        return Err(CANCELLED);
      }
      var out;
      out, cursor := FetchAlone(link, draws, cursor, wallClock, loss, req);
      wallClock := wallClock + out.totalLatency;
      return Ok(out);
    }

    /** Every stream keeps its share and waits one round trip for each of its own losses only. */
    method FetchConcurrent(cancelled: bool, reqs: seq<SegmentRequest>) returns (r: Result<seq<SegmentResponse>, string>)
      modifies this, loss
      ensures cancelled ==> r == Err(CANCELLED) && unchanged(this) && unchanged(loss)
      ensures !cancelled && reqs == [] ==> r == Ok([]) && unchanged(this) && unchanged(loss)
      ensures !cancelled && reqs != [] ==>
                var total := TotalBytes(reqs);
                var lost := StreamLosses(loss.draws, old(loss.State()), reqs);
                var time := ConnectionTime(link, total, StreamOffsets(loss.draws, old(loss.State()), reqs, 0), old(wallClock));
                var out := QuicResponses(link, draws, old(cursor), reqs, time, lost, total);
                && r == Ok(out)
                && wallClock == old(wallClock) + MaxLatency(out)
                && cursor == old(cursor) + StreamDraws(link, PositiveStreams(reqs))
                && loss.State() == After(loss.draws, old(loss.State()), TotalPackets(reqs))
    {
      if cancelled {
        return Err(CANCELLED);
      }
      if reqs == [] {
        return Ok([]);
      }
      var totalBytes := SumBytes(reqs);
      ghost var lost := StreamLosses(loss.draws, loss.State(), reqs);
      StreamOffsetsIncrease(loss.draws, loss.State(), reqs, 0);
      var perStreamLosses, allLossOffsets := SimulateStreams(reqs);
      var time := ConnectionTimeOf(link, totalBytes, allLossOffsets, wallClock);
      var out, maxEnd := Respond(reqs, time, perStreamLosses, lost, totalBytes);
      wallClock := wallClock + maxEnd;
      return Ok(out);
    }

    /** The per-stream loss loop of FetchConcurrent. */
    method SimulateStreams(reqs: seq<SegmentRequest>) returns (perStreamLosses: seq<nat>, allLossOffsets: seq<int>)
      modifies loss
      ensures var lost := StreamLosses(loss.draws, old(loss.State()), reqs);
              |perStreamLosses| == |reqs| && forall i :: 0 <= i < |reqs| ==> perStreamLosses[i] == |lost[i]|
      ensures allLossOffsets == StreamOffsets(loss.draws, old(loss.State()), reqs, 0)
      ensures loss.State() == After(loss.draws, old(loss.State()), TotalPackets(reqs))
    {
      hide StreamLosses;
      hide StreamOffsets;
      hide TotalPackets;
      hide After;
      hide Lost;
      hide Offsets;
      perStreamLosses, allLossOffsets := [], [];
      var byteOffset := 0;
      ghost var d, start := loss.draws, loss.State();
      ghost var lost, offsets := StreamLosses(d, start, reqs), StreamOffsets(d, start, reqs, 0);
      ghost var end := After(d, start, TotalPackets(reqs));
      ghost var seen: seq<seq<int>> := [];
      assert reqs[0..] == reqs && [] + lost == lost && [] + offsets == offsets;
      for i := 0 to |reqs|
        invariant |seen| == |perStreamLosses| == i
        invariant forall k :: 0 <= k < i ==> perStreamLosses[k] == |seen[k]|
        invariant seen + StreamLosses(d, loss.State(), reqs[i..]) == lost
        invariant allLossOffsets + StreamOffsets(d, loss.State(), reqs[i..], byteOffset) == offsets
        invariant After(d, loss.State(), TotalPackets(reqs[i..])) == end
      {
        StreamsStep(d, loss.State(), reqs, i, byteOffset);
        if reqs[i].sizeBytes == 0 {
          EmptyStream(d, loss.State(), byteOffset);
          perStreamLosses := perStreamLosses + [0];
          seen := seen + [[]];
          assert allLossOffsets + [] == allLossOffsets;
          continue;
        }
        var losses := loss.SimulatePackets(Packets(reqs[i].sizeBytes));
        perStreamLosses := perStreamLosses + [|losses|];
        seen := seen + [losses];
        allLossOffsets := allLossOffsets + Offsets(losses, byteOffset);
        byteOffset := byteOffset + reqs[i].sizeBytes;
      }
      NoStreams(d, loss.State(), byteOffset);
      assert seen == lost;
    }

    /** The response loop of FetchConcurrent. */
    method Respond(reqs: seq<SegmentRequest>, time: nat, perStreamLosses: seq<nat>, ghost lost: seq<seq<int>>, totalBytes: nat)
      returns (out: seq<SegmentResponse>, maxEnd: nat)
      requires |perStreamLosses| == |lost| == |reqs| && totalBytes == TotalBytes(reqs)
      requires forall i :: 0 <= i < |reqs| ==> perStreamLosses[i] == |lost[i]|
      modifies this`cursor
      ensures out == QuicResponses(link, draws, old(cursor), reqs, time, lost, totalBytes)
      ensures maxEnd == MaxLatency(out)
      ensures cursor == old(cursor) + StreamDraws(link, PositiveStreams(reqs))
    {
      hide QuicResponses;
      hide TotalBytes;
      hide Jitter;
      hide Share;
      hide Goodput;
      hide PositiveStreams;
      out, maxEnd := [], 0;
      NoPositiveStreams();
      ghost var all := QuicResponses(link, draws, cursor, reqs, time, lost, totalBytes);
      assert reqs[..0] == [] && reqs[0..] == reqs && lost[0..] == lost && [] + all == all;
      for i := 0 to |reqs|
        invariant totalBytes > 0 || TotalBytes(reqs[i..]) == 0
        invariant out + QuicResponses(link, draws, cursor, reqs[i..], time, lost[i..], totalBytes) == all
        invariant maxEnd == MaxLatency(out)
        invariant cursor == old(cursor) + StreamDraws(link, PositiveStreams(reqs[..i]))
      {
        PositiveStep(reqs, i);
        QuicResponsesStep(link, draws, cursor, reqs, i, time, lost, totalBytes);
        ghost var c := cursor;
        var r;
        if reqs[i].sizeBytes == 0 {
          r := EmptyResponse(reqs[i].segmentID);
        } else {
          var streamTime := Share(time, reqs[i].sizeBytes, totalBytes);
          var streamLossPenalty := perStreamLosses[i] * link.rtt;
          var j1, j2;
          j1, cursor := SampleJitter(link, draws, cursor);
          var ttfb := link.rtt / 2 + j1;
          j2, cursor := SampleJitter(link, draws, cursor);
          var total := ttfb + (streamTime + streamLossPenalty) + j2;
          if total > maxEnd {
            maxEnd := total;
          }
          r := SegmentResponse(reqs[i].segmentID, reqs[i].sizeBytes, ttfb, total, perStreamLosses[i], 0,
                               Goodput(reqs[i].sizeBytes, total));
          assert r == QuicResponse(link, draws, c, reqs[i], time, |lost[i]|, totalBytes);
        }
        MaxLatencySnoc(out, r);
        out := out + [r];
      }
      assert QuicResponses(link, draws, cursor, reqs[|reqs|..], time, lost[|reqs|..], totalBytes) == [];
      assert reqs[..|reqs|] == reqs;
    }
  }

  lemma NoPositiveStreams()
    ensures PositiveStreams([]) == 0
  {
  }

  lemma {:induction false} PositiveStep(reqs: seq<SegmentRequest>, i: nat)
    requires i < |reqs|
    ensures PositiveStreams(reqs[..i + 1]) == PositiveStreams(reqs[..i]) + (if reqs[i].sizeBytes > 0 then 1 else 0)
    decreases i
  {
    if i > 0 {
      PositiveStep(reqs[1..], i - 1);
      assert reqs[..i + 1][1..] == reqs[1..][..i] && reqs[..i][1..] == reqs[1..][..i - 1];
    }
  }

  lemma NoStreams(d: Draws, c: Channel, base: int)
    ensures StreamLosses(d, c, []) == [] && StreamOffsets(d, c, [], base) == [] && After(d, c, TotalPackets([])) == c
  {
  }

  lemma {:induction false} MaxLatencySnoc(rs: seq<SegmentResponse>, r: SegmentResponse)
    ensures MaxLatency(rs + [r]) == Max(MaxLatency(rs), r.totalLatency)
  {
    if rs != [] {
      MaxLatencySnoc(rs[1..], r);
      assert (rs + [r])[1..] == rs[1..] + [r];
    }
  }
}
