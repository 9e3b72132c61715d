/**
 One stream of a batch (internal/transport/modeled/tcp.go:148-261, quic.go:128-232): its
 packets, where its losses fall on the connection, and every field of its response.
 */
module TransportStreams {
  import opened Wrappers
  import opened Reno
  import opened LossModel
  import opened TransportTypes
  import opened TransportModel
  import opened TransportTheorems

  /** The packets of a stream hold its bytes, and the last one is not empty. */
  lemma {:induction false} PacketsCover(size: nat)
    ensures var n := Packets(size); size <= n * MTU_PAYLOAD < size + MTU_PAYLOAD
  {
  }

  /** Packet k of a stream that begins at byte base is lost, and o is its first byte. */
  ghost predicate LostAt(fates: seq<bool>, base: int, k: int, o: int) {
    0 <= k < |fates| && fates[k] && o == base + k * MTU_PAYLOAD
  }

  /** A loss offset is the first byte of a lost packet, and every lost packet has one. */
  lemma {:induction false} OffsetsExact(d: Draws, c: Channel, size: nat, base: int, o: int)
    ensures var n := Packets(size);
            o in Offsets(Lost(d, c, n), base) <==> exists k :: LostAt(Fates(d, c, n), base, k, o)
  {
    hide Lost;
    hide Packets;
    hide Offsets;
    var n := Packets(size);
    var lost := Lost(d, c, n);
    LostExact(d, c, n);
    OffsetMembers(lost, base, o);
    if o in Offsets(lost, base) {
      var k :| k in lost && o == base + k * MTU_PAYLOAD;
      assert LostAt(Fates(d, c, n), base, k, o);
    }
  }

  lemma {:induction false} OffsetMembers(lost: seq<int>, base: int, o: int)
    ensures o in Offsets(lost, base) <==> exists k :: k in lost && o == base + k * MTU_PAYLOAD
  {
    var os := Offsets(lost, base);
    assert forall i :: 0 <= i < |lost| ==> os[i] == base + lost[i] * MTU_PAYLOAD;
    if o in os {
      var i :| 0 <= i < |os| && os[i] == o;
      assert lost[i] in lost;
    }
    if k :| k in lost && o == base + k * MTU_PAYLOAD {
      var i :| 0 <= i < |lost| && lost[i] == k;
      assert os[i] in os;
    }
  }

  /** The channel that stream i finds. */
  lemma {:induction false} LaterStream(d: Draws, c: Channel, reqs: seq<SegmentRequest>, i: nat)
    requires 0 < i <= |reqs|
    ensures After(d, c, TotalPackets(reqs[..i])) == After(d, After(d, c, Packets(reqs[0].sizeBytes)), TotalPackets(reqs[1..][..i - 1]))
  {
    hide After;
    hide Packets;
    assert reqs[..i][1..] == reqs[1..][..i - 1];
    FatesSplit(d, c, Packets(reqs[0].sizeBytes), TotalPackets(reqs[1..][..i - 1]));
  }

  /** Stream i of a QUIC batch draws its fates after the packets of the streams before it. */
  lemma {:induction false} LossesAt(d: Draws, c: Channel, reqs: seq<SegmentRequest>, i: nat)
    requires i < |reqs|
    ensures StreamLosses(d, c, reqs)[i] == Lost(d, After(d, c, TotalPackets(reqs[..i])), Packets(reqs[i].sizeBytes))
    decreases |reqs|
  {
    hide Lost;
    hide After;
    hide Packets;
    if i == 0 {
      assert reqs[..0] == [];
      NoPackets(d, c);
    } else {
      LossesAt(d, After(d, c, Packets(reqs[0].sizeBytes)), reqs[1..], i - 1);
      LaterStream(d, c, reqs, i);
    }
  }

  /** Its losses come after those of the streams before it, at the offsets where its own bytes lie. */
  lemma {:induction false} OffsetsAt(d: Draws, c: Channel, reqs: seq<SegmentRequest>, base: int, i: nat)
    requires i < |reqs|
    ensures var lost, o := StreamLosses(d, c, reqs), StreamOffsets(d, c, reqs, base); var before := CountAll(lost[..i]);
            && before + |lost[i]| <= |o|
            && o[before..before + |lost[i]|] == Offsets(lost[i], base + StreamStart(reqs, i))
    decreases |reqs|
  {
    hide Lost;
    hide After;
    hide Packets;
    hide Offsets;
    hide CountAll;
    var n := Packets(reqs[0].sizeBytes);
    var first, c' := Lost(d, c, n), After(d, c, n);
    var later := StreamLosses(d, c', reqs[1..]);
    var head, tail := Offsets(first, base), StreamOffsets(d, c', reqs[1..], base + reqs[0].sizeBytes);
    OffsetsCount(first, base);
    assert StreamLosses(d, c, reqs) == [first] + later && StreamOffsets(d, c, reqs, base) == head + tail;
    if i == 0 {
      SliceHead(first, later, head, tail);
    } else {
      OffsetsAt(d, c', reqs[1..], base + reqs[0].sizeBytes, i - 1);
      CountFirst(first, later, i);
      SliceTail(head, tail, CountAll(later[..i - 1]), |later[i - 1]|);
    }
  }

  lemma SliceHead(first: seq<int>, later: seq<seq<int>>, head: seq<int>, tail: seq<int>)
    ensures CountAll(([first] + later)[..0]) == 0 && (head + tail)[0..0 + |head|] == head
  {
  }

  lemma {:induction false} CountFirst(l: seq<int>, rest: seq<seq<int>>, i: nat)
    requires 0 < i <= |rest| + 1
    ensures CountAll(([l] + rest)[..i]) == |l| + CountAll(rest[..i - 1])
  {
    assert ([l] + rest)[..i] == [l] + rest[..i - 1];
    assert ([l] + rest[..i - 1])[1..] == rest[..i - 1];
  }

  lemma {:induction false} SliceTail(head: seq<int>, tail: seq<int>, before: nat, count: nat)
    requires before + count <= |tail|
    ensures (head + tail)[|head| + before..|head| + before + count] == tail[before..before + count]
  {
  }

  lemma OffsetsCount(lost: seq<int>, base: int)
    ensures |Offsets(lost, base)| == |lost|
  {
  }

  /** Connection time: no less than the congestion window or the link allows, and no more than the slower of the two. */
  lemma {:induction false} SlowerOfTwo(link: Link, bytes: nat, offsets: seq<int>, wallClock: nat)
    ensures var t, window := ConnectionTime(link, bytes, offsets, wallClock), TransferRtts(bytes, offsets) * link.rtt;
            var mbps := link.bandwidth(wallClock);
            var rate := if mbps <= 0.0 then 1.0 else mbps;
            && t >= window && rate * (t as real + 1.0) > (bytes * 8) as real * 1000.0
            && (t == window || rate * t as real <= (bytes * 8) as real * 1000.0)
  {
    hide TransferRtts;
    hide BandwidthTime;
    var mbps := link.bandwidth(wallClock);
    var t, b := ConnectionTime(link, bytes, offsets, wallClock), BandwidthTime(bytes, mbps);
    LinkCarries(bytes, mbps);
    RateOrder(Rate(mbps), b, t);
  }

  lemma RateOrder(rate: real, b: nat, t: nat)
    requires rate > 0.0 && b <= t
    ensures rate * (b as real + 1.0) <= rate * (t as real + 1.0)
  {
  }

  /** share is the part of time that size is of total, rounded down. */
  ghost predicate IsShare(share: int, time: nat, size: nat, total: nat) {
    total * share <= time * size < total * share + total
  }

  /** What every response says about its own request. */
  ghost predicate Reports(r: SegmentResponse, req: SegmentRequest, losses: nat) {
    && r.segmentID == req.segmentID && r.bytesReceived == req.sizeBytes && r.retransmitCount == losses
    && if r.totalLatency > 0 then r.goodputMbps * r.totalLatency as real == 8000.0 * req.sizeBytes as real else r.goodputMbps == 0.0
  }

  /** The response of a TCP stream that draws its jitter from c on. */
  ghost predicate TcpFields(link: Link, d: Draws, c: nat, req: SegmentRequest, time: nat, losses: nat, total: nat, r: SegmentResponse) {
    var transfer := r.totalLatency - r.ttfb - Jitter(link, d, c + JitterDraws(link));
    && Reports(r, req, losses) && r.holBlockEvents == losses
    && r.ttfb == link.rtt / 2 + Jitter(link, d, c)
    && if losses > 0 then transfer == time
       else if total == 0 then transfer == link.notANumber
       else IsShare(transfer, time, req.sizeBytes, total)
  }

  lemma {:induction false} TcpHead(link: Link, d: Draws, c: nat, req: SegmentRequest, time: nat, losses: nat, total: nat)
    ensures TcpFields(link, d, c, req, time, losses, total, TcpResponse(link, d, c, req, time, losses, total))
  {
    hide Jitter;
    hide JitterDraws;
    hide Share;
    hide Goodput;
    var r := TcpResponse(link, d, c, req, time, losses, total);
    GoodputRate(req.sizeBytes, r.totalLatency);
    if total > 0 {
      ShareBounds(time, req.sizeBytes, total);
    }
  }

  /**
   Stream i of a TCP batch: any loss of the connection holds it to the end, counts as its own
   retransmission and blocks it; without loss it takes its share of the connection time.
   */
  lemma {:induction false} TcpStream(link: Link, d: Draws, cursor: nat, reqs: seq<SegmentRequest>, time: nat, losses: nat,
                                     total: nat, i: nat)
    requires i < |reqs|
    ensures TcpFields(link, d, cursor + StreamDraws(link, i), reqs[i], time, losses, total,
                      TcpResponses(link, d, cursor, reqs, time, losses, total)[i])
    decreases |reqs|
  {
    hide TcpFields;
    hide TcpResponse;
    if i > 0 {
      TcpStream(link, d, cursor + 2 * JitterDraws(link), reqs[1..], time, losses, total, i - 1);
    } else {
      TcpHead(link, d, cursor, reqs[0], time, losses, total);
    }
  }

  /** The response of a QUIC stream that draws its jitter from c on. */
  ghost predicate QuicFields(link: Link, d: Draws, c: nat, req: SegmentRequest, time: nat, losses: nat, total: nat, r: SegmentResponse) {
    var transfer := r.totalLatency - r.ttfb - Jitter(link, d, c + JitterDraws(link));
    if req.sizeBytes == 0 then r == SegmentResponse(req.segmentID, 0, 0, 0, 0, 0, 0.0)
    else
      && Reports(r, req, losses) && r.holBlockEvents == 0
      && r.ttfb == link.rtt / 2 + Jitter(link, d, c)
      && IsShare(transfer - losses * link.rtt, time, req.sizeBytes, total)
  }

  lemma {:induction false} QuicHead(link: Link, d: Draws, c: nat, req: SegmentRequest, time: nat, losses: nat, total: nat)
    ensures req.sizeBytes == 0 ==> QuicFields(link, d, c, req, time, losses, total, EmptyResponse(req.segmentID))
    ensures req.sizeBytes > 0 && total > 0 ==>
              QuicFields(link, d, c, req, time, losses, total, QuicResponse(link, d, c, req, time, losses, total))
  {
    hide Jitter;
    hide JitterDraws;
    hide Share;
    hide Goodput;
    if total > 0 {
      GoodputRate(req.sizeBytes, QuicResponse(link, d, c, req, time, losses, total).totalLatency);
      ShareBounds(time, req.sizeBytes, total);
    }
  }

  /**
   Stream i of a QUIC batch: its share of the connection time, and a round trip for each of its
   own losses; no other stream's loss blocks it. A stream without bytes answers at once.
   */
  lemma {:induction false} QuicStream(link: Link, d: Draws, cursor: nat, reqs: seq<SegmentRequest>, time: nat,
                                      lost: seq<seq<int>>, total: nat, i: nat)
    requires |lost| == |reqs| && (total > 0 || TotalBytes(reqs) == 0) && i < |reqs|
    ensures QuicFields(link, d, cursor + StreamDraws(link, PositiveStreams(reqs[..i])), reqs[i], time, |lost[i]|, total,
                       QuicResponses(link, d, cursor, reqs, time, lost, total)[i])
    decreases |reqs|
  {
    hide QuicFields;
    hide QuicResponse;
    if i > 0 {
      var next := if reqs[0].sizeBytes == 0 then cursor else cursor + 2 * JitterDraws(link);
      QuicStream(link, d, next, reqs[1..], time, lost[1..], total, i - 1);
      assert reqs[..i][1..] == reqs[1..][..i - 1];
    } else {
      assert reqs[..0] == [];
      QuicHead(link, d, cursor, reqs[0], time, |lost[0]|, total);
    }
  }

  /** Jitter takes the next two draws, in this order, or none at all. */
  lemma JitterDrawn(link: Link, d: Draws, cursor: nat)
    ensures if link.jitterMs <= 0.0 then Jitter(link, d, cursor) == 0 && JitterDraws(link) == 0
            else Jitter(link, d, cursor) == link.jitter(d(cursor), d(cursor + 1)) && JitterDraws(link) == 2
  {
  }

  /** A stream on its own, over either transport: the whole connection time, and nothing to block it. */
  lemma {:induction false} SingleStream(link: Link, d: Draws, cursor: nat, req: SegmentRequest, time: nat, losses: nat)
    ensures var r := SingleResponse(link, d, cursor, req, time, losses);
            && Reports(r, req, losses) && r.holBlockEvents == 0
            && r.ttfb == link.rtt / 2 + Jitter(link, d, cursor)
            && r.totalLatency == r.ttfb + time + Jitter(link, d, cursor + JitterDraws(link))
  {
    hide Goodput;
    hide Jitter;
    GoodputRate(req.sizeBytes, SingleResponse(link, d, cursor, req, time, losses).totalLatency);
  }
}
