/**
 What distinguishes the two transports, and what does not
 (internal/transport/modeled/quic.go:128-232, tcp.go:28-46 and 148-261).
 */
module TransportTheorems {
  import opened Reno
  import opened LossModel
  import opened TransportTypes
  import opened TransportModel

  // ----- per-stream counts partition the losses of the connection -----

  function CountAll(lost: seq<seq<int>>): nat {
    if lost == [] then 0 else |lost[0]| + CountAll(lost[1..])
  }

  lemma {:induction false} CountsPartition(d: Draws, c: Channel, reqs: seq<SegmentRequest>, base: int)
    ensures CountAll(StreamLosses(d, c, reqs)) == |StreamOffsets(d, c, reqs, base)|
    decreases |reqs|
  {
    if reqs != [] {
      var n := Packets(reqs[0].sizeBytes);
      var rest := StreamLosses(d, After(d, c, n), reqs[1..]);
      assert StreamLosses(d, c, reqs)[1..] == rest;
      CountsPartition(d, After(d, c, n), reqs[1..], base + reqs[0].sizeBytes);
    }
  }

  /** First byte of stream i on the connection. */
  function StreamStart(reqs: seq<SegmentRequest>, i: nat): nat
    requires i <= |reqs|
  {
    if i == 0 then 0 else reqs[0].sizeBytes + StreamStart(reqs[1..], i - 1)
  }

  /** The offsets are the streams' own offsets one after the other, each inside its stream's byte range. */
  lemma {:induction false} OffsetsByStream(d: Draws, c: Channel, reqs: seq<SegmentRequest>, base: int, i: nat)
    requires i < |reqs|
    ensures var o := StreamOffsets(d, c, reqs, base);
            var before := CountAll(StreamLosses(d, c, reqs)[..i]);
            var count := |StreamLosses(d, c, reqs)[i]|;
            && before + count <= |o|
            && forall k :: before <= k < before + count ==>
                 base + StreamStart(reqs, i) <= o[k] < base + StreamStart(reqs, i) + reqs[i].sizeBytes
    decreases |reqs|
  {
    var n := Packets(reqs[0].sizeBytes);
    var all, rest := StreamLosses(d, c, reqs), StreamLosses(d, After(d, c, n), reqs[1..]);
    var head, tail := Offsets(Lost(d, c, n), base), StreamOffsets(d, After(d, c, n), reqs[1..], base + reqs[0].sizeBytes);
    assert all == [Lost(d, c, n)] + rest;
    var o := StreamOffsets(d, c, reqs, base);
    assert o == head + tail;
    if i == 0 {
      StreamRange(d, c, reqs[0].sizeBytes, base);
      assert all[..0] == [];
    } else {
      OffsetsByStream(d, After(d, c, n), reqs[1..], base + reqs[0].sizeBytes, i - 1);
      assert all[..i][1..] == rest[..i - 1];
      assert all[..i][0] == Lost(d, c, n);
      assert all[i] == rest[i - 1];
      var before := CountAll(rest[..i - 1]);
      forall k | |head| + before <= k < |head| + before + |rest[i - 1]|
        ensures base + StreamStart(reqs, i) <= o[k] < base + StreamStart(reqs, i) + reqs[i].sizeBytes
      {
        assert o[k] == tail[k - |head|];
      }
    }
  }

  // ----- accounting of transfer times -----

  /** Jitter on the completion of n streams, which draw for their first bytes as well. */
  function CompletionJitter(link: Link, d: Draws, cursor: nat, n: nat): nat
    decreases n
  {
    if n == 0 then 0
    else Jitter(link, d, cursor + JitterDraws(link)) + CompletionJitter(link, d, cursor + 2 * JitterDraws(link), n - 1)
  }

  /** It is the same for the same draws from the same cursor, and there is none on a link without jitter. */
  lemma {:induction false} NoCompletionJitter(link: Link, d: Draws, cursor: nat, n: nat)
    requires link.jitterMs <= 0.0
    ensures CompletionJitter(link, d, cursor, n) == 0
    decreases n
  {
    if n > 0 {
      NoCompletionJitter(link, d, cursor + 2 * JitterDraws(link), n - 1);
    }
  }

  /** Sum over the streams of the time between first byte and completion. */
  function TransferSum(rs: seq<SegmentResponse>): int {
    if rs == [] then 0 else rs[0].totalLatency - rs[0].ttfb + TransferSum(rs[1..])
  }

  lemma ShareBounds(time: nat, size: nat, total: nat)
    requires total > 0
    ensures total * Share(time, size, total) <= time * size < total * Share(time, size, total) + total
  {
  }

  /** Sum of shares, scaled by the total so that no division is left. */
  lemma {:induction false} QuicTransferSum(link: Link, d: Draws, cursor: nat, reqs: seq<SegmentRequest>, time: nat,
                                           lost: seq<seq<int>>, total: nat)
    requires |lost| == |reqs| && total > 0
    requires forall i :: 0 <= i < |reqs| ==> reqs[i].sizeBytes > 0
    ensures var sum := TransferSum(QuicResponses(link, d, cursor, reqs, time, lost, total));
            var shares := sum - CountAll(lost) * link.rtt - CompletionJitter(link, d, cursor, |reqs|);
            total * shares <= time * TotalBytes(reqs) <= total * shares + |reqs| * (total - 1)
    decreases |reqs|
  {
    hide Share;
    hide QuicResponse;
    hide Jitter;
    if reqs == [] {
      assert CountAll(lost) == 0;
      assert 0 * link.rtt == 0;
    } else {
      var size, n, k := reqs[0].sizeBytes, |lost[0]|, CountAll(lost[1..]);
      var rest := QuicResponses(link, d, cursor + 2 * JitterDraws(link), reqs[1..], time, lost[1..], total);
      QuicTransferSum(link, d, cursor + 2 * JitterDraws(link), reqs[1..], time, lost[1..], total);
      QuicTransferHead(link, d, cursor, reqs, time, lost, total);
      ShareBounds(time, size, total);
      SumStep(total, time, size, TotalBytes(reqs[1..]), Share(time, size, total),
              TransferSum(rest) - k * link.rtt - CompletionJitter(link, d, cursor + 2 * JitterDraws(link), |reqs| - 1), |reqs| - 1);
      Distribute(n, k, link.rtt);
    }
  }

  lemma Distribute(n: nat, k: nat, rtt: nat)
    ensures (n + k) * rtt == n * rtt + k * rtt
  {
  }

  lemma {:induction false} QuicTransferHead(link: Link, d: Draws, cursor: nat, reqs: seq<SegmentRequest>, time: nat,
                                            lost: seq<seq<int>>, total: nat)
    requires |lost| == |reqs| && reqs != [] && total > 0 && reqs[0].sizeBytes > 0
    ensures TransferSum(QuicResponses(link, d, cursor, reqs, time, lost, total)) ==
            Share(time, reqs[0].sizeBytes, total) + |lost[0]| * link.rtt + Jitter(link, d, cursor + JitterDraws(link))
            + TransferSum(QuicResponses(link, d, cursor + 2 * JitterDraws(link), reqs[1..], time, lost[1..], total))
  {
    hide Share;
    var rs := QuicResponses(link, d, cursor, reqs, time, lost, total);
    assert rs[1..] == QuicResponses(link, d, cursor + 2 * JitterDraws(link), reqs[1..], time, lost[1..], total);
  }

  lemma {:induction false} SumStep(total: nat, time: nat, size: nat, bytes: nat, share: nat, shares: int, count: nat)
    requires total > 0 && total * share <= time * size <= total * share + (total - 1)
    requires total * shares <= time * bytes <= total * shares + count * (total - 1)
    ensures total * (share + shares) <= time * (size + bytes) <= total * (share + shares) + (count + 1) * (total - 1)
  {
    assert total * (share + shares) == total * share + total * shares;
    assert time * (size + bytes) == time * size + time * bytes;
    assert (count + 1) * (total - 1) == count * (total - 1) + (total - 1);
  }

  /**
   Apart from the jitter on completion, a QUIC batch spends the connection time once,
   whatever the number of streams, plus one round trip per lost packet; flooring loses
   less than one nanosecond per stream.
   */
  lemma {:induction false} QuicAccounting(link: Link, d: Draws, cursor: nat, reqs: seq<SegmentRequest>, time: nat, lost: seq<seq<int>>)
    requires |lost| == |reqs| && reqs != []
    requires forall i :: 0 <= i < |reqs| ==> reqs[i].sizeBytes > 0
    ensures var total := TotalBytes(reqs);
            total > 0 &&
            var sum := TransferSum(QuicResponses(link, d, cursor, reqs, time, lost, total))
                       - CompletionJitter(link, d, cursor, |reqs|);
            time + CountAll(lost) * link.rtt - (|reqs| - 1) <= sum <= time + CountAll(lost) * link.rtt
  {
    var total := TotalBytes(reqs);
    QuicTransferSum(link, d, cursor, reqs, time, lost, total);
    var shares := TransferSum(QuicResponses(link, d, cursor, reqs, time, lost, total)) - CountAll(lost) * link.rtt
                  - CompletionJitter(link, d, cursor, |reqs|);
    DivideOut(total, shares, time, |reqs|);
  }

  lemma {:induction false} DivideOut(total: nat, shares: int, time: nat, count: nat)
    requires total > 0 && count > 0
    requires total * shares <= time * total <= total * shares + count * (total - 1)
    ensures time - (count - 1) <= shares <= time
  {
    if shares > time {
      ScaleUp(total, time + 1, shares);
      assert false;
    }
    if shares < time - (count - 1) {
      ScaleUp(total, shares, time - count);
      assert false;
    }
  }

  lemma ScaleUp(total: nat, a: int, b: int)
    requires a <= b
    ensures total * a <= total * b
    ensures forall t: int, c: int :: b == t - c ==> total * b == t * total - c * total
  {
  }

  /** Under TCP any loss makes every stream take the whole connection time; otherwise each takes its share. */
  lemma {:induction false} TcpAccounting(link: Link, d: Draws, cursor: nat, reqs: seq<SegmentRequest>, time: nat, losses: nat,
                                         total: nat, i: nat)
    requires total > 0 && i < |reqs|
    ensures var rs := TcpResponses(link, d, cursor, reqs, time, losses, total); var c := cursor + StreamDraws(link, i);
            && rs[i].segmentID == reqs[i].segmentID
            && rs[i].ttfb == link.rtt / 2 + Jitter(link, d, c)
            && rs[i].totalLatency - rs[i].ttfb
               == (if losses > 0 then time else Share(time, reqs[i].sizeBytes, total)) + Jitter(link, d, c + JitterDraws(link))
    decreases |reqs|
  {
    hide Jitter;
    hide Share;
    hide Goodput;
    if i > 0 {
      TcpAccounting(link, d, cursor + 2 * JitterDraws(link), reqs[1..], time, losses, total, i - 1);
    }
  }

  lemma {:induction false} TcpTransferSum(link: Link, d: Draws, cursor: nat, reqs: seq<SegmentRequest>, time: nat, losses: nat, total: nat)
    requires total > 0 && losses > 0
    ensures TransferSum(TcpResponses(link, d, cursor, reqs, time, losses, total))
            == |reqs| * time + CompletionJitter(link, d, cursor, |reqs|)
    decreases |reqs|
  {
    hide Jitter;
    hide Goodput;
    if reqs != [] {
      TcpTransferSum(link, d, cursor + 2 * JitterDraws(link), reqs[1..], time, losses, total);
      var rs := TcpResponses(link, d, cursor, reqs, time, losses, total);
      assert rs[1..] == TcpResponses(link, d, cursor + 2 * JitterDraws(link), reqs[1..], time, losses, total);
      assert |reqs| * time == (|reqs| - 1) * time + time;
    }
  }

  /** Both transports answer their requests in order. */
  lemma {:induction false} AnswersInOrder(link: Link, d: Draws, cursor: nat, reqs: seq<SegmentRequest>, time: nat, losses: nat,
                                          lost: seq<seq<int>>, total: nat, i: nat)
    requires i < |reqs| == |lost| && (total > 0 || TotalBytes(reqs) == 0)
    ensures TcpResponses(link, d, cursor, reqs, time, losses, total)[i].segmentID == reqs[i].segmentID
    ensures QuicResponses(link, d, cursor, reqs, time, lost, total)[i].segmentID == reqs[i].segmentID
    decreases |reqs|
  {
    hide Jitter;
    hide Share;
    hide Goodput;
    if i > 0 {
      AnswersInOrder(link, d, cursor + 2 * JitterDraws(link), reqs[1..], time, losses, lost[1..], total, i - 1);
      AnswersInOrder(link, d, cursor, reqs[1..], time, losses, lost[1..], total, i - 1);
    }
  }

  // ----- when both transports see the same connection -----

  /** Every stream fills its packets, except the last one that has bytes. */
  predicate Aligned(reqs: seq<SegmentRequest>) {
    reqs == [] || TotalBytes(reqs[1..]) == 0 || (reqs[0].sizeBytes % MTU_PAYLOAD == 0 && Aligned(reqs[1..]))
  }

  lemma {:induction false} WholePackets(size: nat, rest: nat)
    requires size % MTU_PAYLOAD == 0
    ensures Packets(size) * MTU_PAYLOAD == size && Packets(size + rest) == Packets(size) + Packets(rest)
  {
    var k := size / MTU_PAYLOAD;
    assert size == k * MTU_PAYLOAD;
    assert (size + rest + MTU_PAYLOAD - 1) == k * MTU_PAYLOAD + (rest + MTU_PAYLOAD - 1);
  }

  /** Counting packets from n on is starting n packets later. */
  lemma {:induction false} LostShift(fates: seq<bool>, k: int, n: nat, base: int)
    ensures Offsets(LostFrom(fates, k + n), base) == Offsets(LostFrom(fates, k), base + n * MTU_PAYLOAD)
    decreases |fates|
  {
    hide Offsets;
    if fates == [] {
      NoOffsets(base);
      NoOffsets(base + n * MTU_PAYLOAD);
    } else {
      var late, early := if fates[0] then [k + n] else [], if fates[0] then [k] else [];
      LostShift(fates[1..], k + 1, n, base);
      assert k + 1 + n == k + n + 1;
      OffsetsAppend(late, LostFrom(fates[1..], k + n + 1), base);
      OffsetsAppend(early, LostFrom(fates[1..], k + 1), base + n * MTU_PAYLOAD);
      if fates[0] {
        OneOffset(k + n, base);
        OneOffset(k, base + n * MTU_PAYLOAD);
      } else {
        NoOffsets(base);
        NoOffsets(base + n * MTU_PAYLOAD);
      }
    }
  }

  lemma NoOffsets(base: int)
    ensures Offsets([], base) == []
  {
  }

  lemma OneOffset(k: int, base: int)
    ensures Offsets([k], base) == [base + k * MTU_PAYLOAD]
  {
  }

  lemma OffsetsAppend(a: seq<int>, b: seq<int>, base: int)
    ensures Offsets(a + b, base) == Offsets(a, base) + Offsets(b, base)
  {
  }

  lemma {:induction false} NothingSent(d: Draws, c: Channel, reqs: seq<SegmentRequest>, base: int)
    requires TotalBytes(reqs) == 0
    ensures TotalPackets(reqs) == 0 && StreamOffsets(d, c, reqs, base) == []
    decreases |reqs|
  {
    if reqs != [] {
      EmptyStream(d, c, base);
      NothingSent(d, c, reqs[1..], base);
    }
  }

  /** An aligned batch is packed alike by both transports: the same packets, the same losses at the same offsets. */
  lemma {:induction false} AlignedBatches(d: Draws, c: Channel, reqs: seq<SegmentRequest>, base: int)
    requires Aligned(reqs)
    ensures TotalPackets(reqs) == Packets(TotalBytes(reqs))
    ensures StreamOffsets(d, c, reqs, base) == Offsets(Lost(d, c, Packets(TotalBytes(reqs))), base)
    decreases |reqs|
  {
    hide Offsets;
    hide Lost;
    hide After;
    hide Packets;
    if TotalBytes(reqs) == 0 {
      NothingSent(d, c, reqs, base);
      EmptyStream(d, c, base);
      EmptyOffsets(d, c, base);
    } else {
      var size, rest := reqs[0].sizeBytes, reqs[1..];
      var n, m := Packets(size), Packets(TotalBytes(rest));
      if TotalBytes(rest) == 0 {
        NothingSent(d, After(d, c, n), rest, base + size);
        assert Offsets(Lost(d, c, n), base) + [] == Offsets(Lost(d, c, n), base);
      } else {
        WholePackets(size, TotalBytes(rest));
        AlignedBatches(d, After(d, c, n), rest, base + size);
        LostSplit(d, c, n, m);
        OffsetsAppend(Lost(d, c, n), LostFrom(Fates(d, After(d, c, n), m), n), base);
        LostShift(Fates(d, After(d, c, n), m), 0, n, base);
        assert 0 + n == n;
        LostDefined(d, After(d, c, n), m);
      }
    }
  }

  lemma EmptyOffsets(d: Draws, c: Channel, base: int)
    ensures Packets(0) == 0 && Offsets(Lost(d, c, Packets(0)), base) == []
  {
  }

  lemma LostDefined(d: Draws, c: Channel, n: nat)
    ensures Lost(d, c, n) == LostFrom(Fates(d, c, n), 0)
  {
  }

  /** A channel that loses every packet. */
  function Zeros(): Draws {
    k => 0.0
  }

  lemma {:induction false} EverythingLost(c: Channel, n: nat)
    requires c.model == Uniform(1.0)
    ensures After(Zeros(), c, n).model == Uniform(1.0)
    ensures |Lost(Zeros(), c, n)| == n && forall i :: 0 <= i < n ==> Lost(Zeros(), c, n)[i] == i
  {
    AllFates(c, n);
    AllPositions(Fates(Zeros(), c, n), 0);
  }

  lemma {:induction false} AllFates(c: Channel, n: nat)
    requires c.model == Uniform(1.0)
    ensures After(Zeros(), c, n).model == Uniform(1.0)
    ensures forall i :: 0 <= i < n ==> Fates(Zeros(), c, n)[i]
    decreases n
  {
    if n > 0 {
      AllFates(Packet(Zeros(), c).1, n - 1);
    }
  }

  lemma {:induction false} AllPositions(fates: seq<bool>, base: int)
    requires forall i :: 0 <= i < |fates| ==> fates[i]
    ensures |LostFrom(fates, base)| == |fates|
    ensures forall i :: 0 <= i < |fates| ==> LostFrom(fates, base)[i] == base + i
  {
    if fates != [] {
      AllPositions(fates[1..], base + 1);
    }
  }

  lemma {:induction false} FirstPacketLost(c: Channel, reqs: seq<SegmentRequest>, base: int)
    requires c.model == Uniform(1.0) && TotalBytes(reqs) > 0
    ensures base in StreamOffsets(Zeros(), c, reqs, base)
    decreases |reqs|
  {
    var size := reqs[0].sizeBytes;
    EverythingLost(c, Packets(size));
    var head := Offsets(Lost(Zeros(), c, Packets(size)), base);
    var tail := StreamOffsets(Zeros(), After(Zeros(), c, Packets(size)), reqs[1..], base + size);
    assert StreamOffsets(Zeros(), c, reqs, base) == head + tail;
    if size > 0 {
      assert head[0] == base;
    } else {
      FirstPacketLost(After(Zeros(), c, Packets(size)), reqs[1..], base + size);
    }
  }

  lemma {:induction false} OddOffset(c: Channel, reqs: seq<SegmentRequest>, base: int)
    requires c.model == Uniform(1.0) && !Aligned(reqs) && base % MTU_PAYLOAD == 0
    ensures exists o :: o in StreamOffsets(Zeros(), c, reqs, base) && o % MTU_PAYLOAD != 0
    decreases |reqs|
  {
    hide Offsets;
    hide Lost;
    hide Packets;
    var size := reqs[0].sizeBytes;
    EverythingLost(c, Packets(size));
    var head := Offsets(Lost(Zeros(), c, Packets(size)), base);
    var after := After(Zeros(), c, Packets(size));
    var tail := StreamOffsets(Zeros(), after, reqs[1..], base + size);
    assert StreamOffsets(Zeros(), c, reqs, base) == head + tail;
    if size % MTU_PAYLOAD != 0 {
      FirstPacketLost(after, reqs[1..], base + size);
      assert base + size in head + tail;
    } else {
      OddOffset(after, reqs[1..], base + size);
      var o :| o in tail && o % MTU_PAYLOAD != 0;
      assert o in head + tail;
    }
  }

  lemma {:induction false} WholeOffsets(lost: seq<int>, o: int)
    requires o in Offsets(lost, 0)
    ensures o % MTU_PAYLOAD == 0
  {
    var i :| 0 <= i < |lost| && Offsets(lost, 0)[i] == o;
    assert o == lost[i] * MTU_PAYLOAD;
  }

  lemma {:induction false} UnalignedDiffers(c: Channel, reqs: seq<SegmentRequest>)
    requires c.model == Uniform(1.0) && !Aligned(reqs)
    ensures StreamOffsets(Zeros(), c, reqs, 0) != Offsets(Lost(Zeros(), c, Packets(TotalBytes(reqs))), 0)
  {
    hide Offsets;
    hide StreamOffsets;
    hide Lost;
    hide Packets;
    hide Aligned;
    OddOffset(c, reqs, 0);
    var o :| o in StreamOffsets(Zeros(), c, reqs, 0) && o % MTU_PAYLOAD != 0;
    var lost := Lost(Zeros(), c, Packets(TotalBytes(reqs)));
    if o in Offsets(lost, 0) {
      WholeOffsets(lost, o);
    }
  }

  /** Alignment is exactly what it takes: without it some channel shows the two transports different losses. */
  lemma {:induction false} SameConnection(reqs: seq<SegmentRequest>)
    ensures Aligned(reqs) <==>
              forall d: Draws, c: Channel :: StreamOffsets(d, c, reqs, 0) == Offsets(Lost(d, c, Packets(TotalBytes(reqs))), 0)
  {
    hide Offsets;
    hide StreamOffsets;
    hide Lost;
    hide Packets;
    hide Aligned;
    if Aligned(reqs) {
      forall d: Draws, c: Channel
        ensures StreamOffsets(d, c, reqs, 0) == Offsets(Lost(d, c, Packets(TotalBytes(reqs))), 0)
      {
        AlignedBatches(d, c, reqs, 0);
      }
    } else {
      UnalignedDiffers(Channel(Uniform(1.0), false, 0), reqs);
    }
  }

  /**
   An aligned batch of streams with bytes, fetched over both transports from equal loss
   channels at equal clocks. Apart from the jitter on completion, without loss the
   transfers take equally long in all; with losses QUIC takes no longer when its
   penalties cost no more than the waiting that TCP repeats, and longer when they cost
   more than that by a nanosecond per repetition. The jitter cancels when both draw it
   from the same place or the link has none.
   */
  lemma {:induction false} QuicAdvantage(link: Link, d: Draws, c: Channel, dTcp: Draws, dQuic: Draws, cTcp: nat, cQuic: nat,
                                         reqs: seq<SegmentRequest>, wallClock: nat)
    requires reqs != [] && Aligned(reqs)
    requires forall i :: 0 <= i < |reqs| ==> reqs[i].sizeBytes > 0
    ensures var total := TotalBytes(reqs); var lost := Lost(d, c, Packets(total));
            var time := ConnectionTime(link, total, Offsets(lost, 0), wallClock);
            var quicTime := ConnectionTime(link, total, StreamOffsets(d, c, reqs, 0), wallClock);
            var tcpJitter := CompletionJitter(link, dTcp, cTcp, |reqs|);
            var quicJitter := CompletionJitter(link, dQuic, cQuic, |reqs|);
            var tcp := TransferSum(TcpResponses(link, dTcp, cTcp, reqs, time, |lost|, total)) - tcpJitter;
            var quic := TransferSum(QuicResponses(link, dQuic, cQuic, reqs, quicTime, StreamLosses(d, c, reqs), total)) - quicJitter;
            && total > 0 && quicTime == time
            && (link.jitterMs <= 0.0 || (dTcp == dQuic && cTcp == cQuic) ==> tcpJitter == quicJitter)
            && (lost == [] ==> quic == tcp)
            && (lost != [] && |lost| * link.rtt <= (|reqs| - 1) * time ==> quic <= tcp)
            && (lost != [] && |lost| * link.rtt > (|reqs| - 1) * (time + 1) ==> quic > tcp)
  {
    hide Aligned;
    hide Packets;
    hide Lost;
    hide Offsets;
    hide StreamOffsets;
    hide StreamLosses;
    hide ConnectionTime;
    hide TcpResponses;
    hide QuicResponses;
    hide TransferSum;
    var total := TotalBytes(reqs);
    var lost := Lost(d, c, Packets(total));
    var time := ConnectionTime(link, total, Offsets(lost, 0), wallClock);
    var streams := StreamLosses(d, c, reqs);
    AlignedBatches(d, c, reqs, 0);
    CountsPartition(d, c, reqs, 0);
    OffsetsLength(lost);
    if link.jitterMs <= 0.0 {
      NoCompletionJitter(link, dTcp, cTcp, |reqs|);
      NoCompletionJitter(link, dQuic, cQuic, |reqs|);
    }
    QuicAccounting(link, dQuic, cQuic, reqs, time, streams);
    if lost == [] {
      CleanSums(link, dTcp, cTcp, dQuic, cQuic, reqs, time, streams, total);
    } else {
      TcpTransferSum(link, dTcp, cTcp, reqs, time, |lost|, total);
      Repeats(|reqs|, time);
    }
  }

  lemma Repeats(n: nat, time: nat)
    ensures n * time == (n - 1) * time + time && (n - 1) * (time + 1) == (n - 1) * time + n - 1
  {
  }

  lemma OffsetsLength(lost: seq<int>)
    ensures |Offsets(lost, 0)| == |lost|
  {
  }

  /** Without loss every stream takes its share under both transports. */
  lemma {:induction false} CleanSums(link: Link, dTcp: Draws, cTcp: nat, dQuic: Draws, cQuic: nat, reqs: seq<SegmentRequest>,
                                     time: nat, lost: seq<seq<int>>, total: nat)
    requires |lost| == |reqs| && CountAll(lost) == 0 && total > 0
    requires forall i :: 0 <= i < |reqs| ==> reqs[i].sizeBytes > 0
    ensures TransferSum(QuicResponses(link, dQuic, cQuic, reqs, time, lost, total)) - CompletionJitter(link, dQuic, cQuic, |reqs|)
            == TransferSum(TcpResponses(link, dTcp, cTcp, reqs, time, 0, total)) - CompletionJitter(link, dTcp, cTcp, |reqs|)
    decreases |reqs|
  {
    hide Share;
    hide Goodput;
    hide Jitter;
    hide JitterDraws;
    if reqs != [] {
      var q, t := QuicResponses(link, dQuic, cQuic, reqs, time, lost, total), TcpResponses(link, dTcp, cTcp, reqs, time, 0, total);
      CleanSums(link, dTcp, cTcp + 2 * JitterDraws(link), dQuic, cQuic + 2 * JitterDraws(link), reqs[1..], time, lost[1..], total);
      assert q[1..] == QuicResponses(link, dQuic, cQuic + 2 * JitterDraws(link), reqs[1..], time, lost[1..], total);
      assert t[1..] == TcpResponses(link, dTcp, cTcp + 2 * JitterDraws(link), reqs[1..], time, 0, total);
      assert 0 * link.rtt == 0;
    }
  }

  /** Draws for a first packet that arrives and a second one that is lost. */
  function SecondLost(): Draws {
    k => if k == 0 then 0.9 else 0.1
  }

  /**
   Two half-filled packets: TCP sends their bytes as one packet, which arrives, and QUIC
   as two, of which the second is lost. QUIC then needs three milliseconds in all where
   TCP needs one, although its one penalty is less than what TCP could have repeated.
   */
  lemma {:induction false} UnalignedCosts()
    ensures var ms := 1_000_000; var link := Link(ms, 0.0, (x, y) => 0, t => 1_000_000.0, LossConfig("uniform", 50.0, 0.0, 0.0, 0.0), 0);
            var reqs := [SegmentRequest("a", 1, 730), SegmentRequest("b", 1, 730)]; var total := TotalBytes(reqs);
            var d := SecondLost(); var c := Channel(NewModel(link.loss), false, 0);
            var lost := Lost(d, c, Packets(total)); var streams := StreamLosses(d, c, reqs);
            var time := ConnectionTime(link, total, Offsets(lost, 0), 0);
            var quicTime := ConnectionTime(link, total, StreamOffsets(d, c, reqs, 0), 0);
            && !Aligned(reqs) && total == 1460
            && lost == [] && streams == [[], [0]] && StreamOffsets(d, c, reqs, 0) == [730]
            && time == ms && quicTime == 2 * ms
            && TransferSum(TcpResponses(link, d, 0, reqs, time, |lost|, total)) == ms
            && TransferSum(QuicResponses(link, d, 0, reqs, quicTime, streams, total)) == 3 * ms
  {
    hide ConnectionTime;
    var ms := 1_000_000;
    var link := Link(ms, 0.0, (x, y) => 0, t => 1_000_000.0, LossConfig("uniform", 50.0, 0.0, 0.0, 0.0), 0);
    var a, b := SegmentRequest("a", 1, 730), SegmentRequest("b", 1, 730);
    var d, c := SecondLost(), Channel(Uniform(0.5), false, 0);
    var reqs := [a, b];
    assert NewModel(link.loss) == Uniform(0.5);
    assert reqs[1..] == [b] && [b][1..] == [];
    assert TotalBytes([b]) == 730 && TotalBytes(reqs) == 1460;
    TwoPackets();
    TwoStreams(a, b);
    ShortTimes(link);
    TwoResponses(link, d, a, b);
  }

  lemma {:induction false} TwoPackets()
    ensures Packets(730) == 1 && Packets(1460) == 1
    ensures var d := SecondLost(); var c := Channel(Uniform(0.5), false, 0);
            && Lost(d, c, 1) == [] && After(d, c, 1) == c.(cursor := 1)
            && Lost(d, c.(cursor := 1), 1) == [0]
  {
    var d, c := SecondLost(), Channel(Uniform(0.5), false, 0);
    assert Packet(d, c) == (false, c.(cursor := 1));
    assert Packet(d, c.(cursor := 1)).0;
    assert Fates(d, c, 1) == [false] + Fates(d, c.(cursor := 1), 0);
    assert Fates(d, c.(cursor := 1), 1)[1..] == [];
    assert After(d, c, 1) == After(d, Packet(d, c).1, 0);
  }

  lemma {:induction false} TwoStreams(a: SegmentRequest, b: SegmentRequest)
    requires a.sizeBytes == b.sizeBytes == 730
    ensures var d := SecondLost(); var c := Channel(Uniform(0.5), false, 0);
            StreamLosses(d, c, [a, b]) == [[], [0]] && StreamOffsets(d, c, [a, b], 0) == [730]
  {
    hide Lost;
    hide After;
    hide Packets;
    var d, c := SecondLost(), Channel(Uniform(0.5), false, 0);
    TwoPackets();
    assert [a, b][1..] == [b] && [b][1..] == [];
    assert StreamLosses(d, c.(cursor := 1), [b]) == [[0]];
    assert StreamOffsets(d, c.(cursor := 1), [b], 730) == [730];
  }

  /** One window either way: one round trip, and one more to recover. */
  lemma {:induction false} ShortTimes(link: Link)
    requires link.rtt == 1_000_000 && link.bandwidth(0) == 1_000_000.0
    ensures ConnectionTime(link, 1460, Offsets([], 0), 0) == 1_000_000
    ensures ConnectionTime(link, 1460, [730], 0) == 2_000_000
  {
    hide BandwidthTime;
    LinkCarries(1460, 1_000_000.0);
    assert BandwidthTime(1460, 1_000_000.0) < 1_000_000;
    assert !LossIn([], 0, 1460);
    assert [730][0] == 730 && LossIn([730], 0, 1460);
    assert Offsets([], 0) == [];
    assert TransferRtts(1460, []) == 1 && TransferRtts(1460, [730]) == 2;
  }

  lemma {:induction false} TwoResponses(link: Link, d: Draws, a: SegmentRequest, b: SegmentRequest)
    requires link.jitterMs <= 0.0 && link.rtt == 1_000_000 && a.sizeBytes == b.sizeBytes == 730
    ensures TransferSum(TcpResponses(link, d, 0, [a, b], 1_000_000, 0, 1460)) == 1_000_000
    ensures TotalBytes([a, b]) == 1460
    ensures TransferSum(QuicResponses(link, d, 0, [a, b], 2_000_000, [[], [0]], 1460)) == 3_000_000
  {
    hide Goodput;
    assert [a, b][1..] == [b] && [b][1..] == [] && [[], [0]][1..] == [[0]];
    assert Share(1_000_000, 730, 1460) == 500_000 && Share(2_000_000, 730, 1460) == 1_000_000;
    var t, q := TcpResponses(link, d, 0, [a, b], 1_000_000, 0, 1460), QuicResponses(link, d, 0, [a, b], 2_000_000, [[], [0]], 1460);
    assert TotalBytes([b]) == 730;
    assert t[1..] == TcpResponses(link, d, 0, [b], 1_000_000, 0, 1460) && t[1..][1..] == [];
    assert TransferSum(t[1..]) == 500_000;
    assert q[1..] == QuicResponses(link, d, 0, [b], 2_000_000, [[0]], 1460) && q[1..][1..] == [];
  }

  // ----- one request at a time -----

  /** The jitter of one stream: on its first byte, and on its completion. */
  function StreamJitter(link: Link, d: Draws, cursor: nat): nat {
    Jitter(link, d, cursor) + Jitter(link, d, cursor + JitterDraws(link))
  }

  /** A batch of one request over TCP: the connection time, loss or not. */
  lemma {:induction false} TcpAlone(link: Link, d: Draws, c: Channel, draws: Draws, cursor: nat, req: SegmentRequest, wallClock: nat)
    requires req.sizeBytes > 0
    ensures var size := req.sizeBytes; var lost := Lost(d, c, Packets(size));
            var time := ConnectionTime(link, size, Offsets(lost, 0), wallClock);
            && TotalBytes([req]) == size
            && TcpResponses(link, draws, cursor, [req], time, |lost|, size)[0].totalLatency
               == link.rtt / 2 + time + StreamJitter(link, draws, cursor)
  {
    hide Share;
    hide ConnectionTime;
    hide Lost;
    hide Offsets;
    var lost := Lost(d, c, Packets(req.sizeBytes));
    var time := ConnectionTime(link, req.sizeBytes, Offsets(lost, 0), wallClock);
    assert [req][1..] == [];
    WholeShare(time, req.sizeBytes);
    TcpAccounting(link, draws, cursor, [req], time, |lost|, req.sizeBytes, 0);
  }

  /** The same over QUIC: the connection time, and a round trip for every lost packet. */
  lemma {:induction false} QuicAlone(link: Link, d: Draws, c: Channel, draws: Draws, cursor: nat, req: SegmentRequest, wallClock: nat)
    requires req.sizeBytes > 0
    ensures var size := req.sizeBytes; var lost := Lost(d, c, Packets(size));
            var time := ConnectionTime(link, size, Offsets(lost, 0), wallClock);
            && TotalBytes([req]) == size && TotalPackets([req]) == Packets(size)
            && StreamOffsets(d, c, [req], 0) == Offsets(lost, 0) && StreamLosses(d, c, [req]) == [lost]
            && var out := QuicResponses(link, draws, cursor, [req], time, [lost], size);
               out[0].totalLatency == MaxLatency(out) == link.rtt / 2 + time + |lost| * link.rtt + StreamJitter(link, draws, cursor)
  {
    hide Share;
    hide ConnectionTime;
    hide Lost;
    hide Offsets;
    var lost := Lost(d, c, Packets(req.sizeBytes));
    var time := ConnectionTime(link, req.sizeBytes, Offsets(lost, 0), wallClock);
    assert [req][1..] == [];
    WholeShare(time, req.sizeBytes);
    QuicSingle(link, draws, cursor, req, time, lost);
    var out := QuicResponses(link, draws, cursor, [req], time, [lost], req.sizeBytes);
    assert out[1..] == [];
  }

  lemma {:induction false} QuicSingle(link: Link, d: Draws, cursor: nat, req: SegmentRequest, time: nat, lost: seq<int>)
    requires req.sizeBytes > 0
    ensures QuicResponses(link, d, cursor, [req], time, [lost], req.sizeBytes)[0].totalLatency
            == link.rtt / 2 + Share(time, req.sizeBytes, req.sizeBytes) + |lost| * link.rtt + StreamJitter(link, d, cursor)
  {
    hide Share;
  }

  lemma {:induction false} WholeShare(time: nat, size: nat)
    requires size > 0
    ensures Share(time, size, size) == time
  {
    hide Share;
    ShareBounds(time, size, size);
    DivideOut(size, Share(time, size, size), time, 1);
  }

  lemma ProductZero(a: nat, b: nat)
    ensures a * b == 0 <==> a == 0 || b == 0
  {
  }
}
