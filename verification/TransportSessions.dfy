/**
 Whole sessions of either transport: any sequence of handshakes and fetches, cancelled
 ones included (internal/transport/modeled/tcp.go, quic.go). A transport's state is the
 position of its loss channel, the cursor of its jitter draws and its own wall clock.
 */
module TransportSessions {
  import opened Reno
  import opened LossModel
  import opened TransportTypes
  import opened TransportModel
  import opened Transports
  import opened TransportTheorems

  datatype Call = Handshake(cancelled: bool, resumption: bool)
                | FetchSegment(cancelled: bool, req: SegmentRequest)
                | FetchConcurrent(cancelled: bool, reqs: seq<SegmentRequest>)

  datatype Reply = Established(time: nat) | Segment(response: SegmentResponse) | Batch(responses: seq<SegmentResponse>) | Cancelled

  datatype Setup = Setup(quic: bool, link: Link, draws: Draws, lossDraws: Draws, zeroRTTRate: real)

  datatype Connection = Connection(channel: Channel, cursor: nat, wallClock: nat)

  // ----- one call -----

  ghost function Shake(u: Setup, s: Connection, resumption: bool): (Connection, Reply) {
    if u.quic then
      var c := s.cursor + (if resumption then 1 else 0);
      var early := resumption && u.draws(s.cursor) < u.zeroRTTRate;
      (s.(cursor := c + JitterDraws(u.link)), Established((if early then 0 else u.link.rtt) + Jitter(u.link, u.draws, c)))
    else
      (s.(cursor := s.cursor + JitterDraws(u.link)),
       Established((if resumption then u.link.rtt + u.link.rtt / 2 else 2 * u.link.rtt) + Jitter(u.link, u.draws, s.cursor)))
  }

  ghost function FetchOne(u: Setup, s: Connection, req: SegmentRequest): (Connection, Reply) {
    var n := Packets(req.sizeBytes);
    var after := s.(channel := After(u.lossDraws, s.channel, n));
    if req.sizeBytes == 0 then (after, Segment(EmptyResponse(req.segmentID)))
    else
      var lost := Lost(u.lossDraws, s.channel, n);
      var time := ConnectionTime(u.link, req.sizeBytes, Offsets(lost, 0), s.wallClock);
      var out := SingleResponse(u.link, u.draws, s.cursor, req, time, |lost|);
      (after.(cursor := s.cursor + StreamDraws(u.link, 1), wallClock := s.wallClock + out.totalLatency), Segment(out))
  }

  ghost function FetchTcp(u: Setup, s: Connection, reqs: seq<SegmentRequest>): (Connection, Reply) {
    var total := TotalBytes(reqs);
    var lost := Lost(u.lossDraws, s.channel, Packets(total));
    var time := ConnectionTime(u.link, total, Offsets(lost, 0), s.wallClock);
    (Connection(After(u.lossDraws, s.channel, Packets(total)), s.cursor + StreamDraws(u.link, |reqs|), s.wallClock + time),
     Batch(TcpResponses(u.link, u.draws, s.cursor, reqs, time, |lost|, total)))
  }

  ghost function FetchQuic(u: Setup, s: Connection, reqs: seq<SegmentRequest>): (Connection, Reply) {
    var total := TotalBytes(reqs);
    var time := ConnectionTime(u.link, total, StreamOffsets(u.lossDraws, s.channel, reqs, 0), s.wallClock);
    var out := QuicResponses(u.link, u.draws, s.cursor, reqs, time, StreamLosses(u.lossDraws, s.channel, reqs), total);
    (Connection(After(u.lossDraws, s.channel, TotalPackets(reqs)), s.cursor + StreamDraws(u.link, PositiveStreams(reqs)),
                s.wallClock + MaxLatency(out)),
     Batch(out))
  }

  ghost function Serve(u: Setup, s: Connection, call: Call): (Connection, Reply) {
    if call.cancelled then (s, Cancelled)
    else
      match call
      case Handshake(_, resumption) => Shake(u, s, resumption)
      case FetchSegment(_, req) => FetchOne(u, s, req)
      case FetchConcurrent(_, reqs) =>
        if reqs == [] then (s, Batch([])) else if u.quic then FetchQuic(u, s, reqs) else FetchTcp(u, s, reqs)
  }

  ghost function ServeAll(u: Setup, s: Connection, calls: seq<Call>): (r: (Connection, seq<Reply>))
    ensures |r.1| == |calls|
    decreases |calls|
  {
    if calls == [] then (s, [])
    else
      var first := Serve(u, s, calls[0]);
      var rest := ServeAll(u, first.0, calls[1..]);
      (rest.0, [first.1] + rest.1)
  }

  lemma {:induction false} ServeNext(u: Setup, s: Connection, calls: seq<Call>, i: nat)
    requires i < |calls|
    ensures var first := Serve(u, s, calls[i]); var rest := ServeAll(u, first.0, calls[i + 1..]);
            ServeAll(u, s, calls[i..]) == (rest.0, [first.1] + rest.1)
  {
    hide Serve;
    assert calls[i..][1..] == calls[i + 1..];
  }

  lemma ServeNone(u: Setup, s: Connection, calls: seq<Call>)
    ensures ServeAll(u, s, calls[|calls|..]) == (s, [])
  {
  }

  // ----- the transports serve calls as specified -----

  function TcpSetup(t: ModeledTCPTransport): Setup {
    Setup(false, t.link, t.draws, t.loss.draws, 0.0)
  }

  function TcpConnection(t: ModeledTCPTransport): Connection
    reads t, t.loss
  {
    Connection(t.loss.State(), t.cursor, t.wallClock)
  }

  function QuicSetup(q: ModeledQUICTransport): Setup {
    Setup(true, q.link, q.draws, q.loss.draws, q.zeroRTTSuccessRate)
  }

  function QuicConnection(q: ModeledQUICTransport): Connection
    reads q, q.loss
  {
    Connection(q.loss.State(), q.cursor, q.wallClock)
  }

  method CallTcp(t: ModeledTCPTransport, call: Call) returns (reply: Reply)
    modifies t, t.loss
    ensures (TcpConnection(t), reply) == Serve(TcpSetup(t), old(TcpConnection(t)), call)
  {
    hide ConnectionTime;
    hide TcpResponses;
    hide SingleResponse;
    hide Jitter;
    hide JitterDraws;
    hide StreamDraws;
    hide After;
    hide Lost;
    hide Offsets;
    hide Packets;
    match call {
      case Handshake(cancelled, resumption) =>
        var r := t.Handshake(cancelled, resumption);
        reply := if r.Ok? then Established(r.value) else Cancelled;
      case FetchSegment(cancelled, req) =>
        var r := t.FetchSegment(cancelled, req);
        reply := if r.Ok? then Segment(r.value) else Cancelled;
      case FetchConcurrent(cancelled, reqs) =>
        var r := t.FetchConcurrent(cancelled, reqs);
        reply := if r.Ok? then Batch(r.value) else Cancelled;
    }
  }

  method DriveTcp(t: ModeledTCPTransport, calls: seq<Call>) returns (replies: seq<Reply>)
    modifies t, t.loss
    ensures (TcpConnection(t), replies) == ServeAll(TcpSetup(t), old(TcpConnection(t)), calls)
  {
    hide Serve;
    hide ServeAll;
    replies := [];
    ghost var u := TcpSetup(t);
    ghost var all := ServeAll(u, TcpConnection(t), calls);
    assert calls[0..] == calls && [] + all.1 == all.1;
    for i := 0 to |calls|
      invariant ServeAll(u, TcpConnection(t), calls[i..]).0 == all.0
      invariant replies + ServeAll(u, TcpConnection(t), calls[i..]).1 == all.1
    {
      ServeNext(u, TcpConnection(t), calls, i);
      var reply := CallTcp(t, calls[i]);
      replies := replies + [reply];
    }
    ServeNone(u, TcpConnection(t), calls);
    assert replies + [] == replies;
  }

  method CallQuic(q: ModeledQUICTransport, call: Call) returns (reply: Reply)
    modifies q, q.loss
    ensures (QuicConnection(q), reply) == Serve(QuicSetup(q), old(QuicConnection(q)), call)
  {
    hide ConnectionTime;
    hide QuicResponses;
    hide SingleResponse;
    hide Jitter;
    hide JitterDraws;
    hide StreamDraws;
    hide After;
    hide Lost;
    hide Offsets;
    hide Packets;
    hide StreamLosses;
    hide StreamOffsets;
    hide TotalPackets;
    hide PositiveStreams;
    hide MaxLatency;
    match call {
      case Handshake(cancelled, resumption) =>
        var r := q.Handshake(cancelled, resumption);
        reply := if r.Ok? then Established(r.value) else Cancelled;
      case FetchSegment(cancelled, req) =>
        var r := q.FetchSegment(cancelled, req);
        reply := if r.Ok? then Segment(r.value) else Cancelled;
      case FetchConcurrent(cancelled, reqs) =>
        var r := q.FetchConcurrent(cancelled, reqs);
        reply := if r.Ok? then Batch(r.value) else Cancelled;
    }
  }

  method DriveQuic(q: ModeledQUICTransport, calls: seq<Call>) returns (replies: seq<Reply>)
    modifies q, q.loss
    ensures (QuicConnection(q), replies) == ServeAll(QuicSetup(q), old(QuicConnection(q)), calls)
  {
    hide Serve;
    hide ServeAll;
    replies := [];
    ghost var u := QuicSetup(q);
    ghost var all := ServeAll(u, QuicConnection(q), calls);
    assert calls[0..] == calls && [] + all.1 == all.1;
    for i := 0 to |calls|
      invariant ServeAll(u, QuicConnection(q), calls[i..]).0 == all.0
      invariant replies + ServeAll(u, QuicConnection(q), calls[i..]).1 == all.1
    {
      ServeNext(u, QuicConnection(q), calls, i);
      var reply := CallQuic(q, calls[i]);
      replies := replies + [reply];
    }
    ServeNone(u, QuicConnection(q), calls);
    assert replies + [] == replies;
  }

  // ----- the loss pattern is isolated from everything else -----

  /** Packets that a call sends: TCP packs a batch as one byte stream, QUIC packs every stream by itself. */
  function CallPackets(quic: bool, call: Call): nat {
    if call.cancelled then 0
    else
      match call
      case Handshake(_, _) => 0
      case FetchSegment(_, req) => Packets(req.sizeBytes)
      case FetchConcurrent(_, reqs) => if quic then TotalPackets(reqs) else Packets(TotalBytes(reqs))
  }

  function SessionPackets(quic: bool, calls: seq<Call>): nat {
    if calls == [] then 0 else CallPackets(quic, calls[0]) + SessionPackets(quic, calls[1..])
  }

  /** The losses that a call's responses report; under TCP every stream of a batch reports those of the connection. */
  function LossesSeen(quic: bool, reply: Reply): nat {
    match reply
    case Segment(r) => r.retransmitCount
    case Batch(rs) => if rs == [] then 0 else if quic then Retransmits(rs) else rs[0].retransmitCount
    case _ => 0
  }

  function Retransmits(rs: seq<SegmentResponse>): nat {
    if rs == [] then 0 else rs[0].retransmitCount + Retransmits(rs[1..])
  }

  function AllLossesSeen(quic: bool, replies: seq<Reply>): nat {
    if replies == [] then 0 else LossesSeen(quic, replies[0]) + AllLossesSeen(quic, replies[1..])
  }

  lemma {:induction false} QuicRetransmits(link: Link, d: Draws, cursor: nat, reqs: seq<SegmentRequest>, time: nat,
                                           dLoss: Draws, c: Channel, total: nat)
    requires total > 0 || TotalBytes(reqs) == 0
    ensures Retransmits(QuicResponses(link, d, cursor, reqs, time, StreamLosses(dLoss, c, reqs), total))
            == CountAll(StreamLosses(dLoss, c, reqs))
    decreases |reqs|
  {
    hide Share;
    hide Goodput;
    hide Lost;
    if reqs != [] {
      var lost := StreamLosses(dLoss, c, reqs);
      var c' := After(dLoss, c, Packets(reqs[0].sizeBytes));
      assert lost[1..] == StreamLosses(dLoss, c', reqs[1..]);
      var next := if reqs[0].sizeBytes == 0 then cursor else cursor + 2 * JitterDraws(link);
      QuicRetransmits(link, d, next, reqs[1..], time, dLoss, c', total);
      var out := QuicResponses(link, d, cursor, reqs, time, lost, total);
      assert out[1..] == QuicResponses(link, d, next, reqs[1..], time, lost[1..], total);
      EmptyStream(dLoss, c, 0);
    }
  }

  /** The streams' losses are those of the connection's packets, however the streams are cut. */
  lemma {:induction false} StreamLossesCount(d: Draws, c: Channel, reqs: seq<SegmentRequest>)
    ensures CountAll(StreamLosses(d, c, reqs)) == |Lost(d, c, TotalPackets(reqs))|
    decreases |reqs|
  {
    hide Lost;
    hide After;
    hide Packets;
    if reqs == [] {
      NothingLost(d, c);
    } else {
      var n := Packets(reqs[0].sizeBytes);
      StreamLossesCount(d, After(d, c, n), reqs[1..]);
      assert StreamLosses(d, c, reqs)[1..] == StreamLosses(d, After(d, c, n), reqs[1..]);
      LostCount(d, c, n, TotalPackets(reqs[1..]));
    }
  }

  lemma NothingLost(d: Draws, c: Channel)
    ensures Lost(d, c, 0) == [] && After(d, c, 0) == c
  {
  }

  lemma {:induction false} LostCount(d: Draws, c: Channel, n: nat, m: nat)
    ensures |Lost(d, c, n + m)| == |Lost(d, c, n)| + |Lost(d, After(d, c, n), m)|
  {
    LostSplit(d, c, n, m);
    LostShift(Fates(d, After(d, c, n), m), 0, n, 0);
    OffsetsCount(LostFrom(Fates(d, After(d, c, n), m), n), 0);
    OffsetsCount(LostFrom(Fates(d, After(d, c, n), m), 0), n * MTU_PAYLOAD);
    assert 0 + n == n;
  }

  lemma OffsetsCount(lost: seq<int>, base: int)
    ensures |Offsets(lost, base)| == |lost|
  {
  }

  /** A call moves the loss channel by the packets it sends, and its responses report exactly their losses. */
  lemma {:induction false} CallSends(u: Setup, s: Connection, call: Call)
    ensures var r := Serve(u, s, call); var n := CallPackets(u.quic, call);
            && r.0.channel == After(u.lossDraws, s.channel, n)
            && LossesSeen(u.quic, r.1) == |Lost(u.lossDraws, s.channel, n)|
  {
    hide Lost;
    hide After;
    hide Packets;
    hide ConnectionTime;
    hide QuicResponses;
    hide Goodput;
    hide StreamLosses;
    hide StreamOffsets;
    NothingLost(u.lossDraws, s.channel);
    EmptyStream(u.lossDraws, s.channel, 0);
    if call.FetchConcurrent? && call.reqs != [] && !call.cancelled && u.quic {
      var total := TotalBytes(call.reqs);
      var time := ConnectionTime(u.link, total, StreamOffsets(u.lossDraws, s.channel, call.reqs, 0), s.wallClock);
      QuicRetransmits(u.link, u.draws, s.cursor, call.reqs, time, u.lossDraws, s.channel, total);
      StreamLossesCount(u.lossDraws, s.channel, call.reqs);
    }
  }

  lemma {:induction false} SessionSends(u: Setup, s: Connection, calls: seq<Call>)
    ensures var r := ServeAll(u, s, calls); var n := SessionPackets(u.quic, calls);
            && r.0.channel == After(u.lossDraws, s.channel, n)
            && AllLossesSeen(u.quic, r.1) == |Lost(u.lossDraws, s.channel, n)|
    decreases |calls|
  {
    hide Lost;
    hide After;
    hide Serve;
    hide CallPackets;
    hide LossesSeen;
    if calls == [] {
      NothingLost(u.lossDraws, s.channel);
    } else {
      var first, n, m := Serve(u, s, calls[0]), CallPackets(u.quic, calls[0]), SessionPackets(u.quic, calls[1..]);
      CallSends(u, s, calls[0]);
      SessionSends(u, first.0, calls[1..]);
      var replies := ServeAll(u, s, calls).1;
      assert replies[1..] == ServeAll(u, first.0, calls[1..]).1;
      LostCount(u.lossDraws, s.channel, n, m);
      AfterSplit(u.lossDraws, s.channel, n, m);
    }
  }

  lemma {:induction false} AfterSplit(d: Draws, c: Channel, n: nat, m: nat)
    ensures After(d, c, n + m) == After(d, After(d, c, n), m)
  {
    FatesSplit(d, c, n, m);
  }

  /** What two sessions share that start from equal channels and have sent m and n packets. */
  ghost predicate SameFates(d: Draws, start: Channel, m: nat, n: nat) {
    forall k :: 0 <= k < m && k < n ==> Fates(d, start, m)[k] == Fates(d, start, n)[k]
  }

  lemma {:induction false} FatesAgree(d: Draws, start: Channel, m: nat, n: nat)
    ensures SameFates(d, start, m, n)
  {
    if m <= n {
      FatesSplit(d, start, m, n - m);
    } else {
      FatesSplit(d, start, n, m - n);
    }
  }

  /** The connection of a new transport. */
  function Opened(link: Link): Connection {
    Connection(Channel(NewModel(link.loss), false, 0), 0, 0)
  }

  /** A new transport: its own draws and its loss draws both come from the seed. */
  function Seeded(quic: bool, link: Link, gen: Generator, seed: int, zeroRTTRate: real): Setup {
    Setup(quic, link, gen.floatsAfterInt(seed), gen.floats(gen.firstInt(seed)), zeroRTTRate)
  }

  /**
   TCP and QUIC opened from one seed and one loss profile, and then used in any way at
   all: the k-th packet of one has the fate of the k-th packet of the other, and
   sessions that have sent equally many packets have reported equally many losses.
   */
  lemma {:induction false} SameSeedSameFates(gen: Generator, seed: int, tcpLink: Link, quicLink: Link, zeroRTTRate: real,
                                             tcpCalls: seq<Call>, quicCalls: seq<Call>)
    requires tcpLink.loss == quicLink.loss
    ensures var u, v := Seeded(false, tcpLink, gen, seed, 0.0), Seeded(true, quicLink, gen, seed, zeroRTTRate);
            var a, b := ServeAll(u, Opened(tcpLink), tcpCalls), ServeAll(v, Opened(quicLink), quicCalls);
            var m, n := SessionPackets(false, tcpCalls), SessionPackets(true, quicCalls);
            var d, start := u.lossDraws, Opened(tcpLink).channel;
            && a.0.channel == After(d, start, m) && b.0.channel == After(d, start, n)
            && SameFates(d, start, m, n)
            && (m == n ==> AllLossesSeen(false, a.1) == AllLossesSeen(true, b.1))
  {
    hide ServeAll;
    hide After;
    hide Lost;
    hide SessionPackets;
    hide AllLossesSeen;
    var u, v := Seeded(false, tcpLink, gen, seed, 0.0), Seeded(true, quicLink, gen, seed, zeroRTTRate);
    SessionSends(u, Opened(tcpLink), tcpCalls);
    SessionSends(v, Opened(quicLink), quicCalls);
    FatesAgree(u.lossDraws, Opened(tcpLink).channel, SessionPackets(false, tcpCalls), SessionPackets(true, quicCalls));
  }

  /** The same of the transports themselves, from their constructors on. */
  method FairComparison(gen: Generator, seed: int, tcpLink: Link, quicLink: Link, zeroRTTRate: real,
                        tcpCalls: seq<Call>, quicCalls: seq<Call>)
    returns (tcp: ModeledTCPTransport, quic: ModeledQUICTransport, tcpReplies: seq<Reply>, quicReplies: seq<Reply>)
    requires tcpLink.loss == quicLink.loss
    ensures fresh(tcp) && fresh(tcp.loss) && fresh(quic) && fresh(quic.loss) && tcp.loss.draws == quic.loss.draws
    ensures var m, n := SessionPackets(false, tcpCalls), SessionPackets(true, quicCalls);
            var d, start := tcp.loss.draws, Channel(NewModel(tcpLink.loss), false, 0);
            && tcp.loss.State() == After(d, start, m) && quic.loss.State() == After(d, start, n)
            && SameFates(d, start, m, n)
            && (m == n ==> AllLossesSeen(false, tcpReplies) == AllLossesSeen(true, quicReplies))
  {
    hide ServeAll;
    hide After;
    hide SameFates;
    hide SessionPackets;
    hide AllLossesSeen;
    tcp := new ModeledTCPTransport(tcpLink, gen, seed);
    quic := new ModeledQUICTransport(quicLink, gen, seed, zeroRTTRate);
    SameSeedSameFates(gen, seed, tcpLink, quicLink, quic.zeroRTTSuccessRate, tcpCalls, quicCalls);
    tcpReplies := DriveTcp(tcp, tcpCalls);
    quicReplies := DriveQuic(quic, quicCalls);
  }

  // ----- prefetch depth 1: one request at a time -----

  function OneByOne(reqs: seq<SegmentRequest>): (r: seq<Call>)
    ensures |r| == |reqs|
  {
    seq(|reqs|, i requires 0 <= i < |reqs| => FetchConcurrent(false, [reqs[i]]))
  }

  function Latency(reply: Reply): int {
    if reply.Batch? && reply.responses != [] then reply.responses[0].totalLatency else 0
  }

  ghost predicate Steady(link: Link) {
    forall t: nat :: link.bandwidth(t) == link.bandwidth(0)
  }

  ghost predicate SerialSetting(u: Setup, v: Setup, reqs: seq<SegmentRequest>) {
    && !u.quic && v.quic && u.link == v.link && u.lossDraws == v.lossDraws
    && forall i :: 0 <= i < |reqs| ==> reqs[i].sizeBytes > 0
  }

  /** The jitter of the i-th request of a session from this cursor on. */
  function JitterAt(u: Setup, cursor: nat, i: nat): nat {
    StreamJitter(u.link, u.draws, cursor + StreamDraws(u.link, i))
  }

  /** One request over both transports, each at its own clock. */
  lemma {:induction false} SerialStep(u: Setup, v: Setup, s: Connection, t: Connection, req: SegmentRequest)
    requires SerialSetting(u, v, [req]) && s.channel == t.channel
    ensures var call := FetchConcurrent(false, [req]); var a, b := Serve(u, s, call), Serve(v, t, call);
            var n := Packets(req.sizeBytes); var lost := Lost(u.lossDraws, s.channel, n);
            var time := ConnectionTime(u.link, req.sizeBytes, Offsets(lost, 0), s.wallClock);
            var quicTime := ConnectionTime(u.link, req.sizeBytes, Offsets(lost, 0), t.wallClock);
            && a.0.channel == b.0.channel == After(u.lossDraws, s.channel, n)
            && a.0.cursor == s.cursor + StreamDraws(u.link, 1) && b.0.cursor == t.cursor + StreamDraws(u.link, 1)
            && a.0.wallClock == s.wallClock + time && b.0.wallClock == t.wallClock + Latency(b.1)
            && Latency(a.1) == u.link.rtt / 2 + time + JitterAt(u, s.cursor, 0)
            && Latency(b.1) == u.link.rtt / 2 + quicTime + |lost| * u.link.rtt + JitterAt(v, t.cursor, 0)
  {
    hide ConnectionTime;
    hide Lost;
    hide After;
    hide Offsets;
    hide Packets;
    hide MaxLatency;
    hide StreamJitter;
    assert [req][0] == req && [req][1..] == [];
    assert PositiveStreams([req]) == 1;
    TcpAlone(u.link, u.lossDraws, s.channel, u.draws, s.cursor, req, s.wallClock);
    QuicAlone(v.link, v.lossDraws, t.channel, v.draws, t.cursor, req, t.wallClock);
  }

  lemma NextJitter(u: Setup, cursor: nat, i: nat)
    ensures JitterAt(u, cursor + StreamDraws(u.link, 1), i) == JitterAt(u, cursor, i + 1)
  {
  }

  lemma {:induction false} SteadyTime(link: Link, bytes: nat, offsets: seq<int>, one: nat, other: nat)
    requires Steady(link)
    ensures ConnectionTime(link, bytes, offsets, one) == ConnectionTime(link, bytes, offsets, other)
  {
    assert link.bandwidth(one) == link.bandwidth(0) && link.bandwidth(other) == link.bandwidth(0);
  }

  /** What QUIC's i-th latency is over TCP's: the losses' round trips and the difference in jitter. */
  ghost predicate Differ(u: Setup, v: Setup, s: Connection, t: Connection, reqs: seq<SegmentRequest>, a: seq<Reply>, b: seq<Reply>) {
    && |a| == |b| == |reqs|
    && forall i :: 0 <= i < |reqs| ==>
         Latency(b[i]) - Latency(a[i])
         == |StreamLosses(u.lossDraws, s.channel, reqs)[i]| * u.link.rtt + JitterAt(v, t.cursor, i) - JitterAt(u, s.cursor, i)
  }

  /** One request more in front. */
  lemma {:induction false} DifferCons(u: Setup, v: Setup, s: Connection, t: Connection, reqs: seq<SegmentRequest>,
                                      s': Connection, t': Connection, a: seq<Reply>, b: seq<Reply>)
    requires reqs != [] && |a| == |b| == |reqs| && Differ(u, v, s', t', reqs[1..], a[1..], b[1..]) && u.link == v.link
    requires s'.channel == After(u.lossDraws, s.channel, Packets(reqs[0].sizeBytes))
    requires s'.cursor == s.cursor + StreamDraws(u.link, 1) && t'.cursor == t.cursor + StreamDraws(u.link, 1)
    requires Latency(b[0]) - Latency(a[0])
             == |Lost(u.lossDraws, s.channel, Packets(reqs[0].sizeBytes))| * u.link.rtt
                + JitterAt(v, t.cursor, 0) - JitterAt(u, s.cursor, 0)
    ensures Differ(u, v, s, t, reqs, a, b)
  {
    hide Lost;
    hide After;
    hide Packets;
    hide JitterAt;
    hide Latency;
    hide StreamDraws;
    var lost, rest := StreamLosses(u.lossDraws, s.channel, reqs), StreamLosses(u.lossDraws, s'.channel, reqs[1..]);
    assert lost[1..] == rest;
    forall i | 0 < i < |reqs|
      ensures Latency(b[i]) - Latency(a[i]) == |lost[i]| * u.link.rtt + JitterAt(v, t.cursor, i) - JitterAt(u, s.cursor, i)
    {
      NextJitter(u, s.cursor, i - 1);
      NextJitter(v, t.cursor, i - 1);
      assert a[1..][i - 1] == a[i] && b[1..][i - 1] == b[i] && lost[i] == rest[i - 1];
    }
  }

  /** At a steady bandwidth, the latencies of the two sessions request by request, whatever the jitter. */
  lemma {:induction false} SerialSessions(u: Setup, v: Setup, s: Connection, t: Connection, reqs: seq<SegmentRequest>)
    requires SerialSetting(u, v, reqs) && s.channel == t.channel && Steady(u.link)
    ensures Differ(u, v, s, t, reqs, ServeAll(u, s, OneByOne(reqs)).1, ServeAll(v, t, OneByOne(reqs)).1)
    decreases |reqs|
  {
    hide Serve;
    hide ConnectionTime;
    hide Lost;
    hide After;
    hide Offsets;
    hide Packets;
    hide Latency;
    hide Steady;
    hide JitterAt;
    hide StreamDraws;
    if reqs == [] {
      assert OneByOne(reqs) == [];
    } else {
      var call, calls := FetchConcurrent(false, [reqs[0]]), OneByOne(reqs);
      assert calls[0] == call && calls[1..] == OneByOne(reqs[1..]);
      var a, b := Serve(u, s, call), Serve(v, t, call);
      SerialStep(u, v, s, t, reqs[0]);
      SteadyTime(u.link, reqs[0].sizeBytes, Offsets(Lost(u.lossDraws, s.channel, Packets(reqs[0].sizeBytes)), 0), s.wallClock, t.wallClock);
      SerialSessions(u, v, a.0, b.0, reqs[1..]);
      var tcp, quic := ServeAll(u, s, calls).1, ServeAll(v, t, calls).1;
      assert tcp[1..] == ServeAll(u, a.0, calls[1..]).1 && quic[1..] == ServeAll(v, b.0, calls[1..]).1;
      DifferCons(u, v, s, t, reqs, a.0, b.0, tcp, quic);
    }
  }

  ghost predicate SameLatencies(a: seq<Reply>, b: seq<Reply>) {
    |a| == |b| && forall i :: 0 <= i < |a| ==> Latency(a[i]) == Latency(b[i])
  }

  /** With no round trip to wait for and no jitter, equal clocks stay equal, and so do the latencies at any bandwidth. */
  lemma {:induction false} InstantSessions(u: Setup, v: Setup, s: Connection, t: Connection, reqs: seq<SegmentRequest>)
    requires SerialSetting(u, v, reqs) && s.channel == t.channel
    requires u.link.rtt == 0 && u.link.jitterMs <= 0.0 && s.wallClock == t.wallClock
    ensures SameLatencies(ServeAll(u, s, OneByOne(reqs)).1, ServeAll(v, t, OneByOne(reqs)).1)
    decreases |reqs|
  {
    hide Serve;
    hide ConnectionTime;
    hide Lost;
    hide After;
    hide Offsets;
    hide Packets;
    hide Latency;
    if reqs == [] {
      assert OneByOne(reqs) == [];
    } else {
      var call, calls := FetchConcurrent(false, [reqs[0]]), OneByOne(reqs);
      assert calls[0] == call && calls[1..] == OneByOne(reqs[1..]);
      var a, b := Serve(u, s, call), Serve(v, t, call);
      SerialStep(u, v, s, t, reqs[0]);
      assert |Lost(u.lossDraws, s.channel, Packets(reqs[0].sizeBytes))| * 0 == 0;
      InstantSessions(u, v, a.0, b.0, reqs[1..]);
    }
  }

  /** Both sessions draw the same jitter: from the same place, or none at all. */
  ghost predicate SameJitter(u: Setup, v: Setup, s: Connection, t: Connection) {
    u.link.jitterMs <= 0.0 || (u.draws == v.draws && s.cursor == t.cursor)
  }

  /**
   At prefetch depth 1, over whole sessions in which each transport keeps its own clock.
   At a steady bandwidth QUIC's latency of every request is TCP's, a round trip more for
   each of its lost packets, and the difference in jitter. When both draw the same
   jitter the sessions are alike exactly when the round trip takes no time or no packet
   of the whole session is lost. At a bandwidth that varies the clocks must agree as
   well, and they do when there is neither a round trip nor jitter.
   */
  lemma {:induction false} DepthOneSessions(u: Setup, v: Setup, s: Connection, t: Connection, reqs: seq<SegmentRequest>)
    requires SerialSetting(u, v, reqs) && s.channel == t.channel
    ensures var a, b := ServeAll(u, s, OneByOne(reqs)).1, ServeAll(v, t, OneByOne(reqs)).1;
            var lost := StreamLosses(u.lossDraws, s.channel, reqs);
            && |a| == |b| == |reqs|
            && (Steady(u.link) ==> Differ(u, v, s, t, reqs, a, b))
            && (Steady(u.link) && SameJitter(u, v, s, t) ==>
                  && (forall i :: 0 <= i < |reqs| ==> Latency(b[i]) == Latency(a[i]) + |lost[i]| * u.link.rtt)
                  && (SameLatencies(a, b) <==> u.link.rtt == 0 || Lost(u.lossDraws, s.channel, TotalPackets(reqs)) == []))
            && (u.link.rtt == 0 && u.link.jitterMs <= 0.0 && s.wallClock == t.wallClock ==> SameLatencies(a, b))
  {
    hide ServeAll;
    hide OneByOne;
    hide Latency;
    hide StreamLosses;
    hide Lost;
    hide TotalPackets;
    hide Steady;
    hide Jitter;
    if Steady(u.link) {
      SerialSessions(u, v, s, t, reqs);
      if SameJitter(u, v, s, t) {
        JitterCancels(u, v, s, t);
        AlikeWhenLossless(u, v, s, t, reqs, ServeAll(u, s, OneByOne(reqs)).1, ServeAll(v, t, OneByOne(reqs)).1);
      }
    }
    if u.link.rtt == 0 && u.link.jitterMs <= 0.0 && s.wallClock == t.wallClock {
      InstantSessions(u, v, s, t, reqs);
    }
  }

  lemma {:induction false} JitterCancels(u: Setup, v: Setup, s: Connection, t: Connection)
    requires u.link == v.link && SameJitter(u, v, s, t)
    ensures forall i: nat :: JitterAt(u, s.cursor, i) == JitterAt(v, t.cursor, i)
  {
  }

  lemma {:induction false} AlikeWhenLossless(u: Setup, v: Setup, s: Connection, t: Connection, reqs: seq<SegmentRequest>,
                                             a: seq<Reply>, b: seq<Reply>)
    requires Differ(u, v, s, t, reqs, a, b) && forall i: nat :: JitterAt(u, s.cursor, i) == JitterAt(v, t.cursor, i)
    ensures var lost := StreamLosses(u.lossDraws, s.channel, reqs);
            forall i :: 0 <= i < |reqs| ==> Latency(b[i]) == Latency(a[i]) + |lost[i]| * u.link.rtt
    ensures SameLatencies(a, b) <==> u.link.rtt == 0 || Lost(u.lossDraws, s.channel, TotalPackets(reqs)) == []
  {
    hide Latency;
    hide StreamLosses;
    hide Lost;
    hide TotalPackets;
    hide JitterAt;
    StreamLossesCount(u.lossDraws, s.channel, reqs);
    var lost := StreamLosses(u.lossDraws, s.channel, reqs);
    NoneLost(lost);
    forall i | 0 <= i < |lost| ensures |lost[i]| * u.link.rtt == 0 <==> |lost[i]| == 0 || u.link.rtt == 0 {
      ProductZero(|lost[i]|, u.link.rtt);
    }
    forall i | 0 <= i < |reqs| ensures Latency(b[i]) == Latency(a[i]) + |lost[i]| * u.link.rtt {
      assert JitterAt(u, s.cursor, i) == JitterAt(v, t.cursor, i);
    }
  }

  lemma {:induction false} NoneLost(lost: seq<seq<int>>)
    ensures CountAll(lost) == 0 <==> forall i :: 0 <= i < |lost| ==> |lost[i]| == 0
  {
    if lost != [] {
      NoneLost(lost[1..]);
      assert forall i :: 1 <= i < |lost| ==> lost[i] == lost[1..][i - 1];
      assert forall i :: 0 <= i < |lost| - 1 ==> lost[1..][i] == lost[i + 1];
    }
  }

  // ----- depth 1 after a handshake -----

  /** A session that shakes hands and then fetches one request at a time. */
  function Session(resumption: bool, reqs: seq<SegmentRequest>): seq<Call> {
    [Handshake(false, resumption)] + OneByOne(reqs)
  }

  /** How far the handshake moves the cursor: QUIC draws once more for a resumption. */
  function AfterHandshake(link: Link, quic: bool, resumption: bool): nat {
    (if quic && resumption then 1 else 0) + JitterDraws(link)
  }

  lemma {:induction false} Shaken(u: Setup, link: Link, resumption: bool, reqs: seq<SegmentRequest>)
    requires u.link == link
    ensures var s := Opened(link).(cursor := AfterHandshake(link, u.quic, resumption));
            ServeAll(u, Opened(link), Session(resumption, reqs)).1[1..] == ServeAll(u, s, OneByOne(reqs)).1
  {
    var calls := Session(resumption, reqs);
    assert calls[0] == Handshake(false, resumption) && calls[1..] == OneByOne(reqs);
  }

  /**
   The player never resumes. From one seed both of its sessions then draw their jitter
   from the same place, so at a steady bandwidth they are alike, on any link, exactly
   when the round trip takes no time or no packet of the whole session is lost.
   */
  lemma {:induction false} PlayerSessions(gen: Generator, seed: int, link: Link, zeroRTTRate: real, reqs: seq<SegmentRequest>)
    requires Steady(link) && forall i :: 0 <= i < |reqs| ==> reqs[i].sizeBytes > 0
    ensures var u, v := Seeded(false, link, gen, seed, 0.0), Seeded(true, link, gen, seed, zeroRTTRate);
            var a := ServeAll(u, Opened(link), Session(false, reqs)).1[1..];
            var b := ServeAll(v, Opened(link), Session(false, reqs)).1[1..];
            var lost := StreamLosses(u.lossDraws, Opened(link).channel, reqs);
            && |a| == |b| == |reqs|
            && (forall i :: 0 <= i < |reqs| ==> Latency(b[i]) == Latency(a[i]) + |lost[i]| * link.rtt)
            && (SameLatencies(a, b) <==> link.rtt == 0 || Lost(u.lossDraws, Opened(link).channel, TotalPackets(reqs)) == [])
  {
    hide ServeAll;
    hide OneByOne;
    hide Session;
    hide Latency;
    hide StreamLosses;
    hide Lost;
    hide TotalPackets;
    hide Steady;
    var u, v := Seeded(false, link, gen, seed, 0.0), Seeded(true, link, gen, seed, zeroRTTRate);
    var s := Opened(link).(cursor := AfterHandshake(link, false, false));
    Shaken(u, link, false, reqs);
    Shaken(v, link, false, reqs);
    DepthOneSessions(u, v, s, s, reqs);
  }

  /** After two resumed handshakes QUIC draws its jitter one place later, which is all that a lossless session differs by. */
  lemma {:induction false} ResumedSessions(gen: Generator, seed: int, link: Link, zeroRTTRate: real, reqs: seq<SegmentRequest>)
    requires Steady(link) && forall i :: 0 <= i < |reqs| ==> reqs[i].sizeBytes > 0
    ensures var u, v := Seeded(false, link, gen, seed, 0.0), Seeded(true, link, gen, seed, zeroRTTRate);
            var a := ServeAll(u, Opened(link), Session(true, reqs)).1[1..];
            var b := ServeAll(v, Opened(link), Session(true, reqs)).1[1..];
            var lost := StreamLosses(u.lossDraws, Opened(link).channel, reqs);
            && |a| == |b| == |reqs|
            && forall i :: 0 <= i < |reqs| ==>
                 Latency(b[i]) - Latency(a[i])
                 == |lost[i]| * link.rtt + JitterAt(u, 1 + JitterDraws(link), i) - JitterAt(u, JitterDraws(link), i)
  {
    hide ServeAll;
    hide OneByOne;
    hide Session;
    hide Latency;
    hide StreamLosses;
    hide Steady;
    var u, v := Seeded(false, link, gen, seed, 0.0), Seeded(true, link, gen, seed, zeroRTTRate);
    Shaken(u, link, true, reqs);
    Shaken(v, link, true, reqs);
    SerialSessions(u, v, Opened(link).(cursor := JitterDraws(link)), Opened(link).(cursor := 1 + JitterDraws(link)), reqs);
  }

  /** Draws whose third is large, and a jitter of a millisecond for a large first draw. */
  function ThirdLarge(): Draws {
    k => if k == 2 then 0.9 else 0.1
  }

  function LargeDraws(): (real, real) -> nat {
    (x, y) => if x > 0.5 then 1_000_000 else 0
  }

  /** One seed, no loss, a steady bandwidth, and yet a millisecond between the two, because both resumed. */
  lemma {:induction false} ResumptionShiftsJitter(seed: int, zeroRTTRate: real)
    ensures var gen := Generator(x => 0, x => ThirdLarge(), x => ThirdLarge());
            var link := Link(1_000_000, 1.0, LargeDraws(), t => 1000.0, LossConfig("none", 0.0, 0.0, 0.0, 0.0), 0);
            var u, v := Seeded(false, link, gen, seed, 0.0), Seeded(true, link, gen, seed, zeroRTTRate);
            var reqs := [SegmentRequest("a", 1, 1460)];
            var a := ServeAll(u, Opened(link), Session(true, reqs)).1[1..];
            var b := ServeAll(v, Opened(link), Session(true, reqs)).1[1..];
            && Steady(link) && Lost(u.lossDraws, Opened(link).channel, TotalPackets(reqs)) == []
            && |a| == |b| == 1 && Latency(a[0]) == Latency(b[0]) + 1_000_000
  {
    hide ServeAll;
    hide Session;
    hide Latency;
    hide StreamLosses;
    hide Lost;
    hide TotalPackets;
    hide JitterAt;
    var gen := Generator(x => 0, x => ThirdLarge(), x => ThirdLarge());
    var link := Link(1_000_000, 1.0, LargeDraws(), t => 1000.0, LossConfig("none", 0.0, 0.0, 0.0, 0.0), 0);
    var reqs := [SegmentRequest("a", 1, 1460)];
    var u, c := Seeded(false, link, gen, seed, 0.0), Opened(link).channel;
    assert NewModel(link.loss) == NoLoss;
    NoLossNeverLoses(u.lossDraws, c, TotalPackets(reqs));
    ResumedSessions(gen, seed, link, zeroRTTRate, reqs);
    StreamLossesCount(u.lossDraws, c, reqs);
    NoneLost(StreamLosses(u.lossDraws, c, reqs));
    LargeJitter(u);
  }

  lemma {:induction false} LargeJitter(u: Setup)
    requires u.link.jitterMs > 0.0 && u.link.jitter == LargeDraws() && u.draws == ThirdLarge()
    ensures JitterDraws(u.link) == 2 && JitterAt(u, 2, 0) == 1_000_000 && JitterAt(u, 3, 0) == 0
  {
    assert Jitter(u.link, u.draws, 2) == 1_000_000 && Jitter(u.link, u.draws, 4) == 0;
    assert Jitter(u.link, u.draws, 3) == 0 && Jitter(u.link, u.draws, 5) == 0;
  }

  /** A trace of 1000 Mbps for three milliseconds and 1 Mbps after that. */
  function Falling(t: nat): real {
    if t < 3_000_000 then 1000.0 else 1.0
  }

  /**
   Without any loss, but at a bandwidth that falls: TCP looks the second request's
   bandwidth up two milliseconds into the session and QUIC three, because only QUIC's
   clock counts the time to the first byte. TCP's latency is 3 ms and QUIC's 12.68 ms.
   */
  lemma {:induction false} ClocksDrift(draws: Draws)
    ensures var link := Link(2_000_000, 0.0, (x, y) => 0, Falling, LossConfig("none", 0.0, 0.0, 0.0, 0.0), 0);
            var u, v := Setup(false, link, draws, draws, 0.0), Setup(true, link, draws, draws, 0.0);
            var reqs := [SegmentRequest("a", 1, 1460), SegmentRequest("b", 1, 1460)];
            var a, b := ServeAll(u, Opened(link), OneByOne(reqs)).1, ServeAll(v, Opened(link), OneByOne(reqs)).1;
            && SerialSetting(u, v, reqs) && Lost(draws, Opened(link).channel, TotalPackets(reqs)) == []
            && |a| == |b| == 2 && Latency(a[0]) == Latency(b[0]) == 3_000_000
            && Latency(a[1]) == 3_000_000 && Latency(b[1]) == 12_680_000
  {
    hide Serve;
    hide Latency;
    hide Offsets;
    var link := Link(2_000_000, 0.0, (x, y) => 0, Falling, LossConfig("none", 0.0, 0.0, 0.0, 0.0), 0);
    var u, v := Setup(false, link, draws, draws, 0.0), Setup(true, link, draws, draws, 0.0);
    var first, second := SegmentRequest("a", 1, 1460), SegmentRequest("b", 1, 1460);
    var reqs, s := [first, second], Opened(link);
    assert NewModel(link.loss) == NoLoss;
    NoLossNeverLoses(draws, s.channel, 1);
    NoLossNeverLoses(draws, s.channel, TotalPackets(reqs));
    DriftTimes(link);
    var one, two := FetchConcurrent(false, [first]), FetchConcurrent(false, [second]);
    assert OneByOne(reqs) == [one, two] && [one, two][1..] == [two] && [two][1..] == [];
    SerialStep(u, v, s, s, first);
    var a, b := Serve(u, s, one), Serve(v, s, one);
    assert a.0.wallClock == 2_000_000 && b.0.wallClock == 3_000_000;
    SerialStep(u, v, a.0, b.0, second);
  }

  lemma {:induction false} DriftTimes(link: Link)
    requires link.rtt == 2_000_000 && link.bandwidth == Falling
    ensures Packets(1460) == 1
    ensures forall t: nat :: t < 3_000_000 ==> ConnectionTime(link, 1460, Offsets([], 0), t) == 2_000_000
    ensures ConnectionTime(link, 1460, Offsets([], 0), 3_000_000) == 11_680_000
  {
    hide BandwidthTime;
    LinkCarries(1460, 1000.0);
    LinkCarries(1460, 1.0);
    assert Offsets([], 0) == [];
    assert TransferRtts(1460, []) == 1;
  }
}
