/**
 Reno transfer times, window by window (internal/transport/modeled/congestion.go).
 The initial window of ten segments follows section 2 of RFC 6928, and the floor of
 two segments for ssthresh follows section 3.1 of RFC 5681.
 */
module Reno {
  import opened Sorting
  import opened Wrappers

  const MSS: int := 1460
  const INITIAL_WINDOW: int := 10 * MSS
  const UNBOUNDED: int := 1_073_741_824

  /** Some loss offset lies in [lo, hi). */
  ghost predicate LossIn(losses: seq<int>, lo: int, hi: int) {
    exists i :: 0 <= i < |losses| && lo <= losses[i] < hi
  }

  function Grow(cwnd: int, ssthresh: int): int {
    if cwnd < ssthresh then 2 * cwnd else cwnd + MSS
  }

  function Halve(cwnd: int): int {
    if cwnd / 2 < 2 * MSS then 2 * MSS else cwnd / 2
  }

  /** Round trips from byte `sent` on: one per window, and one more for a window with a loss. */
  ghost function Rtts(sent: int, total: int, cwnd: int, ssthresh: int, losses: seq<int>): nat
    requires cwnd >= 2 * MSS
    decreases total - sent
  {
    if sent >= total then 0
    else
      var end := Min(sent + cwnd, total);
      if LossIn(losses, sent, end) then 2 + Rtts(end, total, Halve(cwnd), Halve(cwnd), losses)
      else 1 + Rtts(end, total, Grow(cwnd, ssthresh), ssthresh, losses)
  }

  ghost function TransferRtts(total: int, losses: seq<int>): nat {
    Rtts(0, total, INITIAL_WINDOW, UNBOUNDED, losses)
  }

  /** Every offset before position idx lies below this byte. */
  ghost predicate Passed(losses: seq<int>, idx: int, byte: int) {
    forall i :: 0 <= i < idx && i < |losses| ==> losses[i] < byte
  }

  class CongestionController {
    const cwnd: int
    const ssthresh: int
    const mss: int
    const rtt: int

    ghost predicate Fresh() {
      cwnd == INITIAL_WINDOW && ssthresh == UNBOUNDED && mss == MSS
    }

    constructor (rtt: int)
      ensures Fresh() && this.rtt == rtt
    {
      cwnd := INITIAL_WINDOW;
      ssthresh := UNBOUNDED;
      mss := MSS;
      this.rtt := rtt;
    }

    /** The inner loop: consume the offsets below the end of the window, and say whether one was inside it. */
    method ScanWindow(lossAtBytes: seq<int>, start: int, windowStart: int, windowEnd: int)
      returns (lossIdx: int, lossInWindow: bool)
      requires Ascending(lossAtBytes) && 0 <= start <= |lossAtBytes| && windowStart < windowEnd
      requires Passed(lossAtBytes, start, windowStart)
      ensures start <= lossIdx <= |lossAtBytes| && Passed(lossAtBytes, lossIdx, windowEnd)
      ensures forall i :: lossIdx <= i < |lossAtBytes| ==> lossAtBytes[i] >= windowEnd
      ensures lossInWindow == LossIn(lossAtBytes, windowStart, windowEnd)
    {
      lossIdx, lossInWindow := start, false;
      while lossIdx < |lossAtBytes| && lossAtBytes[lossIdx] < windowEnd
        invariant start <= lossIdx <= |lossAtBytes| && Passed(lossAtBytes, lossIdx, windowEnd)
        invariant lossInWindow <==> exists i :: start <= i < lossIdx && lossAtBytes[i] >= windowStart
      {
        if lossAtBytes[lossIdx] >= windowStart {
          lossInWindow := true;
        }
        lossIdx := lossIdx + 1;
      }
    }

    method TransferTime(totalBytes: int, lossAtBytes: seq<int>) returns (time: int)
      requires Fresh() && Ascending(lossAtBytes)
      ensures time == TransferRtts(totalBytes, lossAtBytes) * rtt
    {
      hide Passed;
      hide LossIn;
      assert Passed(lossAtBytes, 0, 0) by { PassedNone(lossAtBytes); }
      if totalBytes <= 0 {
        return 0;
      }
      var sent, rtts, lossIdx := 0, 0, 0;
      var cwnd, ssthresh, mss := this.cwnd, this.ssthresh, this.mss;
      while sent < totalBytes
        invariant 0 <= sent <= totalBytes && cwnd >= 2 * mss && mss == MSS && rtts >= 0
        invariant 0 <= lossIdx <= |lossAtBytes|
        invariant Passed(lossAtBytes, lossIdx, sent)
        invariant rtts + Rtts(sent, totalBytes, cwnd, ssthresh, lossAtBytes) == TransferRtts(totalBytes, lossAtBytes)
        decreases totalBytes - sent
      {
        var remaining := totalBytes - sent;
        var toSend := cwnd;
        if toSend > remaining {
          toSend := remaining;
        }
        if toSend <= 0 {
          assert false;  // the window never closes
          break;
        }
        var windowStart, windowEnd := sent, sent + toSend;
        rtts := rtts + 1;
        sent := windowEnd;
        var lossInWindow;
        lossIdx, lossInWindow := ScanWindow(lossAtBytes, lossIdx, windowStart, windowEnd);
        if lossInWindow {
          rtts := rtts + 1;
          ssthresh := cwnd / 2;
          if ssthresh < 2 * mss {
            ssthresh := 2 * mss;
          }
          cwnd := ssthresh;
          continue;
        }
        if cwnd < ssthresh {
          cwnd := cwnd * 2;
        } else {
          cwnd := cwnd + mss;
        }
      }
      time := rtts * rtt;
    }
  }

  lemma PassedNone(losses: seq<int>)
    ensures Passed(losses, 0, 0)
  {
  }
}

module RenoTheorems {
  import opened Reno
  import opened Sorting
  import opened Wrappers

  // ----- against the clean run -----

  /**
   A connection that has seen a loss never overtakes a clean one: it is behind in bytes
   and in window, and it grows by at most one segment per round trip.
   */
  lemma {:induction false} CleanStaysAhead(sent: int, cwnd: int, ssthresh: int, losses: seq<int>,
                                           cleanSent: int, cleanCwnd: int, cleanThresh: int, total: int)
    requires sent <= cleanSent && 2 * MSS <= cwnd <= cleanCwnd && cwnd >= ssthresh
    ensures Rtts(cleanSent, total, cleanCwnd, cleanThresh, []) <= Rtts(sent, total, cwnd, ssthresh, losses)
    decreases total - sent
  {
    if sent < total && cleanSent < total {
      var end, cleanEnd := Min(sent + cwnd, total), Min(cleanSent + cleanCwnd, total);
      var next := Grow(cleanCwnd, cleanThresh);
      if LossIn(losses, sent, end) {
        CleanStaysAhead(end, Halve(cwnd), Halve(cwnd), losses, cleanEnd, next, cleanThresh, total);
      } else {
        CleanStaysAhead(end, Grow(cwnd, ssthresh), ssthresh, losses, cleanEnd, next, cleanThresh, total);
      }
    }
  }

  lemma {:induction false} LossesSlowFrom(sent: int, total: int, cwnd: int, ssthresh: int, losses: seq<int>)
    requires cwnd >= 2 * MSS
    ensures Rtts(sent, total, cwnd, ssthresh, losses)
            >= Rtts(sent, total, cwnd, ssthresh, []) + (if LossIn(losses, sent, total) then 1 else 0)
    decreases total - sent
  {
    if sent < total {
      var end := Min(sent + cwnd, total);
      if LossIn(losses, sent, end) {
        CleanStaysAhead(end, Halve(cwnd), Halve(cwnd), losses, end, Grow(cwnd, ssthresh), ssthresh, total);
      } else {
        LossesSlowFrom(end, total, Grow(cwnd, ssthresh), ssthresh, losses);
      }
    }
  }

  /** Losses never speed a transfer up, and one inside it costs at least one round trip. */
  lemma {:induction false} LossesSlowTransfers(total: int, losses: seq<int>)
    ensures TransferRtts(total, losses) >= TransferRtts(total, [])
    ensures LossIn(losses, 0, total) ==> TransferRtts(total, losses) >= TransferRtts(total, []) + 1
  {
    LossesSlowFrom(0, total, INITIAL_WINDOW, UNBOUNDED, losses);
  }

  /** Losses outside the transfer change nothing. */
  lemma {:induction false} IrrelevantLosses(sent: int, total: int, cwnd: int, ssthresh: int, losses: seq<int>)
    requires cwnd >= 2 * MSS && !LossIn(losses, sent, total)
    ensures Rtts(sent, total, cwnd, ssthresh, losses) == Rtts(sent, total, cwnd, ssthresh, [])
    decreases total - sent
  {
    if sent < total {
      IrrelevantLosses(Min(sent + cwnd, total), total, Grow(cwnd, ssthresh), ssthresh, losses);
    }
  }

  lemma {:induction false} LossInAppend(a: seq<int>, b: seq<int>, lo: int, hi: int)
    ensures LossIn(a + b, lo, hi) <==> LossIn(a, lo, hi) || LossIn(b, lo, hi)
  {
    var ab := a + b;
    if i :| 0 <= i < |a| && lo <= a[i] < hi {
      assert ab[i] == a[i];
    }
    if i :| 0 <= i < |b| && lo <= b[i] < hi {
      assert ab[|a| + i] == b[i];
    }
    if i :| 0 <= i < |ab| && lo <= ab[i] < hi {
      assert if i < |a| then ab[i] == a[i] else ab[i] == b[i - |a|];
    }
  }

  lemma {:induction false} MoreBytesFrom(sent: int, total: int, more: int, cwnd: int, ssthresh: int, losses: seq<int>)
    requires cwnd >= 2 * MSS && total <= more
    ensures Rtts(sent, total, cwnd, ssthresh, losses) <= Rtts(sent, more, cwnd, ssthresh, losses)
    decreases total - sent
  {
    if sent < total && sent + cwnd <= total {
      var end := sent + cwnd;
      if LossIn(losses, sent, end) {
        MoreBytesFrom(end, total, more, Halve(cwnd), Halve(cwnd), losses);
      } else {
        MoreBytesFrom(end, total, more, Grow(cwnd, ssthresh), ssthresh, losses);
      }
    }
  }

  /** For a fixed loss list, more bytes never take fewer round trips. */
  lemma {:induction false} MoreBytesTakeLonger(total: int, more: int, losses: seq<int>)
    requires total <= more
    ensures TransferRtts(total, losses) <= TransferRtts(more, losses)
  {
    MoreBytesFrom(0, total, more, INITIAL_WINDOW, UNBOUNDED, losses);
  }

  // ----- windows -----

  datatype Window = Window(start: int, end: int, cwnd: int, lossy: bool)

  ghost function Windows(sent: int, total: int, cwnd: int, ssthresh: int, losses: seq<int>): seq<Window>
    requires cwnd >= 2 * MSS
    decreases total - sent
  {
    if sent >= total then []
    else
      var end := Min(sent + cwnd, total);
      var lossy := LossIn(losses, sent, end);
      [Window(sent, end, cwnd, lossy)]
      + if lossy then Windows(end, total, Halve(cwnd), Halve(cwnd), losses)
        else Windows(end, total, Grow(cwnd, ssthresh), ssthresh, losses)
  }

  function LossyCount(ws: seq<Window>): nat {
    if ws == [] then 0 else (if ws[0].lossy then 1 else 0) + LossyCount(ws[1..])
  }

  /** The windows cover [sent, total) without gap or overlap; only the last may be short. */
  ghost predicate Tiles(ws: seq<Window>, sent: int, total: int) {
    && (ws == [] <==> sent >= total)
    && (ws != [] ==> ws[0].start == sent && ws[|ws| - 1].end == total)
    && (forall i :: 0 <= i < |ws| ==> ws[i].start < ws[i].end <= ws[i].start + ws[i].cwnd && ws[i].cwnd >= 2 * MSS)
    && (forall i :: 0 <= i < |ws| - 1 ==> ws[i].end == ws[i].start + ws[i].cwnd == ws[i + 1].start)
  }

  /** Without a loss in it, each window is followed by one that is a segment larger. */
  ghost predicate Linear(ws: seq<Window>) {
    forall j :: 0 <= j < |ws| - 1 && !ws[j].lossy ==> ws[j + 1].cwnd == ws[j].cwnd + MSS
  }

  /** No window up to and including number j has a loss. */
  ghost predicate CleanUpTo(ws: seq<Window>, j: nat)
    requires j < |ws|
  {
    forall i :: 0 <= i <= j ==> !ws[i].lossy
  }

  /** Half of the window, rounded down, but never less than two segments. */
  ghost predicate Halved(c: int, next: int) {
    if c >= 4 * MSS then 2 * next <= c < 2 * next + 2 else next == 2 * MSS
  }

  ghost predicate LossesMarked(ws: seq<Window>, losses: seq<int>) {
    forall i :: 0 <= i < |ws| ==> (ws[i].lossy <==> LossIn(losses, ws[i].start, ws[i].end))
  }

  ghost predicate LossesHalve(ws: seq<Window>) {
    forall i :: 0 <= i < |ws| - 1 && ws[i].lossy ==> Halved(ws[i].cwnd, ws[i + 1].cwnd)
  }

  ghost predicate LinearAfterLoss(ws: seq<Window>) {
    forall i, j :: 0 <= i < j < |ws| - 1 && ws[i].lossy && !ws[j].lossy ==> ws[j + 1].cwnd == ws[j].cwnd + MSS
  }

  ghost predicate SlowStart(ws: seq<Window>, ssthresh: int) {
    forall j :: 0 <= j < |ws| - 1 && CleanUpTo(ws, j) ==>
      ws[j + 1].cwnd == if ws[j].cwnd < ssthresh then 2 * ws[j].cwnd else ws[j].cwnd + MSS
  }

  /**
   How the windows follow each other: halved by a loss; doubled, while below ssthresh, up to
   the first loss; one segment more in every other case.
   */
  ghost predicate Reacts(ws: seq<Window>, ssthresh: int, losses: seq<int>) {
    LossesMarked(ws, losses) && LossesHalve(ws) && LinearAfterLoss(ws) && SlowStart(ws, ssthresh)
  }

  lemma {:induction false} TilesCons(w: Window, rest: seq<Window>, total: int)
    requires Tiles(rest, w.end, total) && w.start < w.end <= total && w.cwnd >= 2 * MSS
    requires w.end == Min(w.start + w.cwnd, total)
    ensures Tiles([w] + rest, w.start, total)
  {
    var ws := [w] + rest;
    assert ws[0] == w;
    assert forall i :: 1 <= i < |ws| ==> ws[i] == rest[i - 1];
    assert rest != [] ==> ws[|ws| - 1] == rest[|rest| - 1];
  }

  lemma {:induction false} MarkedCons(w: Window, rest: seq<Window>, losses: seq<int>)
    requires LossesMarked(rest, losses) && (w.lossy <==> LossIn(losses, w.start, w.end))
    requires LossesHalve(rest) && (w.lossy && rest != [] ==> Halved(w.cwnd, rest[0].cwnd))
    ensures LossesMarked([w] + rest, losses) && LossesHalve([w] + rest)
  {
    hide LossIn;
    hide Halved;
    var ws := [w] + rest;
    assert forall i :: 1 <= i < |ws| ==> ws[i] == rest[i - 1];
  }

  lemma {:induction false} GrowthAfterLoss(w: Window, rest: seq<Window>, ssthresh: int)
    requires w.lossy && Linear(rest)
    ensures LinearAfterLoss([w] + rest) && SlowStart([w] + rest, ssthresh)
  {
    var ws := [w] + rest;
    assert ws[0] == w && ws[0].lossy;
    assert forall i :: 1 <= i < |ws| ==> ws[i] == rest[i - 1];
  }

  lemma {:induction false} LinearAfterClean(w: Window, rest: seq<Window>)
    requires !w.lossy && LinearAfterLoss(rest)
    ensures LinearAfterLoss([w] + rest)
  {
    var ws := [w] + rest;
    assert ws[0] == w;
    assert forall i :: 1 <= i < |ws| ==> ws[i] == rest[i - 1];
  }

  lemma {:induction false} SlowStartCons(w: Window, rest: seq<Window>, ssthresh: int)
    requires !w.lossy && SlowStart(rest, ssthresh)
    requires rest != [] ==> rest[0].cwnd == if w.cwnd < ssthresh then 2 * w.cwnd else w.cwnd + MSS
    ensures SlowStart([w] + rest, ssthresh)
  {
    var ws := [w] + rest;
    assert ws[0] == w;
    assert forall i :: 1 <= i < |ws| ==> ws[i] == rest[i - 1];
    forall j | 1 <= j < |ws| - 1 && CleanUpTo(ws, j) ensures CleanUpTo(rest, j - 1) {
      assert forall i :: 0 <= i < |rest| ==> rest[i] == ws[i + 1];
    }
  }

  lemma {:induction false} LinearCons(w: Window, rest: seq<Window>)
    requires Linear(rest) && (!w.lossy && rest != [] ==> rest[0].cwnd == w.cwnd + MSS)
    ensures Linear([w] + rest)
  {
    var ws := [w] + rest;
    assert forall i :: 1 <= i < |ws| ==> ws[i] == rest[i - 1];
  }

  lemma HalveHalves(c: int)
    ensures c >= 2 * MSS ==> Halved(c, Halve(c))
  {
  }

  lemma {:induction false} WindowsTile(sent: int, total: int, cwnd: int, ssthresh: int, losses: seq<int>)
    requires cwnd >= 2 * MSS
    ensures var ws := Windows(sent, total, cwnd, ssthresh, losses);
            && Tiles(ws, sent, total) && Reacts(ws, ssthresh, losses)
            && (ws != [] ==> ws[0].cwnd == cwnd)
            && (cwnd >= ssthresh ==> Linear(ws))
            && Rtts(sent, total, cwnd, ssthresh, losses) == |ws| + LossyCount(ws)
    decreases total - sent
  {
    hide Tiles;
    hide LossesMarked;
    hide LossesHalve;
    hide LinearAfterLoss;
    hide SlowStart;
    hide Linear;
    hide LossIn;
    if sent >= total {
      TilesNil(sent, total, ssthresh, losses);
    } else {
      var end := Min(sent + cwnd, total);
      var lossy := LossIn(losses, sent, end);
      var c, t := if lossy then Halve(cwnd) else Grow(cwnd, ssthresh), if lossy then Halve(cwnd) else ssthresh;
      WindowsTile(end, total, c, t, losses);
      var w, rest := Window(sent, end, cwnd, lossy), Windows(end, total, c, t, losses);
      assert Windows(sent, total, cwnd, ssthresh, losses) == [w] + rest;
      assert ([w] + rest)[1..] == rest;
      TilesCons(w, rest, total);
      HalveHalves(cwnd);
      MarkedCons(w, rest, losses);
      if lossy {
        GrowthAfterLoss(w, rest, ssthresh);
      } else {
        LinearAfterClean(w, rest);
        SlowStartCons(w, rest, ssthresh);
      }
      if cwnd >= ssthresh {
        LinearCons(w, rest);
      }
    }
  }

  lemma TilesNil(sent: int, total: int, ssthresh: int, losses: seq<int>)
    requires sent >= total
    ensures Tiles([], sent, total) && Reacts([], ssthresh, losses) && Linear([])
  {
  }

  // ----- one more loss, anywhere in the list -----

  /** The window that a loss at x falls into, if any, has a loss already. */
  ghost predicate Absorbed(ws: seq<Window>, x: int) {
    forall i :: 0 <= i < |ws| && ws[i].start <= x < ws[i].end ==> ws[i].lossy
  }

  lemma AbsorbedNil(x: int)
    ensures Absorbed([], x)
  {
  }

  lemma {:induction false} AbsorbedCons(w: Window, rest: seq<Window>, x: int)
    ensures Absorbed([w] + rest, x) <==> (w.start <= x < w.end ==> w.lossy) && Absorbed(rest, x)
  {
    var ws := [w] + rest;
    assert ws[0] == w;
    if Absorbed(ws, x) {
      assert forall i :: 0 <= i < |rest| ==> rest[i] == ws[i + 1];
    }
  }

  /** more has the losses and one at x. */
  ghost predicate OneMore(losses: seq<int>, more: seq<int>, x: int) {
    forall lo, hi :: LossIn(more, lo, hi) <==> LossIn(losses, lo, hi) || lo <= x < hi
  }

  lemma {:induction false} ExtraLossFrom(sent: int, total: int, cwnd: int, ssthresh: int, losses: seq<int>, more: seq<int>, x: int)
    requires cwnd >= 2 * MSS
    requires OneMore(losses, more, x)
    ensures var ws := Windows(sent, total, cwnd, ssthresh, losses);
            Windows(sent, total, cwnd, ssthresh, more) == ws <==> Absorbed(ws, x)
    decreases total - sent
  {
    hide LossIn;
    hide Absorbed;
    if sent >= total {
      AbsorbedNil(x);
    } else {
      var end := Min(sent + cwnd, total);
      var lossy := LossIn(losses, sent, end);
      var c, t := if lossy then Halve(cwnd) else Grow(cwnd, ssthresh), if lossy then Halve(cwnd) else ssthresh;
      ExtraLossFrom(end, total, c, t, losses, more, x);
      var w, rest := Window(sent, end, cwnd, lossy), Windows(end, total, c, t, losses);
      AbsorbedCons(w, rest, x);
      assert Windows(sent, total, cwnd, ssthresh, losses) == [w] + rest && ([w] + rest)[1..] == rest;
      var others := Windows(sent, total, cwnd, ssthresh, more);
      assert others[0].lossy <==> lossy || sent <= x < end;
      if others[0].lossy == lossy {
        var same := Windows(end, total, c, t, more);
        assert others == [w] + same && ([w] + same)[1..] == same;
      }
    }
  }

  /** Past the extra loss, both lists are alike. */
  lemma {:induction false} SameLater(sent: int, total: int, cwnd: int, ssthresh: int, losses: seq<int>, more: seq<int>, x: int)
    requires cwnd >= 2 * MSS && OneMore(losses, more, x) && x < sent
    ensures Rtts(sent, total, cwnd, ssthresh, more) == Rtts(sent, total, cwnd, ssthresh, losses)
    decreases total - sent
  {
    hide LossIn;
    if sent < total {
      var end := Min(sent + cwnd, total);
      if LossIn(losses, sent, end) {
        SameLater(end, total, Halve(cwnd), Halve(cwnd), losses, more, x);
      } else {
        SameLater(end, total, Grow(cwnd, ssthresh), ssthresh, losses, more, x);
      }
    }
  }

  function RoundTrips(ws: seq<Window>): nat {
    |ws| + LossyCount(ws)
  }

  /** The case of the first window. */
  lemma {:induction false} RealignHere(sent: int, total: int, cwnd: int, ssthresh: int, losses: seq<int>, more: seq<int>, x: int)
    requires cwnd >= 2 * MSS && OneMore(losses, more, x)
    requires sent <= x < Min(sent + cwnd, total) && !LossIn(losses, sent, Min(sent + cwnd, total))
    ensures var end, c := Min(sent + cwnd, total), Halve(cwnd);
            && Rtts(sent, total, cwnd, ssthresh, more) == 2 + Rtts(end, total, c, c, losses)
            && (!LossIn(losses, end, total) ==>
                  Rtts(end, total, c, c, losses) >= Rtts(end, total, Grow(cwnd, ssthresh), ssthresh, losses))
  {
    hide LossIn;
    hide OneMore;
    var end := Min(sent + cwnd, total);
    OneMoreAt(losses, more, x, sent, end);
    SameLater(end, total, Halve(cwnd), Halve(cwnd), losses, more, x);
    if !LossIn(losses, end, total) {
      IrrelevantLosses(end, total, Grow(cwnd, ssthresh), ssthresh, losses);
      CleanStaysAhead(end, Halve(cwnd), Halve(cwnd), losses, end, Grow(cwnd, ssthresh), ssthresh, total);
    }
  }

  /** The loss falls into window i, which had none: what the two runs have in common, and what they do not. */
  lemma {:induction false} RealignFrom(sent: int, total: int, cwnd: int, ssthresh: int, losses: seq<int>, more: seq<int>, x: int, i: nat)
    requires cwnd >= 2 * MSS && OneMore(losses, more, x)
    requires var ws := Windows(sent, total, cwnd, ssthresh, losses); i < |ws| && ws[i].start <= x < ws[i].end && !ws[i].lossy
    ensures var ws := Windows(sent, total, cwnd, ssthresh, losses); var c := Halve(ws[i].cwnd);
            && Rtts(sent, total, cwnd, ssthresh, more) + RoundTrips(ws[i + 1..])
               == Rtts(sent, total, cwnd, ssthresh, losses) + 1 + Rtts(ws[i].end, total, c, c, losses)
            && (!LossIn(losses, ws[i].end, total) ==>
                  Rtts(sent, total, cwnd, ssthresh, more) >= Rtts(sent, total, cwnd, ssthresh, losses) + 1)
    decreases i
  {
    hide LossIn;
    hide Tiles;
    hide Reacts;
    hide Linear;
    hide LossyCount;
    hide OneMore;
    var ws := Windows(sent, total, cwnd, ssthresh, losses);
    var end := Min(sent + cwnd, total);
    var lossy := LossIn(losses, sent, end);
    var c, t := if lossy then Halve(cwnd) else Grow(cwnd, ssthresh), if lossy then Halve(cwnd) else ssthresh;
    var w, rest := Window(sent, end, cwnd, lossy), Windows(end, total, c, t, losses);
    assert ws == [w] + rest && ws[1..] == rest;
    WindowsTile(end, total, c, t, losses);
    OneMoreAt(losses, more, x, sent, end);
    hide Windows;
    if i == 0 {
      RealignHere(sent, total, cwnd, ssthresh, losses, more, x);
    } else {
      assert ws[i] == rest[i - 1] && ws[i + 1..] == rest[i..];
      TilesLength(rest, end, total, i - 1);
      RealignFrom(end, total, c, t, losses, more, x, i - 1);
    }
  }

  lemma OneMoreAt(losses: seq<int>, more: seq<int>, x: int, lo: int, hi: int)
    requires OneMore(losses, more, x)
    ensures LossIn(more, lo, hi) <==> LossIn(losses, lo, hi) || lo <= x < hi
  {
  }

  ghost function TransferWindows(total: int, losses: seq<int>): seq<Window> {
    Windows(0, total, INITIAL_WINDOW, UNBOUNDED, losses)
  }

  lemma {:induction false} Inserted(losses: seq<int>, k: nat, x: int)
    requires k <= |losses|
    ensures OneMore(losses, losses[..k] + [x] + losses[k..], x)
  {
    hide LossIn;
    var more := losses[..k] + [x] + losses[k..];
    forall lo, hi ensures LossIn(more, lo, hi) <==> LossIn(losses, lo, hi) || lo <= x < hi {
      LossInAppend(losses[..k] + [x], losses[k..], lo, hi);
      LossInAppend(losses[..k], [x], lo, hi);
      LossInAppend(losses[..k], losses[k..], lo, hi);
      assert losses[..k] + losses[k..] == losses;
      LossAt(x, lo, hi);
    }
  }

  /** Exactly when one more loss leaves every window as it was; then it costs nothing. */
  lemma {:induction false} ExtraLossAbsorbed(total: int, losses: seq<int>, k: nat, x: int)
    requires k <= |losses|
    ensures var more := losses[..k] + [x] + losses[k..]; var ws := TransferWindows(total, losses);
            && (TransferWindows(total, more) == ws <==> Absorbed(ws, x))
            && (Absorbed(ws, x) ==> TransferRtts(total, more) == TransferRtts(total, losses))
  {
    hide Windows;
    hide Rtts;
    hide LossIn;
    hide Absorbed;
    hide Tiles;
    hide Reacts;
    hide Linear;
    hide OneMore;
    var more := losses[..k] + [x] + losses[k..];
    Inserted(losses, k, x);
    ExtraLossFrom(0, total, INITIAL_WINDOW, UNBOUNDED, losses, more, x);
    WindowsTile(0, total, INITIAL_WINDOW, UNBOUNDED, losses);
    WindowsTile(0, total, INITIAL_WINDOW, UNBOUNDED, more);
  }

  /**
   Exactly what any other loss costs or saves: it adds its own recovery, and it replaces
   the round trips of the windows after its own by those of a halved window starting
   there. When no later window had a loss it costs at least one round trip.
   */
  lemma {:induction false} ExtraLossExact(total: int, losses: seq<int>, k: nat, x: int, i: nat)
    requires k <= |losses|
    requires var ws := TransferWindows(total, losses); i < |ws| && ws[i].start <= x < ws[i].end && !ws[i].lossy
    ensures var more := losses[..k] + [x] + losses[k..]; var ws := TransferWindows(total, losses);
            var halved := Rtts(ws[i].end, total, Halve(ws[i].cwnd), Halve(ws[i].cwnd), losses);
            && TransferRtts(total, more) - TransferRtts(total, losses) == 1 + halved - RoundTrips(ws[i + 1..])
            && (!LossIn(losses, ws[i].end, total) ==> TransferRtts(total, more) >= TransferRtts(total, losses) + 1)
  {
    hide Windows;
    hide Rtts;
    hide LossIn;
    hide OneMore;
    Inserted(losses, k, x);
    RealignFrom(0, total, INITIAL_WINDOW, UNBOUNDED, losses, losses[..k] + [x] + losses[k..], x, i);
  }

  /** A loss at the end of a sorted list is absorbed, or it costs at least one round trip. */
  lemma {:induction false} LastLossCosts(total: int, losses: seq<int>, x: int)
    requires Ascending(losses + [x])
    ensures var ws := TransferWindows(total, losses);
            && (Absorbed(ws, x) ==>
                  TransferWindows(total, losses + [x]) == ws && TransferRtts(total, losses + [x]) == TransferRtts(total, losses))
            && (!Absorbed(ws, x) ==> TransferRtts(total, losses + [x]) >= TransferRtts(total, losses) + 1)
  {
    hide TransferWindows;
    hide TransferRtts;
    var ws, more := TransferWindows(total, losses), losses + [x];
    assert losses[..|losses|] + [x] + losses[|losses|..] == more;
    ExtraLossAbsorbed(total, losses, |losses|, x);
    if !Absorbed(ws, x) {
      var i :| 0 <= i < |ws| && ws[i].start <= x < ws[i].end && !ws[i].lossy;
      ExtraLossExact(total, losses, |losses|, x, i);
      forall j | 0 <= j < |losses| ensures losses[j] <= x {
        assert more[j] <= more[|losses|];
      }
    }
  }

  /** Losses added at the end of a sorted list never help, and cost nothing exactly when every one is absorbed. */
  lemma {:induction false} LaterLossesNeverHelp(total: int, losses: seq<int>, later: seq<int>)
    requires Ascending(losses + later)
    ensures TransferRtts(total, losses) <= TransferRtts(total, losses + later)
    ensures TransferRtts(total, losses) == TransferRtts(total, losses + later)
            <==> forall x :: x in later ==> Absorbed(TransferWindows(total, losses), x)
    decreases |later|
  {
    hide TransferWindows;
    hide TransferRtts;
    hide Absorbed;
    if later == [] {
      assert losses + later == losses;
    } else {
      var x, rest, next := later[0], later[1..], losses + [later[0]];
      assert next + rest == losses + later;
      assert Ascending(next) by {
        assert next == (losses + later)[..|losses| + 1];
      }
      LastLossCosts(total, losses, x);
      LaterLossesNeverHelp(total, next, rest);
      assert forall y :: y in later <==> y == x || y in rest;
    }
  }

  lemma {:induction false} LossAt(x: int, lo: int, hi: int)
    ensures LossIn([x], lo, hi) <==> lo <= x < hi
  {
    if lo <= x < hi {
      assert [x][0] == x;
    }
  }

  lemma {:induction false} LossyAtMostAll(ws: seq<Window>)
    ensures LossyCount(ws) <= |ws|
  {
    if ws != [] {
      LossyAtMostAll(ws[1..]);
    }
  }

  /** Each window but the last carries at least two segments. */
  lemma {:induction false} TilesLength(ws: seq<Window>, sent: int, total: int, n: nat)
    requires Tiles(ws, sent, total) && n < |ws|
    ensures ws[n].start >= sent + n * (2 * MSS)
  {
    if n > 0 {
      TilesLength(ws, sent, total, n - 1);
    }
  }

  /** At most two round trips per window of two segments, whatever the losses. */
  lemma {:induction false} RttsBounded(total: int, losses: seq<int>)
    requires total > 0
    ensures TransferRtts(total, losses) <= 2 * ((total + 2 * MSS - 1) / (2 * MSS))
  {
    hide Reacts;
    hide Linear;
    hide LossIn;
    hide Windows;
    hide Rtts;
    WindowsTile(0, total, INITIAL_WINDOW, UNBOUNDED, losses);
    var ws := Windows(0, total, INITIAL_WINDOW, UNBOUNDED, losses);
    LossyAtMostAll(ws);
    TilesLength(ws, 0, total, |ws| - 1);
    assert ws[|ws| - 1].start < total;
    assert (|ws| - 1) * (2 * MSS) < total;
  }

  /**
   After a lossy window, n full clean ones grow by a segment each from the halved window c on:
   they carry n * c bytes and MSS * n * (n - 1) / 2 more, which is at least 2 + 3 + ... + (n + 1)
   segments.
   */
  lemma {:induction false} RecoveryCarries(ws: seq<Window>, ssthresh: int, losses: seq<int>, sent: int, total: int, i: nat, n: nat)
    requires Tiles(ws, sent, total) && Reacts(ws, ssthresh, losses)
    requires i + n + 1 < |ws| && ws[i].lossy && forall j :: i < j <= i + n ==> !ws[j].lossy
    ensures var c := ws[i + 1].cwnd;
            && ws[i + n + 1].cwnd == c + n * MSS >= (n + 2) * MSS
            && 2 * (ws[i + n].end - ws[i].end) == n * (2 * c) + MSS * (n * (n - 1)) >= MSS * (n * (n + 3))
    decreases n
  {
    hide LossIn;
    hide Halved;
    var c := ws[i + 1].cwnd;
    if n > 0 {
      RecoveryCarries(ws, ssthresh, losses, sent, total, i, n - 1);
      assert ws[i + n].start == ws[i + n - 1].end;
      RecoverySum(c, n);
    }
    RecoveryLeast(c, n);
  }

  lemma {:induction false} RecoverySum(c: int, n: int)
    ensures n * (2 * c) + MSS * (n * (n - 1)) == (n - 1) * (2 * c) + MSS * ((n - 1) * (n - 2)) + 2 * (c + (n - 1) * MSS)
  {
    assert n * (n - 1) == (n - 1) * (n - 2) + 2 * (n - 1);
  }

  lemma {:induction false} RecoveryLeast(c: int, n: nat)
    requires c >= 2 * MSS
    ensures n * (2 * c) + MSS * (n * (n - 1)) >= MSS * (n * (n + 3))
  {
    assert n * (2 * c) >= n * (4 * MSS);
    assert n * (n + 3) == n * (n - 1) + 4 * n;
  }

  // ----- the loss-free count, in closed form -----

  function Pow2(n: nat): nat {
    if n == 0 then 1 else 2 * Pow2(n - 1)
  }

  /** The clean window: doubling up to and including round 17, one segment more per round after it. */
  function CleanWindow(n: nat): int {
    if n <= 17 then INITIAL_WINDOW * Pow2(n) else INITIAL_WINDOW * Pow2(17) + MSS * (n - 17)
  }

  function Triangle(k: int): int {
    k * (k + 1) / 2
  }

  /** Bytes a clean connection has sent after n round trips. */
  function CleanBytes(n: nat): int {
    if n <= 18 then INITIAL_WINDOW * (Pow2(n) - 1)
    else INITIAL_WINDOW * (Pow2(18) - 1) + INITIAL_WINDOW * Pow2(17) * (n - 18) + MSS * Triangle(n - 18)
  }

  lemma {:induction false} Pow2Values()
    ensures Pow2(16) == 65536 && Pow2(17) == 131072 && Pow2(18) == 262144
  {
    assert Pow2(4) == 16;
    assert Pow2(8) == 256;
    assert Pow2(12) == 4096;
    assert Pow2(16) == 65536;
  }

  lemma {:induction false} Pow2Monotone(m: nat, n: nat)
    requires m <= n
    ensures 1 <= Pow2(m) <= Pow2(n)
    decreases n
  {
    if n > m {
      Pow2Monotone(m, n - 1);
    } else if n > 0 {
      Pow2Monotone(m - 1, n - 1);
    }
  }

  lemma {:induction false} CleanWindowGrows(n: nat)
    ensures CleanWindow(n) >= INITIAL_WINDOW
    ensures CleanWindow(n + 1) == Grow(CleanWindow(n), UNBOUNDED)
    ensures CleanBytes(n + 1) == CleanBytes(n) + CleanWindow(n)
  {
    hide Triangle;
    hide Pow2;
    Pow2Values();
    Pow2Monotone(0, n);
    Pow2Step(n);
    assert Triangle(0) == 0 by { TriangleZero(); }
    if n <= 16 {
      Pow2Monotone(n, 16);
    } else if n >= 18 {
      LinearBytes(n - 18);
    }
  }

  lemma TriangleZero()
    ensures Triangle(0) == 0
  {
  }

  lemma Pow2Step(n: nat)
    ensures Pow2(n + 1) == 2 * Pow2(n)
  {
  }

  lemma {:induction false} LinearBytes(k: nat)
    ensures Triangle(k + 1) == Triangle(k) + k + 1
  {
    assert (k + 1) * (k + 2) == k * (k + 1) + 2 * (k + 1);
  }

  lemma {:induction false} CleanFrom(n: nat, total: int)
    requires CleanBytes(n) < total
    ensures CleanWindow(n) >= 2 * MSS
    ensures var k := Rtts(CleanBytes(n), total, CleanWindow(n), UNBOUNDED, []);
            k > 0 && CleanBytes(n + k - 1) < total <= CleanBytes(n + k)
    decreases total - CleanBytes(n)
  {
    hide CleanWindow;
    hide CleanBytes;
    hide LossIn;
    CleanWindowGrows(n);
    OneWindow(CleanBytes(n), total, CleanWindow(n), UNBOUNDED, [], false) by {
      Clear([], CleanBytes(n), Min(CleanBytes(n) + CleanWindow(n), total));
    }
    if CleanBytes(n + 1) < total {
      CleanFrom(n + 1, total);
    } else {
      Finished(total, Grow(CleanWindow(n), UNBOUNDED), UNBOUNDED, []);
    }
  }

  /** With no loss, the number of round trips is the least n whose clean bytes cover the transfer. */
  lemma {:induction false} CleanCount(total: int, n: nat)
    requires total > 0
    ensures TransferRtts(total, []) == n <==> (n > 0 && CleanBytes(n - 1) < total <= CleanBytes(n))
  {
    assert CleanBytes(0) == 0 && CleanWindow(0) == INITIAL_WINDOW;
    CleanFrom(0, total);
    hide CleanBytes;
    var k := TransferRtts(total, []);
    if n > 0 && CleanBytes(n - 1) < total <= CleanBytes(n) {
      if n < k {
        CleanBytesMonotone(n, k - 1);
      } else if k < n {
        CleanBytesMonotone(k, n - 1);
      }
    }
  }

  lemma {:induction false} CleanBytesMonotone(m: nat, n: nat)
    requires m <= n
    ensures CleanBytes(m) <= CleanBytes(n)
    decreases n
  {
    if m < n {
      CleanBytesMonotone(m, n - 1);
      CleanWindowGrows(n - 1);
    }
  }

  // ----- adding a loss to a lossy transfer may speed it up -----

  lemma OneWindow(sent: int, total: int, cwnd: int, ssthresh: int, losses: seq<int>, lossy: bool)
    requires cwnd >= 2 * MSS && sent < total
    requires lossy == LossIn(losses, sent, Min(sent + cwnd, total))
    ensures Rtts(sent, total, cwnd, ssthresh, losses) ==
            if lossy then 2 + Rtts(Min(sent + cwnd, total), total, Halve(cwnd), Halve(cwnd), losses)
            else 1 + Rtts(Min(sent + cwnd, total), total, Grow(cwnd, ssthresh), ssthresh, losses)
  {
  }

  lemma Hit(losses: seq<int>, i: nat, lo: int, hi: int)
    requires i < |losses| && lo <= losses[i] < hi
    ensures LossIn(losses, lo, hi)
  {
  }

  lemma Clear(losses: seq<int>, lo: int, hi: int)
    requires forall i :: 0 <= i < |losses| ==> !(lo <= losses[i] < hi)
    ensures !LossIn(losses, lo, hi)
  {
  }

  lemma Finished(total: int, cwnd: int, ssthresh: int, losses: seq<int>)
    requires cwnd >= 2 * MSS
    ensures Rtts(total, total, cwnd, ssthresh, losses) == 0
  {
  }

  lemma {:induction false} FiveLosses()
    ensures TransferRtts(40_981, [13_140, 21_900, 33_580, 36_500, 37_960]) == 12
  {
    hide Rtts;
    hide LossIn;
    var total, losses := 40_981, [13_140, 21_900, 33_580, 36_500, 37_960];
    Hit(losses, 0, 0, Min(0 + 14600, total));
    OneWindow(0, total, 14600, 1073741824, losses, true);
    Clear(losses, 14600, Min(14600 + 7300, total));
    OneWindow(14600, total, 7300, 7300, losses, false);
    Hit(losses, 1, 21900, Min(21900 + 8760, total));
    OneWindow(21900, total, 8760, 7300, losses, true);
    Hit(losses, 2, 30660, Min(30660 + 4380, total));
    OneWindow(30660, total, 4380, 4380, losses, true);
    Hit(losses, 3, 35040, Min(35040 + 2920, total));
    OneWindow(35040, total, 2920, 2920, losses, true);
    Hit(losses, 4, 37960, Min(37960 + 2920, total));
    OneWindow(37960, total, 2920, 2920, losses, true);
    Clear(losses, 40880, Min(40880 + 2920, total));
    OneWindow(40880, total, 2920, 2920, losses, false);
    Finished(total, 4380, 2920, losses);
  }

  lemma {:induction false} SixLosses()
    ensures TransferRtts(40_981, [13_140, 16_060, 21_900, 33_580, 36_500, 37_960]) == 11
  {
    hide Rtts;
    hide LossIn;
    var total, losses := 40_981, [13_140, 16_060, 21_900, 33_580, 36_500, 37_960];
    Hit(losses, 0, 0, Min(0 + 14600, total));
    OneWindow(0, total, 14600, 1073741824, losses, true);
    Hit(losses, 1, 14600, Min(14600 + 7300, total));
    OneWindow(14600, total, 7300, 7300, losses, true);
    Hit(losses, 2, 21900, Min(21900 + 3650, total));
    OneWindow(21900, total, 3650, 3650, losses, true);
    Clear(losses, 25550, Min(25550 + 2920, total));
    OneWindow(25550, total, 2920, 2920, losses, false);
    Clear(losses, 28470, Min(28470 + 4380, total));
    OneWindow(28470, total, 4380, 2920, losses, false);
    Hit(losses, 3, 32850, Min(32850 + 5840, total));
    OneWindow(32850, total, 5840, 2920, losses, true);
    Clear(losses, 38690, Min(38690 + 2920, total));
    OneWindow(38690, total, 2920, 2920, losses, false);
    Finished(total, 4380, 2920, losses);
  }

  /** One more loss realigns the later windows, and here the transfer ends a round trip earlier. */
  lemma {:induction false} ExtraLossCanHelp()
    ensures var fewer, more := [13_140, 21_900, 33_580, 36_500, 37_960], [13_140, 16_060, 21_900, 33_580, 36_500, 37_960];
            && more == fewer[..1] + [16_060] + fewer[1..]
            && TransferRtts(40_981, more) < TransferRtts(40_981, fewer)
  {
    FiveLosses();
    SixLosses();
  }
}
