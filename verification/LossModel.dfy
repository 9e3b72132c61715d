/**
 Packet loss (internal/transport/modeled/loss.go). A random generator is the infinite
 sequence of its draws and a cursor into it, so that what a run consumes is explicit.
 */
module LossModel {
  /** The loss part of a network profile (internal/transport/transport.go:39-47). */
  datatype LossConfig = LossConfig(kind: string, uniformPercent: real,
                                   pGoodToBad: real, pBadToGood: real, lossInBadState: real)

  datatype Model = NoLoss | Uniform(rate: real) | GilbertElliott(pGoodToBad: real, pBadToGood: real, lossInBadState: real)

  function NewModel(cfg: LossConfig): Model {
    if cfg.kind == "gilbert_elliott" then GilbertElliott(cfg.pGoodToBad, cfg.pBadToGood, cfg.lossInBadState)
    else if cfg.kind == "uniform" then Uniform(cfg.uniformPercent / 100.0)
    else NoLoss
  }

  type Draws = nat -> real

  datatype Channel = Channel(model: Model, inBadState: bool, cursor: nat)

  /** One packet: is it lost, and the channel after it. */
  function Packet(d: Draws, c: Channel): (bool, Channel) {
    match c.model
    case NoLoss => (false, c)
    case Uniform(rate) =>
      if rate <= 0.0 then (false, c) else (d(c.cursor) < rate, c.(cursor := c.cursor + 1))
    case GilbertElliott(gb, bg, lossInBad) =>
      if c.inBadState then
        (d(c.cursor) < lossInBad, c.(inBadState := d(c.cursor + 1) >= bg, cursor := c.cursor + 2))
      else
        (false, c.(inBadState := d(c.cursor) < gb, cursor := c.cursor + 1))
  }

  /** The channel after n packets. */
  function After(d: Draws, c: Channel, n: nat): Channel
    decreases n
  {
    if n == 0 then c else After(d, Packet(d, c).1, n - 1)
  }

  /** The fates of the next n packets. */
  function Fates(d: Draws, c: Channel, n: nat): (r: seq<bool>)
    ensures |r| == n
    decreases n
  {
    if n == 0 then [] else [Packet(d, c).0] + Fates(d, Packet(d, c).1, n - 1)
  }

  /** The positions of the lost packets, counted from `base`. */
  function LostFrom(fates: seq<bool>, base: int): seq<int> {
    if fates == [] then [] else (if fates[0] then [base] else []) + LostFrom(fates[1..], base + 1)
  }

  function Lost(d: Draws, c: Channel, n: nat): seq<int> {
    LostFrom(Fates(d, c, n), 0)
  }

  class LossSimulator {
    const model: Model
    const draws: Draws
    var inBadState: bool
    var cursor: nat

    function State(): Channel
      reads this
    {
      Channel(model, inBadState, cursor)
    }

    constructor (cfg: LossConfig, draws: Draws)
      ensures State() == Channel(NewModel(cfg), false, 0) && this.draws == draws
    {
      this.model := NewModel(cfg);
      this.draws := draws;
      inBadState, cursor := false, 0;
    }

    method Float64() returns (x: real)
      modifies this`cursor
      ensures x == draws(old(cursor)) && cursor == old(cursor) + 1
    {
      x := draws(cursor);
      cursor := cursor + 1;
    }

    method IsLost() returns (lost: bool)
      modifies this
      ensures (lost, State()) == Packet(draws, old(State()))
    {
      lost := false;
      match model {
        case NoLoss =>
        case Uniform(rate) =>
          if rate > 0.0 {
            var x := Float64();
            lost := x < rate;
          }
        case GilbertElliott(pGoodToBad, pBadToGood, lossInBadState) =>
          if inBadState {
            var x := Float64();
            lost := x < lossInBadState;
          }
          if inBadState {
            var x := Float64();
            if x < pBadToGood {
              inBadState := false;
            }
          } else {
            var x := Float64();
            if x < pGoodToBad {
              inBadState := true;
            }
          }
      }
    }

    method SimulatePackets(n: nat) returns (out: seq<int>)
      modifies this
      ensures out == Lost(draws, old(State()), n)
      ensures State() == After(draws, old(State()), n)
    {
      out := [];
      if model == NoLoss {
        NoLossNeverLoses(draws, State(), n);
        return;
      }
      hide Packet;
      hide After;
      hide Lost;
      ghost var start := State();
      NoPackets(draws, start);
      for i := 0 to n
        invariant out == Lost(draws, start, i) && State() == After(draws, start, i)
      {
        NextPacket(draws, start, i);
        var lost := IsLost();
        if lost {
          out := out + [i];
        }
      }
    }
  }

  lemma NoPackets(d: Draws, c: Channel)
    ensures Lost(d, c, 0) == [] && After(d, c, 0) == c
  {
  }

  /** One more packet. */
  lemma {:induction false} NextPacket(d: Draws, c: Channel, n: nat)
    ensures var (lost, next) := Packet(d, After(d, c, n));
            Lost(d, c, n + 1) == Lost(d, c, n) + (if lost then [n] else []) && After(d, c, n + 1) == next
  {
    hide Packet;
    LostSplit(d, c, n, 1);
    FatesSplit(d, c, n, 1);
    OnePacket(d, After(d, c, n), n);
  }

  lemma {:induction false} OnePacket(d: Draws, c: Channel, base: int)
    ensures var (lost, next) := Packet(d, c);
            LostFrom(Fates(d, c, 1), base) == (if lost then [base] else []) && After(d, c, 1) == next
  {
    hide Packet;
    assert Fates(d, Packet(d, c).1, 0) == [] && After(d, Packet(d, c).1, 0) == Packet(d, c).1;
    assert Fates(d, c, 1) == [Packet(d, c).0] && [Packet(d, c).0][1..] == [];
  }

  lemma {:induction false} NoLossNeverLoses(d: Draws, c: Channel, n: nat)
    requires c.model == NoLoss
    ensures Lost(d, c, n) == [] && After(d, c, n) == c
    decreases n
  {
    NoLossFrom(d, c, n, 0);
  }

  lemma {:induction false} NoLossFrom(d: Draws, c: Channel, n: nat, base: int)
    requires c.model == NoLoss
    ensures LostFrom(Fates(d, c, n), base) == [] && After(d, c, n) == c
    decreases n
  {
    if n > 0 {
      NoLossFrom(d, c, n - 1, base + 1);
      assert Fates(d, c, n)[1..] == Fates(d, c, n - 1);
    }
  }

  // ----- what the list of lost packets means -----

  lemma {:induction false} LostMembers(fates: seq<bool>, base: int, k: int)
    ensures k in LostFrom(fates, base) <==> base <= k < base + |fates| && fates[k - base]
  {
    if fates != [] {
      LostMembers(fates[1..], base + 1, k);
      if base < k < base + |fates| {
        assert fates[1..][k - base - 1] == fates[k - base];
      }
    }
  }

  ghost predicate Increasing(l: seq<int>) {
    forall i, j :: 0 <= i < j < |l| ==> l[i] < l[j]
  }

  lemma {:induction false} LostIncreasing(fates: seq<bool>, base: int)
    ensures Increasing(LostFrom(fates, base))
  {
    if fates != [] {
      var l, rest := LostFrom(fates, base), LostFrom(fates[1..], base + 1);
      LostIncreasing(fates[1..], base + 1);
      forall j | 0 <= j < |rest| ensures rest[j] > base {
        assert rest[j] in rest;
        LostMembers(fates[1..], base + 1, rest[j]);
      }
      assert l == if fates[0] then [base] + rest else [] + rest;
      assert [] + rest == rest;
    }
  }

  /** Strictly increasing, within range, and exactly the packets with a bad fate. */
  lemma {:induction false} LostExact(d: Draws, c: Channel, n: nat)
    ensures var l := Lost(d, c, n);
            && Increasing(l)
            && (forall k :: k in l <==> 0 <= k < n && Fates(d, c, n)[k])
  {
    LostIncreasing(Fates(d, c, n), 0);
    forall k ensures k in Lost(d, c, n) <==> 0 <= k < n && Fates(d, c, n)[k] {
      LostMembers(Fates(d, c, n), 0, k);
    }
  }

  lemma {:induction false} LostAppend(a: seq<bool>, b: seq<bool>, base: int)
    ensures LostFrom(a + b, base) == LostFrom(a, base) + LostFrom(b, base + |a|)
  {
    if a == [] {
      assert a + b == b;
    } else {
      var head := if a[0] then [base] else [];
      LostAppend(a[1..], b, base + 1);
      assert (a + b)[1..] == a[1..] + b && (a + b)[0] == a[0];
      assert LostFrom(a + b, base) == head + (LostFrom(a[1..], base + 1) + LostFrom(b, base + |a|));
      assert LostFrom(a, base) == head + LostFrom(a[1..], base + 1);
    }
  }

  // ----- streaming -----

  /** Simulating n and then m packets is simulating n + m of them. */
  lemma {:induction false} FatesSplit(d: Draws, c: Channel, n: nat, m: nat)
    ensures Fates(d, c, n + m) == Fates(d, c, n) + Fates(d, After(d, c, n), m)
    ensures After(d, c, n + m) == After(d, After(d, c, n), m)
    decreases n
  {
    if n == 0 {
      assert Fates(d, c, 0) + Fates(d, c, m) == Fates(d, c, m);
    } else {
      FatesSplit(d, Packet(d, c).1, n - 1, m);
    }
  }

  lemma {:induction false} LostSplit(d: Draws, c: Channel, n: nat, m: nat)
    ensures Lost(d, c, n + m) == Lost(d, c, n) + LostFrom(Fates(d, After(d, c, n), m), n)
  {
    FatesSplit(d, c, n, m);
    LostAppend(Fates(d, c, n), Fates(d, After(d, c, n), m), 0);
  }

  /** The fates drawn by a sequence of simulations of the given sizes. */
  function RunFates(d: Draws, c: Channel, sizes: seq<nat>): seq<bool>
    decreases |sizes|
  {
    if sizes == [] then [] else Fates(d, c, sizes[0]) + RunFates(d, After(d, c, sizes[0]), sizes[1..])
  }

  function Total(sizes: seq<nat>): nat {
    if sizes == [] then 0 else sizes[0] + Total(sizes[1..])
  }

  lemma {:induction false} RunFatesWhole(d: Draws, c: Channel, sizes: seq<nat>)
    ensures RunFates(d, c, sizes) == Fates(d, c, Total(sizes))
    decreases |sizes|
  {
    if sizes != [] {
      RunFatesWhole(d, After(d, c, sizes[0]), sizes[1..]);
      FatesSplit(d, c, sizes[0], Total(sizes[1..]));
    }
  }

  /** However two runs cut the packet stream into calls, they agree on every packet both have sent. */
  lemma {:induction false} PacketFatesAgree(d: Draws, c: Channel, one: seq<nat>, other: seq<nat>, k: nat)
    requires k < |RunFates(d, c, one)| && k < |RunFates(d, c, other)|
    ensures RunFates(d, c, one)[k] == RunFates(d, c, other)[k]
  {
    RunFatesWhole(d, c, one);
    RunFatesWhole(d, c, other);
    FatesSplit(d, c, k + 1, Total(one) - k - 1);
    FatesSplit(d, c, k + 1, Total(other) - k - 1);
  }

  // ----- which packets are lost, from the draws alone -----

  /**
   Position of the first draw of packet k in a Gilbert-Elliott channel: a packet takes one draw,
   and one more when it is sent in the bad state. gb and bg are the two transition rates.
   */
  ghost function Position(d: Draws, gb: real, bg: real, bad: bool, start: nat, k: nat): nat
    decreases k, 1
  {
    start + k + BadBefore(d, gb, bg, bad, start, k)
  }

  /** How many of the first k packets are sent in the bad state. */
  ghost function BadBefore(d: Draws, gb: real, bg: real, bad: bool, start: nat, k: nat): nat
    decreases k, 0
  {
    if k == 0 then 0
    else BadBefore(d, gb, bg, bad, start, k - 1) + (if InBad(d, gb, bg, bad, start, k - 1) then 1 else 0)
  }

  /** Every packet after packet i and before packet k drew at least bg after its own loss draw. */
  ghost predicate NoRecovery(d: Draws, gb: real, bg: real, bad: bool, start: nat, i: int, k: nat)
    decreases k, 0
  {
    forall m: nat :: i < m < k ==> d(Position(d, gb, bg, bad, start, m) + 1) >= bg
  }

  /** Packet j, sent in the good state, drew below gb, and no packet between it and packet k has recovered. */
  ghost predicate Entered(d: Draws, gb: real, bg: real, bad: bool, start: nat, j: nat, k: nat)
    requires j < k
    decreases k, 1
  {
    && !InBad(d, gb, bg, bad, start, j)
    && d(Position(d, gb, bg, bad, start, j)) < gb
    && NoRecovery(d, gb, bg, bad, start, j, k)
  }

  /** Packet k is sent in the bad state: an earlier packet entered it, or the channel began in it, and none since has recovered. */
  ghost predicate InBad(d: Draws, gb: real, bg: real, bad: bool, start: nat, k: nat)
    decreases k, 2
  {
    || (bad && NoRecovery(d, gb, bg, bad, start, -1, k))
    || exists j: nat :: j < k && Entered(d, gb, bg, bad, start, j, k)
  }

  lemma NoRecoveryStep(d: Draws, gb: real, bg: real, bad: bool, start: nat, i: int, k: nat)
    ensures NoRecovery(d, gb, bg, bad, start, i, 0) && NoRecovery(d, gb, bg, bad, start, k, k + 1)
    ensures i < k ==>
              (NoRecovery(d, gb, bg, bad, start, i, k + 1)
               <==> NoRecovery(d, gb, bg, bad, start, i, k) && d(Position(d, gb, bg, bad, start, k) + 1) >= bg)
  {
  }

  lemma {:induction false} EnteredStep(d: Draws, gb: real, bg: real, bad: bool, start: nat, j: nat, k: nat)
    requires j <= k
    ensures Entered(d, gb, bg, bad, start, j, k + 1)
            <==> if j < k then Entered(d, gb, bg, bad, start, j, k) && d(Position(d, gb, bg, bad, start, k) + 1) >= bg
                 else !InBad(d, gb, bg, bad, start, k) && d(Position(d, gb, bg, bad, start, k)) < gb
  {
    hide Position;
    hide InBad;
    hide NoRecovery;
    NoRecoveryStep(d, gb, bg, bad, start, j, k);
  }

  /** Leaving the good state and coming back, one packet at a time. */
  lemma {:induction false} InBadStep(d: Draws, gb: real, bg: real, bad: bool, start: nat, k: nat)
    ensures InBad(d, gb, bg, bad, start, 0) == bad
    ensures InBad(d, gb, bg, bad, start, k + 1)
            <==> if InBad(d, gb, bg, bad, start, k) then d(Position(d, gb, bg, bad, start, k) + 1) >= bg
                 else d(Position(d, gb, bg, bad, start, k)) < gb
  {
    hide Position;
    hide NoRecovery;
    hide Entered;
    NoRecoveryStep(d, gb, bg, bad, start, -1, k);
    var after := k + 1;
    EnteredStep(d, gb, bg, bad, start, k, k);
    if j: nat :| j < k && Entered(d, gb, bg, bad, start, j, k) {
      EnteredStep(d, gb, bg, bad, start, j, k);
    }
    if j: nat :| j < after && Entered(d, gb, bg, bad, start, j, after) {
      EnteredStep(d, gb, bg, bad, start, j, k);
    }
  }

  /** The state and the cursor of a Gilbert-Elliott channel after any number of packets. */
  lemma {:induction false} ChannelAfter(d: Draws, c: Channel, n: nat)
    requires c.model.GilbertElliott?
    ensures var gb, bg := c.model.pGoodToBad, c.model.pBadToGood;
            After(d, c, n)
            == Channel(c.model, InBad(d, gb, bg, c.inBadState, c.cursor, n), Position(d, gb, bg, c.inBadState, c.cursor, n))
    decreases n
  {
    hide InBad;
    hide After;
    var gb, bg := c.model.pGoodToBad, c.model.pBadToGood;
    if n == 0 {
      InBadStep(d, gb, bg, c.inBadState, c.cursor, 0);
      NoPackets(d, c);
    } else {
      ChannelAfter(d, c, n - 1);
      NextPacket(d, c, n - 1);
      InBadStep(d, gb, bg, c.inBadState, c.cursor, n - 1);
    }
  }

  /** The k-th fate is that of one packet on the channel after k. */
  lemma {:induction false} FateAt(d: Draws, c: Channel, n: nat, k: nat)
    requires k < n
    ensures Fates(d, c, n)[k] == Packet(d, After(d, c, k)).0
  {
    hide Packet;
    FatesSplit(d, c, k, n - k);
    assert Fates(d, After(d, c, k), n - k)[0] == Packet(d, After(d, c, k)).0;
  }

  /** Without a Gilbert-Elliott model a packet takes one draw when the rate is positive, and none otherwise. */
  lemma {:induction false} MemorylessAfter(d: Draws, c: Channel, n: nat)
    requires !c.model.GilbertElliott?
    ensures After(d, c, n) == c.(cursor := c.cursor + if c.model.Uniform? && c.model.rate > 0.0 then n else 0)
    decreases n
  {
    if n > 0 {
      MemorylessAfter(d, Packet(d, c).1, n - 1);
    }
  }

  /**
   Exactly which packets a new simulator loses. Gilbert-Elliott: those sent in the bad state whose
   loss draw is below the loss rate of that state. Uniform: those whose draw is below the
   percentage. Any other kind: none.
   */
  lemma {:induction false} LostExactly(d: Draws, cfg: LossConfig, n: nat, k: nat)
    requires k < n
    ensures var c, gb, bg := Channel(NewModel(cfg), false, 0), cfg.pGoodToBad, cfg.pBadToGood;
            k in Lost(d, c, n)
            <==> if cfg.kind == "gilbert_elliott" then
                   InBad(d, gb, bg, false, 0, k) && d(Position(d, gb, bg, false, 0, k)) < cfg.lossInBadState
                 else cfg.kind == "uniform" && cfg.uniformPercent > 0.0 && d(k) < cfg.uniformPercent / 100.0
  {
    hide InBad;
    hide Position;
    hide After;
    hide Lost;
    var c := Channel(NewModel(cfg), false, 0);
    LostExact(d, c, n);
    FateAt(d, c, n, k);
    if cfg.kind == "gilbert_elliott" {
      ChannelAfter(d, c, k);
    } else {
      MemorylessAfter(d, c, k);
    }
  }

  /** The same after any earlier packets, in whatever state they have left the channel. */
  lemma {:induction false} LostExactlyLater(d: Draws, c: Channel, n: nat, k: nat)
    requires c.model.GilbertElliott? && k < n
    ensures var gb, bg := c.model.pGoodToBad, c.model.pBadToGood;
            k in Lost(d, c, n)
            <==> InBad(d, gb, bg, c.inBadState, c.cursor, k)
                 && d(Position(d, gb, bg, c.inBadState, c.cursor, k)) < c.model.lossInBadState
  {
    hide InBad;
    hide Position;
    hide After;
    hide Lost;
    LostExact(d, c, n);
    FateAt(d, c, n, k);
    ChannelAfter(d, c, k);
  }

  /** A channel that starts good and cannot leave the good state loses nothing, whatever the loss rate of the bad one. */
  lemma {:induction false} NeverBad(d: Draws, c: Channel, n: nat)
    requires c.model.GilbertElliott? && !c.inBadState && c.model.pGoodToBad <= 0.0
    requires forall i: nat :: d(i) >= 0.0
    ensures Lost(d, c, n) == []
  {
    hide Lost;
    hide Position;
    LostExact(d, c, n);
    if Lost(d, c, n) != [] {
      var k := Lost(d, c, n)[0];
      assert k in Lost(d, c, n);
      LostExactlyLater(d, c, n, k);
    }
  }

  /** A channel that always recovers after one packet never loses two packets in a row. */
  lemma {:induction false} NoBursts(d: Draws, c: Channel, n: nat, k: nat)
    requires c.model.GilbertElliott? && c.model.pBadToGood >= 1.0 && k + 1 < n
    requires forall i: nat :: d(i) < 1.0
    ensures !(k in Lost(d, c, n) && k + 1 in Lost(d, c, n))
  {
    hide Lost;
    hide Position;
    hide InBad;
    LostExactlyLater(d, c, n, k);
    LostExactlyLater(d, c, n, k + 1);
    InBadStep(d, c.model.pGoodToBad, c.model.pBadToGood, c.inBadState, c.cursor, k);
  }
}
