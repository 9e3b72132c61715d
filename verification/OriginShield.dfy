/** Requests and responses exchanged with a transport (internal/transport/transport.go:11-35). */
module TransportTypes {
  datatype SegmentRequest = SegmentRequest(segmentID: string, bitrateKbps: nat, sizeBytes: nat)

  /** Latencies are nanoseconds; a total latency can be negative only where a platform makes it so (see Link). */
  datatype SegmentResponse = SegmentResponse(segmentID: string, bytesReceived: nat, ttfb: nat, totalLatency: int,
                                             retransmitCount: nat, holBlockEvents: nat, goodputMbps: real)

  /** Megabits per second over the whole latency, and 0 when no time passes. */
  function Goodput(bytes: nat, latency: int): real {
    if latency > 0 then (bytes * 8) as real / (latency as real / 1_000_000_000.0) / 1_000_000.0 else 0.0
  }

  /** Megabits per second times nanoseconds is 8000 times the bytes. */
  lemma GoodputRate(bytes: nat, latency: int)
    ensures if latency > 0 then Goodput(bytes, latency) * latency as real == 8000.0 * bytes as real else Goodput(bytes, latency) == 0.0
  {
  }

  function EmptyResponse(segmentID: string): SegmentResponse {
    SegmentResponse(segmentID, 0, 0, 0, 0, 0, 0.0)
  }
}

/** The mid-tier cache in front of the origin (internal/cdn/shield.go): Get, and on a miss fetch and Put. */
module OriginShields {
  import opened Wrappers
  import opened CacheItems
  import opened CacheContract
  import opened TransportTypes

  const SECOND: nat := 1_000_000_000
  const SHIELD_HIT_LATENCY: nat := 2_000_000

  function ExpiryAfter(now: int, ttlSeconds: int): Expiry {
    if ttlSeconds > 0 then At(now + ttlSeconds * SECOND) else Never
  }

  /** One access: the cache afterwards, and whether it was a hit. */
  function Access(c: CacheState, key: string, size: nat, ttlSeconds: int, now: int): (CacheState, bool) {
    var g := CacheGet(c, key, now);
    if g.1.Some? then (g.0, true)
    else (CachePut(g.0, Item(key, size, ExpiryAfter(now, ttlSeconds), 0)), false)
  }

  /**
   What an access that had to ask the origin leaves behind: exactly until the time to live is
   over the next access of the key is a hit, forever when there is none, and never for a
   segment that the cache cannot hold.
   */
  lemma {:induction false} TimeToLive(c: CacheState, key: string, size: nat, ttlSeconds: int, now: int, again: nat, later: int)
    requires CacheInv(c) && !Access(c, key, size, ttlSeconds, now).1
    ensures Access(Access(c, key, size, ttlSeconds, now).0, key, again, ttlSeconds, later).1
            <==> size <= Capacity(c) && (ttlSeconds <= 0 || later <= now + ttlSeconds * SECOND)
  {
    hide CacheInv;
    hide CacheGet;
    hide CachePut;
    hide Residents;
    hide Capacity;
    var item := Item(key, size, ExpiryAfter(now, ttlSeconds), 0);
    var g := CacheGet(c, key, now).0;
    CacheKeepsInv(c, key, now, item);
    MissLeavesAbsent(c, key, now);
    if size <= Capacity(c) {
      PutThenGet(g, item, later);
    } else {
      PutResidents(g, item);
      GetHits(g, key, later);
    }
  }

  /** A hit is answered locally, without the origin. */
  function LocalResponse(req: SegmentRequest): SegmentResponse {
    SegmentResponse(req.segmentID, req.sizeBytes, SHIELD_HIT_LATENCY, SHIELD_HIT_LATENCY, 0, 0, 0.0)
  }

  function OriginError(error: string): string {
    "shield origin fetch: " + error
  }

  class OriginShield {
    var cache: Option<CacheState>
    const defaultTTLSeconds: int

    constructor (cache: Option<CacheState>, ttlSec: int)
      ensures this.cache == cache && defaultTTLSeconds == ttlSec
    {
      this.cache := cache;
      defaultTTLSeconds := ttlSec;
    }

    /**
     simulated is the caller's clock; the zero time, None here, stands for the real clock.
     origin is what the origin transport answers if it is asked.
     */
    method Fetch(req: SegmentRequest, simulated: Option<int>, realClock: int,
                 origin: Result<SegmentResponse, string>)
      returns (r: Result<(SegmentResponse, bool), string>)
      modifies this
      ensures old(cache).None? ==>
                cache == None && r == (if origin.Ok? then Ok((origin.value, false)) else Err(OriginError(origin.error)))
      ensures old(cache).Some? ==>
                var now := if simulated.None? then realClock else simulated.value;
                var a := Access(old(cache).value, req.segmentID, req.sizeBytes, defaultTTLSeconds, now);
                if a.1 then
                  && cache == Some(a.0)
                  && r == Ok((SegmentResponse(req.segmentID, req.sizeBytes, 2_000_000, 2_000_000, 0, 0, 0.0), true))
                else if origin.Ok? then cache == Some(a.0) && r == Ok((origin.value, false))
                else
                  && cache == Some(CacheGet(old(cache).value, req.segmentID, now).0)
                  && r == Err(OriginError(origin.error))
      ensures r.Err? ==> origin.Err? && r.error == "shield origin fetch: " + origin.error
    {
      hide CacheGet;
      hide CachePut;
      var now := realClock;
      if simulated.Some? {
        now := simulated.value;
      }
      if cache.Some? {
        var (c, item) := CacheGet(cache.value, req.segmentID, now);
        cache := Some(c);
        if item.Some? {
          return Ok((LocalResponse(req), true));
        }
      }
      if origin.Err? {
        return Err(OriginError(origin.error));
      }
      if cache.Some? {
        var expiry := Never;
        if defaultTTLSeconds > 0 {
          expiry := At(now + defaultTTLSeconds * SECOND);
        }
        cache := Some(CachePut(cache.value, Item(req.segmentID, req.sizeBytes, expiry, 0)));
      }
      return Ok((origin.value, false));
    }
  }
}
