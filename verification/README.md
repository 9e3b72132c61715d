# CDN simulator: a verified model

This project models the deterministic core of the CDN and video-streaming simulator and proves
properties of it: the two byte-bounded caches, the Reno transfer model with the TCP and QUIC
multiplexing models on top of it, the playback session with its buffer-based bitrate rule, the
Mann-Whitney statistic, the parameter-sweep odometer, and the naming of segments.

`dafny verify dfyconfig.toml` checks everything.

## How it is organised

| files | contents |
|---|---|
| `Wrappers`, `Sums` | `Option`, `Result`, `Min`, `Max`; sums over sequences |
| `CacheItems`, `ElementList` | cached items, the longest prefix of a list that fits a byte budget, and Go's linked lists with element handles |
| `LruCache`, `LruStack` | the LRU cache as a class, its specification, and the stack property over whole traces |
| `ArcModel`, `ArcDirectory`, `ArcCache` | the ARC cache: specification, representation invariant (four lists, two maps, four byte counters, the target `p`), and the class |
| `ArcLists`, `ArcRuns`, `ArcBounds`, `ArcCapacity` | ARC as two plain recency lists, what every run keeps, occupancy and scan resistance, and exactly which runs stay within twice the capacity |
| `CacheContract`, `OriginShield` | the contract both caches meet over whole runs, and the Get-then-Put access of the origin shield |
| `Reno`, `LossModel`, `Sorting` | window-by-window transfer times, packet loss |
| `Transports`, `TransportStreams`, `TransportTheorems`, `TransportSessions` | the two modelled transports, one stream of a batch, what relates them batch by batch, and whole sessions of calls |
| `MannWhitney`, `RankSplits`, `Sweep`, `SegmentNames` | the rank-sum statistic, its variance over all splits of the ranks, the sweep odometer, paths and identifiers of segments |
| `Abr`, `BufferBased` | bitrate ladders and the buffer-based rule |
| `Playback`, `PlaybackSession` | the session as a state machine, and the session class with its loops |
| `PlaybackTheorems`, `PlaybackRequests`, `BatchResults`, `SecondViewing` | what every session keeps, what it asks for, what its results say, and a second session over the same cache |

Code that updates fields or slices is modelled by classes and methods with loops, each proved
against a specification function; the theorems are about those functions, so they hold of what
the methods compute. The specification of an eviction loop is not a second loop: it is the
longest prefix of the recency list that fits (`CacheItems.Fit`, characterised by `FitUnique`),
and for ARC's `replace` a closed form that keeps a fitting prefix of each resident list. Where
a specification function follows its method step by step, theorems that do not mention it say what
it computes: `TargetAfterB1Hit` for ARC's target, `Reacts` for Reno's windows, `LostExactly` for the
loss channel, `DecisionExact` for the bitrate rule, `EverySessionAsksInOrder` for a session's requests.

Sizes are naturals, durations are integers of nanoseconds, and instants are integers. A Go list
element is a handle into a sequence, so that the maps of both caches can point at elements.
Random generators are draw functions with a cursor. Contexts are booleans (cancelled or not).
The initial window of ten segments is that of section 2 of RFC 6928; slow start, congestion
avoidance and the two-segment floor of ssthresh are those of section 3.1 of RFC 5681.

## Where the code and its documentation differ

The model follows the code.

- ARC's header calls T1 the items seen once and T2 those seen at least twice. A `Put` that overwrites a
  resident key moves nothing (arc.go:149-160, `ArcBounds.OverwriteStaysInT1`), so a key of T1 or B1 has
  been seen once exactly when it has not been overwritten since it entered; T2 and B2 are as documented
  (`ArcRuns.EveryRunDocumented`, over all runs).
- ARC does not keep its resident bytes within the capacity: `replace` gives up when T2 is empty and
  T1 is within `p` (arc.go:296-298). `ArcBounds.InsertOccupancy` gives the exact condition and the
  bound of twice the capacity for an inserting Put, and `OccupancyCanDouble` reaches it with three
  Puts. Overwriting Puts evict nothing, so over a run there is no bound in general
  (`OverwritesUnbounded`); `ArcCapacity.OccupancyRuns` says exactly which runs stay within twice the
  capacity, and `SteadySizesFit` that it is enough if no resident entry grows.
- ARC's four lists together are not bounded by twice the capacity: a scan of new keys leaves every
  earlier key in B1 (`ArcBounds.EqualSizeScan`). `ArcCapacity.DirectoryAfterPut` says exactly when one
  Put keeps that bound, and `DirectoryRuns` exactly which runs do.
- README.md:135 says TCP and QUIC perform identically at prefetch depth 1. Over a session of requests
  with bytes, each transport keeps its own clock, QUIC's clock also counts the time to the first byte,
  and both draw jitter. At a steady bandwidth, and drawing the same jitter, all latencies are equal
  exactly when no packet of the whole session is lost or the round-trip time is zero
  (`TransportSessions.DepthOneSessions`); the player's sessions from one seed do draw the same jitter
  (`PlayerSessions`). Resumed handshakes shift QUIC's draws (`ResumptionShiftsJitter`), and at a
  varying bandwidth the clocks can make a difference (`ClocksDrift`), both without any loss.
- tcp.go:165-168 and quic.go:180-182 describe the two transports as one connection with different
  recovery. They draw the same losses at the same offsets exactly for batches in which every stream
  but the last fills its packets (`TransportTheorems.SameConnection`). For those `QuicAdvantage` says
  when QUIC takes less time in all, apart from jitter, which cancels when both draw it from the same
  place; for any other batch QUIC may meet more losses (`UnalignedCosts`).
- abr_buffer.go:44 says that the danger zone may decrease the bitrate. The hysteresis takes the
  decrease back whenever the current bitrate is listed exactly once, so on a ladder of distinct
  bitrates it never happens (`BufferBased.DangerZone`, `DecisionRules`).
- A stall is added to the playback clock twice, once inside the fetch time (player.go:230, 239); the
  conservation law carries the resulting factor of two.
- One more loss may shorten a Reno transfer (`RenoTheorems.ExtraLossCanHelp`). It changes no window
  exactly when it falls outside the transfer or into a window that has a loss already
  (`ExtraLossAbsorbed`); otherwise `ExtraLossExact` gives the difference, which is at least one round
  trip when no later window had a loss.

## Model

| member | source | states |
|---|---|---|
| CacheItems.FitMaximal | internal/cache/lru.go:77-84 | the eviction loop keeps a maximal prefix: one item more would exceed the capacity |
| CacheItems.FitUnique | internal/cache/lru.go:77-84 | a fitting prefix that cannot be extended is the one the eviction loop keeps, so the loop's result is determined |
| CacheItems.FitDropLast | internal/cache/lru.go:77-84 | evicting the last item of an oversized list does not change what will be kept (the loop's invariant) |
| LruModel.LruGetKeepsInv | internal/cache/lru.go:39-57 | Get keeps keys distinct and bytes within the capacity |
| LruModel.LruPutKeepsInv | internal/cache/lru.go:60-86 | Put keeps keys distinct and bytes within the capacity |
| LruModel.LruPutResident | internal/cache/lru.go:60-86 | an accepted item survives its own evictions and is at the front |
| LruCaches.LRUCache.constructor | internal/cache/lru.go:26-33 | an empty cache with zero counters |
| LruCaches.LRUCache.Get | internal/cache/lru.go:39-57 | list, map, byte counter and statistics stay linked; a hit moves the item to the front, an expired item is removed and counted as a miss |
| LruCaches.LRUCache.Put | internal/cache/lru.go:60-86 | an oversized item is dropped; otherwise the item comes to the front and the loop keeps exactly the longest fitting prefix, counting each eviction |
| LruCaches.LRUCache.RemoveElement | internal/cache/lru.go:88-93 | removes one key from list and map and its size from the counter |
| LruStack.FitAfterHit | internal/cache/lru.go:39-57 | accessing a key inside the fitting prefix of the recency stack keeps the same items and moves it to the front |
| LruStack.FitAfterMiss | internal/cache/lru.go:60-86 | accessing any other key: evicting from the old cache list gives what fits of the new stack |
| LruStack.StackProperty | internal/cache/lru.go:39-93 | for every trace of accesses with fixed sizes, each within the capacity or above a limit, and no expiry, the LRU list is the longest fitting prefix of the global recency stack of the items up to the limit |
| LruStack.HitsMonotone | internal/cache/lru.go:39-93 | over every such trace a larger cache has at least as many hits, when no size lies above the smaller capacity and within the larger |
| LruStack.MoreCapacityNeverHurts | internal/cache/lru.go:39-93 | from empty caches, and with no size between the capacities, the smaller cache's list is a prefix of the larger one's and hits never decrease with capacity |
| LruStack.OversizedItemBreaksInclusion | internal/cache/lru.go:63-65 | for any two capacities 0 < small < large, an item that only the large cache takes can cost it a hit |
| ArcModel.ReplaceAfterDemoteT1 | internal/cache/arc.go:266-300 | one eviction from T1 in replace's loop leaves the loop's final result unchanged |
| ArcModel.ReplaceAfterDemoteT2 | internal/cache/arc.go:266-300 | one eviction from T2 in replace's loop leaves the loop's final result unchanged |
| ArcModel.ReplaceDone | internal/cache/arc.go:266-300 | when the loop stops, by its guard or by giving up, the state is the closed form |
| ArcDirectory.DemoteT1Sound | internal/cache/arc.go:305-318 | moving T1's LRU entry to B1 keeps the whole representation invariant and has the stated effect on the lists |
| ArcDirectory.DemoteT2Sound | internal/cache/arc.go:283-295 | the same for T2 and B2 |
| ArcDirectory.PromoteSound | internal/cache/arc.go:108-118 | a T1 hit, re-inserted in T2 under a new element, keeps the representation invariant |
| ArcDirectory.TakeSound | internal/cache/arc.go:123-136 | deleting a key from its list and both maps keeps the representation invariant |
| ArcDirectory.PushSound | internal/cache/arc.go:257-260 | pushing a new key on a list keeps the representation invariant |
| ArcDirectory.DropSound | internal/cache/arc.go:322-341 | dropping the last entry of any of the four lists keeps the representation invariant |
| ArcDirectory.Found | internal/cache/arc.go:90-101 | the two maps answer exactly which list holds a key and lead to its entry |
| ArcCaches.ARCCache.constructor | internal/cache/arc.go:46-57 | an empty, valid cache with p = 0 |
| ArcCaches.ARCCache.Get | internal/cache/arc.go:87-121 | hits promote to the front of T2, expired residents are removed, ghosts and unknown keys miss; the representation invariant is kept |
| ArcCaches.ARCCache.RemoveFromActive | internal/cache/arc.go:123-136 | removes exactly one resident entry, its bytes and its map entries |
| ArcCaches.ARCCache.Put | internal/cache/arc.go:139-262 | the four cases of Put, with p, lists, maps and byte counters as specified, keep the representation invariant |
| ArcCaches.ARCCache.UpdateInPlace | internal/cache/arc.go:149-160 | overwriting a resident key changes its entry and nothing else: no move, no eviction |
| ArcCaches.ARCCache.GhostHitB1 | internal/cache/arc.go:161-190 | a B1 hit raises p, replaces, and admits the key to T2 |
| ArcCaches.ARCCache.GhostHitB2 | internal/cache/arc.go:191-215 | a B2 hit lowers p, replaces with the tie broken towards T1, and admits the key to T2 |
| ArcCaches.ARCCache.Prepare | internal/cache/arc.go:237-254 | the subcases of Case IV before replace |
| ArcCaches.ARCCache.InsertFresh | internal/cache/arc.go:237-261 | a key the directory does not know ends at the front of T1 |
| ArcCaches.ARCCache.Replace | internal/cache/arc.go:266-300 | terminates, and keeps of T1 and T2 exactly the prefixes of the closed form; each victim becomes a ghost and is counted |
| ArcCaches.ARCCache.MoveT1LRUToB1 | internal/cache/arc.go:305-318 | moves T1's last entry to the front of B1, or does nothing when T1 is empty |
| ArcCaches.ARCCache.EvictLRUList | internal/cache/arc.go:322-341 | drops the last entry of whichever list the owner tag names, with its bytes and map entries and without a ghost |
| ArcLists.ReplaceKeepsLists | internal/cache/arc.go:266-300 | as (key, size) sequences, T1++B1 and T2++B2 are unchanged by replace: only the dividers move |
| ArcLists.DemoteKeepsLists | internal/cache/arc.go:305-318 | the same for moveT1LRUToB1 |
| ArcLists.GetRefinesLists | internal/cache/arc.go:87-121 | on those two lists, Get is a move to the front, an expiry removal, or nothing |
| ArcLists.PutRefinesLists | internal/cache/arc.go:139-262 | on those two lists, Put is a push-front, a move, an in-place resize, or a push-front that drops one trailing ghost, whatever p is |
| ArcRuns.ApplyKeepsInv | internal/cache/arc.go:87-262 | every operation keeps all keys of the four lists distinct and 0 <= p <= max |
| ArcRuns.StepBounded | internal/cache/arc.go:170-175 | one ghost hit moves p by at most the larger ghost list |
| ArcRuns.TargetMoves | internal/cache/arc.go:161-204 | B1 hits only raise p, B2 hits only lower it, both by at most that step clamped to [0, max]; nothing else moves p |
| ArcRuns.TargetAfterB1Hit | internal/cache/arc.go:161-179 | a B1 hit raises p by exactly the ghost's size times the whole number of times that B1's bytes go into the larger ghost list's, cut at the capacity |
| ArcRuns.TargetAfterB2Hit | internal/cache/arc.go:191-205 | a B2 hit lowers p by exactly the ghost's size times the whole number of times that B2's bytes go into the larger ghost list's, cut at 0 |
| ArcRuns.RunFromDocumented | internal/cache/arc.go:9-18 | over any run, T1++B1 holds keys used once and T2++B2 keys used at least twice since they entered, each in order of last use |
| ArcRuns.EveryRunDocumented | internal/cache/arc.go:9-18 | after every run from an empty cache the four lists have their documented meaning, up to overwriting: a key of T2++B2 has been seen at least twice since it entered, and a key of T1++B1 once exactly when it has not been overwritten since |
| ArcBounds.ReplaceOutcome | internal/cache/arc.go:266-300 | replace ends with room for the item, or with no bytes in T2 and T1 within p |
| ArcBounds.ReplaceMakesRoom | internal/cache/arc.go:266-300 | replace makes room exactly when the part of T1 within p leaves room |
| ArcBounds.ReplaceVictims | internal/cache/arc.go:266-300 | T1 gives up victims only while it is above p, or at p after a B2 hit, and the cache with T2 whole is overfull; T2 only when T1 does not, and while overfull; it stops only with room or with nothing to take |
| ArcBounds.InsertOccupancy | internal/cache/arc.go:161-261 | after every inserting Put, whatever the prior state, occupancy is at most max + size; exactly when it exceeds max |
| ArcBounds.UpdateOccupancy | internal/cache/arc.go:149-160 | overwriting changes the occupancy by the size difference, without eviction |
| ArcBounds.OccupancyCanDouble | internal/cache/arc.go:296-298 | for every positive capacity three Puts fill the cache with twice its capacity: the bound is tight |
| ArcBounds.OverwritesUnbounded | internal/cache/arc.go:149-160 | n keys put at size 0 and overwritten at full size hold n times the capacity, without an eviction |
| ArcBounds.OverwriteStaysInT1 | internal/cache/arc.go:149-160 | putting a key twice leaves it in T1 alone: an overwriting Put is no second use |
| ArcBounds.ScanResistance | internal/cache/arc.go:237-318 | a scan of any length, of keys that the directory does not know when their turn comes, with p + t2Bytes + size <= max, leaves T2 and p untouched |
| ArcBounds.DistinctIsNew | internal/cache/arc.go:237-318 | in particular, distinct keys that are unknown at the start are unknown when their turn comes |
| ArcBounds.HotItemSurvivesScan | internal/cache/arc.go:17-18 | an unexpired T2 item is still a hit after such a scan |
| ArcBounds.EqualSizeScan | internal/cache/arc.go:237-318 | distinct equal-size Puts into an empty cache leave T1 equal to the LRU list and B1 holding every earlier key in order |
| ArcCapacity.DirectoryAfterPut | internal/cache/arc.go:139-262 | an accepted Put adds its item to the bytes of all four lists and frees exactly the key's own entry, or the last ghost of B1 in Case IV.A and of B2 in Case IV.C; exactly when the four lists are then within twice the capacity |
| ArcCapacity.DirectoryRuns | internal/cache/arc.go:87-262 | a run keeps the four lists within twice the capacity exactly when every accepted Put, when its turn comes, frees enough for its item |
| ArcCapacity.OccupancyRuns | internal/cache/arc.go:87-262 | a run keeps the residents within twice the capacity exactly when every overwriting Put, when its turn comes, does so |
| ArcCapacity.SteadySizesFit | internal/cache/arc.go:149-160 | in particular when no Put enlarges the entry that is resident when its turn comes |
| ArcCapacity.FreshPutOnT2 | internal/cache/arc.go:237-318 | an accepted Put of an unknown key never moves p, and leaves T2 alone exactly when T2 has no bytes or the part of T1 within p, T2 and the item fit together |
| ArcCapacity.ScanExact | internal/cache/arc.go:237-318 | a scan of unknown keys leaves T2 as it was exactly when each of its Puts does |
| ArcCapacity.ScanIsRun | internal/cache/arc.go:139-262 | a scan is a run of Puts |
| CacheContract.GetHits | internal/cache/cache.go:35-36 | for both caches, Get hits exactly when the key is resident and unexpired, and returns the resident item |
| CacheContract.PutResidents | internal/cache/cache.go:37-39 | for both caches, an accepted Put leaves its item resident, invents nothing, and counts every item it drops as an eviction; a rejected one changes nothing |
| CacheContract.EveryRunAgrees | internal/cache/cache.go:33-46 | over every run of either cache, a hit returns the last accepted Put of its key, Hits + Misses = Gets, and inserts = residents + evictions + expiry removals |
| CacheContract.PutThenGet | internal/cache/cache.go:33-46 | an accepted item is read back by the next Get exactly while it has not expired |
| CacheContract.GetKeeps | internal/cache/cache.go:35-36 | for both caches, Get removes nothing but the key that it finds expired |
| CacheContract.MissLeavesAbsent | internal/cache/cache.go:35-36 | for both caches, after a miss the key is not resident |
| CacheContract.PutWithRoom | internal/cache/cache.go:37-39 | for both caches, with room and without ghosts a new key is added at the front and nothing is evicted |
| OriginShields.OriginShield.Fetch | internal/cdn/shield.go:42-77 | a hit answers in 2 ms without the origin; a miss asks it and inserts; a failing origin leaves only the effect of the lookup; a zero clock stands for the real one |
| OriginShields.TimeToLive | internal/cdn/shield.go:46-75 | after an access that asked the origin the next one is a hit exactly until now plus the time to live, always when there is none, never for a segment larger than the cache |
| TransportTypes.GoodputRate | internal/transport/modeled/tcp.go:133-136 | goodput times latency is 8000 times the bytes, in Mbps and nanoseconds; 0 when no time passes |
| Reno.CongestionController.ScanWindow | internal/transport/modeled/congestion.go:80-87 | the advancing loss index sees a loss exactly when some offset lies in the window |
| Reno.CongestionController.TransferTime | internal/transport/modeled/congestion.go:47-112 | terminates without its guard break, with the round trips of the window recursion |
| RenoTheorems.WindowsTile | internal/transport/modeled/congestion.go:61-109 | the windows tile [0, bytes) and stay at two segments or more; a lossy window is followed by half of it, or by two segments when it is under four; before the first loss a window below ssthresh doubles; in every other case the next one is a segment larger; round trips = windows + lossy windows |
| RenoTheorems.RttsBounded | internal/transport/modeled/congestion.go:61-109 | at most 2 * ceil(bytes / (2 * MSS)) round trips, whatever the losses |
| RenoTheorems.RecoveryCarries | internal/transport/modeled/congestion.go:89-108 | after a lossy window, n full clean windows starting at the halved window c end at c + n * MSS and carry exactly n * c + MSS * n(n-1)/2 bytes, which is at least MSS * n(n+3)/2 |
| RenoTheorems.LossesSlowTransfers | internal/transport/modeled/congestion.go:47-112 | any loss list takes at least the clean number of round trips, and at least one more when an offset lies in [0, bytes) |
| RenoTheorems.LaterLossesNeverHelp | internal/transport/modeled/congestion.go:47-112 | losses added at the end of a sorted list never shorten the transfer, and leave the count as it is exactly when each falls outside it or into a window that has a loss already |
| RenoTheorems.LastLossCosts | internal/transport/modeled/congestion.go:80-99 | a last loss that is not absorbed like this costs at least one round trip |
| RenoTheorems.MoreBytesTakeLonger | internal/transport/modeled/congestion.go:47-112 | for a fixed loss list the count never decreases as bytes grow |
| RenoTheorems.CleanCount | internal/transport/modeled/congestion.go:101-108 | without loss the count is the least n whose bytes, 14600 * (2^n - 1) up to round 18 and linear growth after it, cover the transfer |
| RenoTheorems.ExtraLossAbsorbed | internal/transport/modeled/congestion.go:80-99 | one more loss, anywhere in the list, leaves every window as it was exactly when it falls outside the transfer or into a window that has a loss already |
| RenoTheorems.ExtraLossExact | internal/transport/modeled/congestion.go:80-109 | for any other loss, exactly what it costs or saves: one round trip for its own recovery, plus a run from the end of its window at half the window, less the windows that this run replaces; at least one round trip when no later window had a loss |
| RenoTheorems.ExtraLossCanHelp | internal/transport/modeled/congestion.go:89-99 | a loss list of 40,981 bytes where one more loss saves a round trip |
| LossModel.LossSimulator.constructor | internal/transport/modeled/loss.go:23-32 | which model a configuration selects; the channel starts in the good state |
| LossModel.LossSimulator.IsLost | internal/transport/modeled/loss.go:99-116 | one packet's fate and the next channel state; also the uniform model and the loss-free one |
| LossModel.LossSimulator.SimulatePackets | internal/transport/modeled/loss.go:119-127 | the indices of the lost packets and the channel n packets later |
| LossModel.LostExact | internal/transport/modeled/loss.go:119-127 | indices are strictly increasing in [0, n) and are exactly the packets whose fate is lost |
| LossModel.FatesSplit | internal/transport/modeled/loss.go:99-127 | simulating n and then m packets is simulating n + m packets |
| LossModel.LostSplit | internal/transport/modeled/loss.go:119-127 | the index lists of the two halves are the split of the whole list |
| LossModel.RunFatesWhole | internal/transport/modeled/loss.go:119-127 | any sequence of calls draws the same fates as one call over all packets |
| LossModel.PacketFatesAgree | internal/transport/modeled/loss.go:119-127 | the fate of the k-th packet does not depend on how the packets are cut into calls |
| LossModel.InBadStep | internal/transport/modeled/loss.go:106-114 | in the bad state unless its recovery draw is below pBadToGood, in the good one unless its transition draw is below pGoodToBad, one packet at a time |
| LossModel.ChannelAfter | internal/transport/modeled/loss.go:99-116 | state and cursor of a Gilbert-Elliott channel after n packets, from the draws alone: in the bad state when some packet entered it and none since recovered; one draw per packet and one more per packet sent in the bad state |
| LossModel.LostExactly | internal/transport/modeled/loss.go:23-32 | which packets a new simulator of any configuration loses, from its draws: Gilbert-Elliott those sent in the bad state with a loss draw below that state's rate, uniform those with a draw below the percentage, any other kind none |
| LossModel.LostExactlyLater | internal/transport/modeled/loss.go:99-116 | the same for a Gilbert-Elliott channel in any state |
| LossModel.NeverBad | internal/transport/modeled/loss.go:68-78 | a channel that starts good and cannot leave the good state loses nothing |
| LossModel.NoBursts | internal/transport/modeled/loss.go:68-78 | a channel that always recovers after one packet never loses two packets in a row |
| Sorting.SortedPermutationUnique | internal/transport/modeled/tcp.go:188 | a sorted permutation is unique, so the unstable library sort of offsets has one result |
| TransportModel.LinkCarries | internal/transport/modeled/tcp.go:104-109 | at the link's rate, or 1 Mbps when that is not positive, the bandwidth time t is what the link needs, in whole nanoseconds: t * rate <= bits < (t + 1) * rate |
| TransportModel.StreamRange | internal/transport/modeled/quic.go:166-177 | a stream's loss offsets are strictly increasing and lie in its own byte range |
| TransportModel.StreamOffsetsIncrease | internal/transport/modeled/quic.go:161-178 | a batch's offsets are strictly increasing before the sort and lie within the connection |
| Transports.IncreasingIsAscending | internal/transport/modeled/quic.go:178 | sorting them changes nothing |
| Transports.ConnectionTimeOf | internal/transport/modeled/tcp.go:98-115 | the slower of the congestion window and the link rate, the sort of the offsets included |
| Transports.FetchAlone | internal/transport/modeled/tcp.go:87-124 | one stream's delivery: window or bandwidth time, first byte, jitter, retransmits and loss channel |
| Transports.ModeledTCPTransport.constructor | internal/transport/modeled/tcp.go:39-46 | loss draws come from a child generator seeded by the parent's first draw |
| Transports.ModeledTCPTransport.Handshake | internal/transport/modeled/tcp.go:61-74 | two round trips, or one and a half when resuming, plus jitter; a cancelled context changes nothing |
| Transports.ModeledTCPTransport.FetchSegment | internal/transport/modeled/tcp.go:127-146 | one stream on its own, with its goodput; the clock advances by its whole latency, and an empty one leaves the transport as it was |
| Transports.ModeledTCPTransport.FetchConcurrent | internal/transport/modeled/tcp.go:169-261 | the head-of-line model: every response, the clock, the jitter draws and the loss channel after a batch; a batch without bytes gets what the platform makes of zero divided by zero |
| Transports.ModeledQUICTransport.constructor | internal/transport/modeled/quic.go:28-43 | the same generator split; the 0-RTT rate clamped to [0, 1] |
| Transports.ModeledQUICTransport.Handshake | internal/transport/modeled/quic.go:58-72 | one round trip, none for a successful 0-RTT; only a resumption draws for it |
| Transports.ModeledQUICTransport.FetchSegment | internal/transport/modeled/quic.go:84-126 | one stream on its own, as for TCP |
| Transports.ModeledQUICTransport.SimulateStreams | internal/transport/modeled/quic.go:161-177 | per-stream loss counts and connection offsets, stream after stream |
| Transports.ModeledQUICTransport.FetchConcurrent | internal/transport/modeled/quic.go:146-232 | the per-stream recovery model: every response, the clock and the loss channel after a batch |
| TransportTheorems.CountsPartition | internal/transport/modeled/quic.go:161-177 | per-stream loss counts add up to the connection's offsets |
| TransportTheorems.OffsetsByStream | internal/transport/modeled/quic.go:161-177 | the offsets are grouped by stream, each group inside its stream's byte range |
| TransportTheorems.QuicAccounting | internal/transport/modeled/quic.go:195-229 | positive sizes: apart from the jitter on completion, transfer times sum to T + L * rtt, less at most a nanosecond per further stream |
| TransportTheorems.TcpAccounting | internal/transport/modeled/tcp.go:230-258 | at any jitter each stream takes T under loss and its share otherwise, plus its own two jitters, and answers its own request |
| TransportTheorems.TcpTransferSum | internal/transport/modeled/tcp.go:230-258 | under loss, transfer times sum to the number of streams times T, plus the jitter on completion |
| TransportTheorems.AnswersInOrder | internal/transport/modeled/tcp.go:248-257 | both transports answer their requests in order, at any jitter |
| TransportTheorems.AlignedBatches | internal/transport/modeled/quic.go:161-177 | when every stream but the last with bytes fills its packets, QUIC's packets, losses and offsets are those that TCP draws for the batch as one stream |
| TransportTheorems.SameConnection | internal/transport/modeled/quic.go:161-177 | alignment is exactly that condition: for any other batch some loss channel gives the two transports different offsets |
| TransportTheorems.QuicAdvantage | internal/transport/modeled/quic.go:128-145 | for an aligned batch of streams with bytes, fetched over both transports from equal loss channels at equal clocks: the same connection time T; apart from the jitter on completion, without loss equal sums of transfer times, and with L losses and n streams QUIC's sum is at most TCP's if L * rtt <= (n-1) * T, and greater if L * rtt > (n-1) * (T+1); that jitter is equal when both draw it from the same place or the link has none |
| TransportTheorems.UnalignedCosts | internal/transport/modeled/quic.go:166-177 | two half-filled packets, which TCP sends as one: QUIC meets a loss that TCP does not, and needs 3 ms in all where TCP needs 1 |
| TransportTheorems.TcpAlone | internal/transport/modeled/tcp.go:230-259 | a batch of one request takes half a round trip, the connection time, loss or not, and its two jitters |
| TransportTheorems.QuicAlone | internal/transport/modeled/quic.go:195-230 | a batch of one request takes half a round trip, the connection time, one round trip for each lost packet, and its two jitters |
| TransportStreams.PacketsCover | internal/transport/modeled/tcp.go:182 | the packets of a stream hold its bytes, and the last is not empty |
| TransportStreams.OffsetsExact | internal/transport/modeled/tcp.go:183-187 | the loss offsets are exactly the first bytes of the lost packets |
| TransportStreams.LossesAt | internal/transport/modeled/quic.go:166-172 | stream i of a QUIC batch draws its fates after the packets of the streams before it |
| TransportStreams.OffsetsAt | internal/transport/modeled/quic.go:173-177 | and its offsets follow theirs, where its own bytes begin |
| TransportStreams.SlowerOfTwo | internal/transport/modeled/tcp.go:190-201 | the connection time is no less than the congestion window or the link allows, at 1 Mbps when the rate is not positive, and no more than the slower of the two |
| TransportStreams.TcpStream | internal/transport/modeled/tcp.go:230-258 | every field of a TCP stream's response: half a round trip and jitter to the first byte; the whole connection time under loss and the rounded-down share otherwise; the connection's losses as retransmissions and blocking events; goodput |
| TransportStreams.QuicStream | internal/transport/modeled/quic.go:197-228 | every field of a QUIC stream's response: its share, a round trip per loss of its own, its own retransmissions, never blocked; an empty stream answers at once |
| TransportStreams.SingleStream | internal/transport/modeled/tcp.go:117-145 | every field of the response to a single fetch |
| TransportSessions.CallTcp | internal/transport/modeled/tcp.go:57-261 | any call, a cancelled one included, has the reply and leaves the loss channel, jitter cursor and clock that the session model gives it |
| TransportSessions.CallQuic | internal/transport/modeled/quic.go:54-232 | the same for QUIC |
| TransportSessions.DriveTcp | internal/transport/modeled/tcp.go:57-261 | the same for any sequence of calls |
| TransportSessions.DriveQuic | internal/transport/modeled/quic.go:54-232 | the same for any sequence of calls over QUIC |
| TransportSessions.CallSends | internal/transport/modeled/tcp.go:31-38 | every call of either transport moves the loss channel by exactly the packets it sends, handshakes and cancelled calls by none, and its responses report exactly their losses |
| TransportSessions.SessionSends | internal/transport/modeled/tcp.go:31-38 | the same for sessions of any length |
| TransportSessions.SameSeedSameFates | internal/transport/modeled/tcp.go:31-38 | TCP and QUIC opened from one seed and one loss profile, under any calls: the k-th packets share their fate, and sessions of equally many packets report equally many losses |
| TransportSessions.FairComparison | internal/transport/modeled/tcp.go:39-46 | the same of the transport objects, from their constructors through any two sequences of calls |
| TransportSessions.DepthOneSessions | internal/transport/modeled/quic.go:208-230 | sessions of one request with bytes at a time, each transport with its own clock and jitter draws: at a steady bandwidth QUIC's latency is TCP's, plus rtt per lost packet, plus the difference in jitter; when both draw the same jitter, or there is none, all latencies are equal exactly when rtt = 0 or the whole session has no loss; with rtt = 0, no jitter and equal clocks they are equal at any bandwidth |
| TransportSessions.PlayerSessions | internal/video/player.go:90 | from one seed and full handshakes, as the player makes them, on any link of steady bandwidth, jitter included: each request costs QUIC exactly rtt more per lost packet, and all latencies are equal exactly when rtt = 0 or the whole session has no loss |
| TransportSessions.ResumedSessions | internal/transport/modeled/quic.go:64 | from one seed and resumed handshakes, QUIC draws its jitter one place later, which is the whole difference apart from the losses |
| TransportSessions.ResumptionShiftsJitter | internal/transport/modeled/quic.go:64 | one seed, no loss, a steady bandwidth, both resumed: latencies a millisecond apart |
| TransportSessions.ClocksDrift | internal/transport/modeled/quic.go:230 | at a falling bandwidth two sessions without any loss differ, because only QUIC's clock counts the time to the first byte |
| MannWhitney.MannWhitneyU | internal/analysis/statistics.go:123-194 | U, doubled, is the smaller of the two pair counts (a win counts 2, a tie 1); the p-value of the normal approximation, 1 for an empty group |
| MannWhitney.AssignRanks | internal/analysis/statistics.go:145-159 | the nested tie loop gives every entry the average rank of its value |
| MannWhitney.RankSum | internal/analysis/statistics.go:161-166 | the accumulated rank sum of group 1 |
| MannWhitney.TieRunScore | internal/analysis/statistics.go:145-159 | in a sorted sample the average rank of a tie run i..j is its value's pair count |
| MannWhitney.RankSumCounts | internal/analysis/statistics.go:161-170 | for any order sort.Slice may leave ties in, R1 - n1(n1+1)/2 is the number of pairs group 1 wins plus half the ties |
| MannWhitney.RanksSum | internal/analysis/statistics.go:145-159 | all ranks sum to N(N+1)/2 |
| MannWhitney.UProperties | internal/analysis/statistics.go:170-172 | 0 <= U <= n1*n2/2, and U is unchanged by reordering either sample or swapping the groups |
| MannWhitney.PProperties | internal/analysis/statistics.go:174-193 | the p-value is a probability, unchanged by reordering a sample or swapping the groups, and no larger for a smaller U when the distribution function does not decrease |
| MannWhitney.PExact | internal/analysis/statistics.go:174-193 | for nonempty groups p is twice the upper tail beyond z, cut to [0, 1], where z is |U - n1*n2/2| - 1/2, or 0 if that is negative, over the standard deviation; 1 within half a step of the mean |
| RankSplits.SplitsExact | internal/analysis/statistics.go:174-175 | the list of splits holds exactly the ways to give n1 of n1 + n2 ranks to group 1 |
| RankSplits.SplitsDistinct | internal/analysis/statistics.go:174-175 | and each of them once |
| RankSplits.VarianceOfU | internal/analysis/statistics.go:174-175 | over all splits of distinct ranks U has mean n1*n2/2 and the variance n1*n2*(n1+n2+1)/12 that the code computes with |
| PairCounts.PairComplement | internal/analysis/statistics.go:170-171 | U1 + U2 = n1*n2 |
| PairCounts.PairPermutation | internal/analysis/statistics.go:161-170 | the pair count depends on the samples as multisets only |
| Sweep.CrossProduct | internal/experiment/sweep.go:164-195 | terminates; as many combinations as the product of the value counts, entry n picking the mixed-radix digits of n; none for no parameters |
| Sweep.Advance | internal/experiment/sweep.go:180-189 | the in-place carry adds one to the number read off the odometer, and runs out exactly at the last reading |
| Sweep.CarryAddsOne | internal/experiment/sweep.go:180-189 | incrementing one position and clearing those to its right adds one |
| Sweep.DigitsRead | internal/experiment/sweep.go:170-195 | the digits of n are a reading within the value lists and stand for n |
| Sweep.NumberDigits | internal/experiment/sweep.go:170-195 | every reading is the digits of its number |
| Sweep.DigitsLexicographic | internal/experiment/sweep.go:170-195 | the output is in strictly increasing lexicographic order |
| Sweep.NumbersAreLexicographic | internal/experiment/sweep.go:170-195 | lexicographically smaller readings have smaller numbers |
| Sweep.EveryCombinationOnce | internal/experiment/sweep.go:164-195 | every choice of values appears, at exactly one position |
| Decimals.AtoiOfItoa | internal/serverapi/payload.go:39-62 | printing an int and parsing it back gives the int, the least one included |
| Decimals.ItoaInjective | internal/video/generate.go:50-52 | distinct numbers print differently, in or out of the range of int |
| SegmentNames.PathRoundTrip | internal/serverapi/payload.go:39-62 | a path parses back to its content id, index and bitrate exactly when the content id has no slash, and is malformed otherwise |
| SegmentNames.IDsInjective | internal/video/generate.go:50-52 | distinct segments have distinct identifiers, slashes included: cache keys never collide |
| SegmentNames.URLIsPath | internal/transport/emulated/tcp.go:34-45 | the URL built from an identifier is the trimmed base and the server's path exactly when the content id has no slash |
| SegmentNames.TrimRightExact | internal/transport/emulated/tcp.go:34-45 | trimming the base removes exactly the slashes at its end |
| Ladder.LowestBitrate | internal/video/manifest.go:36-47 | the least bitrate, 0 for an empty ladder |
| Ladder.HighestBitrate | internal/video/manifest.go:50-61 | the greatest bitrate, 0 for an empty ladder |
| Ladder.ClosestBitrate | internal/video/manifest.go:65-73 | the greatest bitrate not above the target, or the least of all |
| Ladder.RepresentationForBitrate | internal/video/manifest.go:77-86 | a listed representation, never below the first listed one: the best within the bitrate if the first is within it, the last listed of several equally good ones, and otherwise the first |
| Ladder.ScanBounds | internal/video/manifest.go:77-86 | the scan returns the first representation or one within the bitrate, and the best such one when the first is within it |
| Ladder.ScanLast | internal/video/manifest.go:77-86 | of several representations with the best bitrate the scan takes the last |
| Ladder.RungServed | internal/video/manifest.go:77-86 | a rung is served at its own bitrate exactly when the first listed representation is not above it |
| Ladder.OneLevelBelow | internal/video/abr_throughput.go:83-93 | the greatest bitrate strictly below, or the current one |
| Ladder.OneLevelAbove | internal/video/abr_throughput.go:71-81 | the least bitrate strictly above, or the current one |
| Ladder.SwapDown | internal/video/abr_buffer.go:89-93 | one pass of the in-place insertion sort extends the sorted prefix and permutes |
| Ladder.LevelsApartOf | internal/video/abr_buffer.go:80-109 | the true rank distance of two rungs; 2 when either is off the ladder |
| Ladder.PositionIsRank | internal/video/abr_buffer.go:94-105 | the last position of a bitrate in the sorted ladder is its rank minus one; none exactly when it is no rung |
| BufferBased.SelectBitrate | internal/video/abr_buffer.go:29-77 | decision and reason in every zone, with hysteresis, as `DecisionExact`, `DecisionAnyLadder` and `DangerZone` spell out |
| BufferBased.DecisionRules | internal/video/abr_buffer.go:29-77 | with distinct bitrates: always a rung; the lowest below critical; no change in the danger zone; elsewhere no change or a move of at least two rungs |
| BufferBased.DecisionExact | internal/video/abr_buffer.go:29-77 | decision and reason for distinct bitrates: the lowest below 2 s; the current one below 6 s; above it the highest rung from 15 s on, and below that the highest rung x with (x - low) * 9 s <= (high - low) * (buffer - 6 s), taken exactly when another rung lies strictly between it and the current one |
| BufferBased.ApartUnlessAdjacent | internal/video/abr_buffer.go:71-73 | two rungs are at most one level apart exactly when no rung lies strictly between them |
| BufferBased.TargetIsAim | internal/video/abr_buffer.go:53-67 | the target above the danger zone is that rung, and no other |
| BufferBased.DecisionAnyLadder | internal/video/abr_buffer.go:53-76 | on any ladder, with bitrates listed twice or a current one off it, that rung is taken unless the current one is listed and within one rank of it |
| BufferBased.DangerZone | internal/video/abr_buffer.go:43-52 | the danger zone on any ladder: after a sample slower than the current bitrate the next rung below, except that the hysteresis takes that back exactly when the current bitrate is listed once |
| BufferBased.GoalGrows | internal/video/abr_buffer.go:57-65 | the comfort-zone interpolation starts at the lowest bitrate, ends at the highest, and never falls as the buffer grows |
| BufferBased.TargetGrows | internal/video/abr_buffer.go:53-68 | outside the danger zone the target is a rung and never falls as the buffer grows, whatever the throughput |
| PlaybackModel.MissRankBound | internal/video/player.go:134-155 | the k-th slot, if missed, finds its own request at its miss rank |
| PlaybackSessions.LookupSlots | internal/video/player.go:128-156 | hits, the requests of the missed slots in order, missIndices pointing at them, and the cache afterwards |
| PlaybackSessions.FetchThroughShield | internal/video/player.go:162-171 | every miss asks the shield, in order, until one fails; the shield's cache either way |
| PlaybackSessions.InsertFetched | internal/video/player.go:184-193 | every fetched request is inserted for an hour |
| PlaybackSessions.PropagateShieldHits | internal/video/player.go:195-200 | through missIndices every slot gets the shield flag of its own request |
| PlaybackSessions.Reassemble | internal/video/player.go:202-219 | the running cursor agrees with missIndices: every slot gets the response to its own request, hits the local one |
| PlaybackSessions.Account | internal/video/player.go:230-258 | buffer, stall, excess, start of playback and wall clock of one batch |
| PlaybackSessions.CountBatch | internal/video/player.go:265-274 | missed bytes and hits of a batch |
| PlaybackSessions.FinishBatch | internal/video/player.go:195-303 | session state and results after a batch that was fetched |
| PlaybackSessions.RunBatch | internal/video/player.go:102-304 | one iteration of the session loop is one step of the session machine; on an error, the caches as the failing batch leaves them |
| PlaybackSessions.PlaybackSession.RunPlayback | internal/video/player.go:77-319 | defaults filled in: 30 s, 2 s and depth 1 when both durations are zero, depth 1 when it is not positive; the loop terminates and returns what the session machine's run returns, averages included, or the partial result and the error; both caches as the run leaves them |
| PlaybackSessions.PlaybackSession.Total | internal/video/player.go:306-318 | startup of a session that never started, total time, average bitrate and hit rate |
| PlaybackSessions.FinishedResult | internal/video/player.go:306-319 | the returned result: total time = handshake + fetching + stalls + excess, conservation with the startup latency, startup = total when playback never starts; average bitrate and hit rate times the segments are their sums; counters as recorded |
| PlaybackTheorems.OwnResponse | internal/video/player.go:202-219 | if the transport answers its requests in order, every slot's response carries the slot's own key |
| PlaybackTheorems.ModeledOwnResponse | internal/video/player.go:202-219 | over either modelled transport every slot's response carries the slot's own key |
| PlaybackTheorems.OwnShieldFlag | internal/video/player.go:195-200 | a missed slot gets the shield's answer for its own key, and a hit none |
| PlaybackTheorems.CompleteKeepsTime | internal/video/player.go:229-258 | one batch keeps buffer <= MaxBuffer and both time-conservation laws |
| PlaybackTheorems.CompleteKeepsBuffer | internal/video/player.go:247-258 | video is thrown away only by a batch that leaves the buffer full, and playback starts exactly with the first batch whose buffer reaches the threshold |
| PlaybackTheorems.CompleteKeepsSegments | internal/video/player.go:283-303 | one batch keeps the result indices consecutive and cacheHits equal to the flagged hits |
| PlaybackTheorems.CompleteKeepsLog | internal/video/player.go:260-281 | trimming the history batch by batch is keeping the last 20 samples of the session; bitrate changes are those between batches |
| PlaybackTheorems.OneRecord | internal/video/player.go:260-281 | what one more batch adds to the samples and to the bitrate changes |
| PlaybackTheorems.RunKeeps | internal/video/player.go:102-304 | every run keeps all of this and ends at TotalSegments |
| PlaybackTheorems.FinishedSession | internal/video/player.go:94-309 | a finished session: wall clock = handshake + fetching + stalls + excess; wall - startup + buffer = segments * duration + 2 * stalls - early excess; stalls and their count follow from fetch times and buffers; segments 0..TotalSegments-1 in order; hits and bitrate changes as recorded; the history is the last twenty samples |
| PlaybackTheorems.EveryBatchDecided | internal/video/player.go:103-114 | whatever the rule, each batch is fetched at the representation of what the rule chose, given the buffer, bitrate, stalls and last twenty samples of the batches before it |
| PlaybackRequests.EverySessionAsksInOrder | internal/video/player.go:126-151 | over every session, finished or not, result j belongs to a request named SegmentID(content, j, its bitrate), with the size that a representation of that bitrate lists for segment j |
| PlaybackRequests.FirstViewingMisses | internal/video/player.go:133-147 | a session whose cache holds no segment of its content has no cache hit at all, at any prefetch depth and whatever the bitrates |
| PlaybackRequests.FirstViewingReachesOrigin | internal/video/player.go:162-171 | a shield that holds none serves none: the origin is asked exactly once for each segment that the edge cache did not have |
| PlaybackRequests.EverySegmentServedOnce | internal/video/player.go:133-200 | behind a shield, cache hits, shield hits and origin calls add up to the segments |
| PlaybackRequests.FailedBatch | internal/video/player.go:164-182 | a batch that fails leaves no result, no time and no new item in the edge cache behind, and its error names the stage that failed |
| SecondViewing.FirstViewingFills | internal/video/player.go:184-193 | an empty cache, LRU or ARC, with room for a session's segments holds every one of them, and exactly their bytes, when the session ends |
| SecondViewing.SecondViewingHits | internal/video/player.go:133-193 | a second session at the same bitrates over that cache hits in every slot and never asks the transport, as long as its clock ends within an hour |
| SecondViewing.BatchHits | internal/video/player.go:133-147 | exactly which slots of a batch hit: those whose segment the cache held unexpired when the batch began |
| SecondViewing.BatchStores | internal/video/player.go:184-193 | after a batch the cache holds older items and the segments that the batch fetched, each expiring an hour after the batch began, and nothing else |
| SecondViewing.InsertsStamp | internal/video/player.go:184-193 | the same of any insertion of a list of requests |
| SecondViewing.LastInserted | internal/video/player.go:184-193 | the last of the requests is there, if the cache can hold it at all |
| BatchResults.EveryBatchShown | internal/video/player.go:221-303 | the batches of a finished session tile its segments, all full except possibly the last; the results of each carry its bitrate, buffers and stall; its fetch time is its slowest response; its sample is the rate of the bytes really fetched; a hit takes a millisecond |
| BatchResults.EveryMissAnswered | internal/video/player.go:202-219 | over every session, a result that is no hit reports the times, goodput and blocking of the transport's answer to its own request |
| PlaybackTheorems.FetchedAsDecided | internal/video/player.go:113-114 | with the lowest bitrate listed first, the representation fetched obeys the rules of the decision, the exact one above the danger zone included |
| PlaybackTheorems.EverySessionFollowsRules | internal/video/player.go:102-304 | over whole sessions every fetched bitrate is a rung and follows exactly from the one before and the buffer: the lowest below critical, no change in the danger zone, above it the rung that the buffer affords when another lies in between; so every other change is a move of at least two rungs |
| PlaybackTheorems.FirstBatchServesFirstListed | internal/video/manifest.go:77-86 | the first batch is fetched at the first listed bitrate, hence as decided exactly when the lowest is listed first |

## Left out

- `Clear`, `Name` and `Stats` of the caches, and the byte fields of the statistics: one-line members.
- Mutexes: each cache method is one atomic step.
- The width of `int64`: sizes, counters and times are unbounded, except that `SegmentNames` models the range of parsed integers. Negative sizes are not modelled.
- Cached values are opaque integers; a ghost forgets its value.
- A cache held by a session or a shield is a value of the cache specification, so one cache object shared by several owners is not modelled.
- Floating-point rounding: shares are exact integer quotients, bandwidth times, throughput samples, goodputs and averages exact reals, and the comfort-zone goal an exact integer quotient. The duration made of a floating-point NaN is a parameter of the link.
- The jitter distribution (Box-Muller) is an uninterpreted function of the draws; the bandwidth at a clock reading is an uninterpreted function.
- Initial capacities of result slices, among them the one that a sufficiently negative uniform loss rate makes invalid (loss.go:59).
- MannWhitney.MannWhitneyU: math.Sqrt and the normal distribution function are parameters; NaN samples are not modelled.
- `sort.Slice` is modelled by an insertion sort whose contract is only sorted-and-a-permutation; `strconv` and `strings` functions are modelled by their documented behaviour on characters.
- Sweep.CrossProduct: requires nonempty value lists, which the sweep configuration checks before calling it (sweep.go:95-102).
- RenoTheorems.ExtraLossExact: gives the difference in terms of one second run; when that run is the shorter one has no closed form here.
- The content id, protocol and algorithm names in a playback result.
- PlaybackTheorems.EverySessionFollowsRules: is about the buffer-based rule with distinct bitrates; the throughput-based rule is not modelled.
- Sweep execution, configuration files, writers and charts, servers, the emulated transports' I/O, routing, popularity, bandwidth traces, bootstrap intervals and the other statistics.
