/**
 The concrete data of the adaptive replacement cache (internal/cache/arc.go:23-39):
 four element lists, the index, the owner map and four byte counters. The elementary
 moves (unlink, link, relink, overwrite) are proved here, on values, to keep the
 representation sound and to do to the item lists what ArcModel says.
 */
module ArcDirectory {
  import opened Wrappers
  import opened CacheItems
  import opened ElementList
  import opened ArcModel

  /** index and owner describe exactly the elements of the four lists, which share no key. */
  ghost predicate Directory(t1: seq<Element>, t2: seq<Element>, b1: seq<Element>, b2: seq<Element>,
                            index: map<string, int>, owner: map<string, char>, next: int)
  {
    && index.Keys == owner.Keys
    && (forall k :: k in owner ==> owner[k] in {'t', 'T', 'b', 'B'})
    && Tracks(t1, 't', index, owner, next)
    && Tracks(t2, 'T', index, owner, next)
    && Tracks(b1, 'b', index, owner, next)
    && Tracks(b2, 'B', index, owner, next)
  }

  /** The fields of an ARCCache, as one value. */
  datatype Rep = Rep(max: nat, p: int,
                     t1: seq<Element>, t2: seq<Element>, b1: seq<Element>, b2: seq<Element>,
                     t1Bytes: int, t2Bytes: int, b1Bytes: int, b2Bytes: int,
                     index: map<string, int>, owner: map<string, char>, next: int, stats: Stats)

  ghost predicate Sound(r: Rep) {
    && Directory(r.t1, r.t2, r.b1, r.b2, r.index, r.owner, r.next)
    && r.t1Bytes == Bytes(Items(r.t1)) && r.t2Bytes == Bytes(Items(r.t2))
    && r.b1Bytes == Bytes(Items(r.b1)) && r.b2Bytes == Bytes(Items(r.b2))
    && 0 <= r.p <= r.max
  }

  ghost function Abs(r: Rep): Arc {
    Arc(r.max, Max(0, r.p), Items(r.t1), Items(r.t2), Items(r.b1), Items(r.b2), r.stats)
  }

  // ----- unlinking the element of a key -----

  function RemoveIf(l: seq<Element>, tag: char, id: int, from: char): seq<Element> {
    if tag == from then Remove(l, id) else l
  }

  function SizeIf(l: seq<Element>, tag: char, id: int, from: char): int {
    var i := Position(l, id);
    if tag == from && i < |l| then l[i].item.size else 0
  }

  /** The representation after list.Remove, the byte count and the two map deletions. */
  function Take(r: Rep, k: string): Rep
    requires k in r.index && k in r.owner
  {
    var id, o := r.index[k], r.owner[k];
    r.(t1 := RemoveIf(r.t1, 't', id, o), t1Bytes := r.t1Bytes - SizeIf(r.t1, 't', id, o),
       t2 := RemoveIf(r.t2, 'T', id, o), t2Bytes := r.t2Bytes - SizeIf(r.t2, 'T', id, o),
       b1 := RemoveIf(r.b1, 'b', id, o), b1Bytes := r.b1Bytes - SizeIf(r.b1, 'b', id, o),
       b2 := RemoveIf(r.b2, 'B', id, o), b2Bytes := r.b2Bytes - SizeIf(r.b2, 'B', id, o),
       index := r.index - {k}, owner := r.owner - {k})
  }

  function TakeArc(s: Arc, k: string, from: char): Arc {
    s.(t1 := if from == 't' then RemoveKey(s.t1, k) else s.t1, t2 := if from == 'T' then RemoveKey(s.t2, k) else s.t2,
       b1 := if from == 'b' then RemoveKey(s.b1, k) else s.b1, b2 := if from == 'B' then RemoveKey(s.b2, k) else s.b2)
  }

  lemma {:induction false} RemoveIfTracks(l: seq<Element>, tag: char, index: map<string, int>, owner: map<string, char>,
                                          next: int, k: string)
    requires Tracks(l, tag, index, owner, next) && k in owner && k in index
    ensures var r := RemoveIf(l, tag, index[k], owner[k]);
            && Tracks(r, tag, index - {k}, owner - {k}, next)
            && Items(r) == (if tag == owner[k] then RemoveKey(Items(l), k) else Items(l))
            && Bytes(Items(r)) == Bytes(Items(l)) - SizeIf(l, tag, index[k], owner[k])
  {
    hide Tracks;
    if tag == owner[k] {
      TracksFind(l, tag, index, owner, next, k);
      TracksRemove(l, tag, index, owner, next, k);
      BytesRemoveAt(Items(l), IndexOf(Items(l), k));
    } else {
      TracksRemoveOther(l, tag, index, owner, next, k);
    }
  }

  lemma {:induction false} TakeSound(r: Rep, k: string)
    requires Sound(r) && k in r.owner
    ensures k in r.index && Sound(Take(r, k)) && Abs(Take(r, k)) == TakeArc(Abs(r), k, r.owner[k])
  {
    hide Tracks;
    hide Items;
    hide Bytes;
    hide RemoveIf;
    hide SizeIf;
    hide RemoveKey;
    hide Distinct;
    RemoveIfTracks(r.t1, 't', r.index, r.owner, r.next, k);
    RemoveIfTracks(r.t2, 'T', r.index, r.owner, r.next, k);
    RemoveIfTracks(r.b1, 'b', r.index, r.owner, r.next, k);
    RemoveIfTracks(r.b2, 'B', r.index, r.owner, r.next, k);
  }

  // ----- linking a new element -----

  function PushIf(l: seq<Element>, tag: char, e: Element, to: char): seq<Element> {
    if tag == to then [e] + l else l
  }

  /** The representation after list.PushFront, the byte count and the two map updates. */
  function Push(r: Rep, it: Item, to: char): Rep {
    var e := Element(r.next, it);
    r.(t1 := PushIf(r.t1, 't', e, to), t1Bytes := r.t1Bytes + (if to == 't' then it.size else 0),
       t2 := PushIf(r.t2, 'T', e, to), t2Bytes := r.t2Bytes + (if to == 'T' then it.size else 0),
       b1 := PushIf(r.b1, 'b', e, to), b1Bytes := r.b1Bytes + (if to == 'b' then it.size else 0),
       b2 := PushIf(r.b2, 'B', e, to), b2Bytes := r.b2Bytes + (if to == 'B' then it.size else 0),
       index := r.index[it.key := r.next], owner := r.owner[it.key := to], next := r.next + 1)
  }

  function PushArc(s: Arc, it: Item, to: char): Arc {
    s.(t1 := if to == 't' then [it] + s.t1 else s.t1, t2 := if to == 'T' then [it] + s.t2 else s.t2,
       b1 := if to == 'b' then [it] + s.b1 else s.b1, b2 := if to == 'B' then [it] + s.b2 else s.b2)
  }

  lemma {:induction false} PushIfTracks(l: seq<Element>, tag: char, index: map<string, int>, owner: map<string, char>,
                                        next: int, it: Item, to: char)
    requires Tracks(l, tag, index, owner, next) && it.key !in owner
    ensures var r := PushIf(l, tag, Element(next, it), to);
            && Tracks(r, tag, index[it.key := next], owner[it.key := to], next + 1)
            && Items(r) == (if tag == to then [it] + Items(l) else Items(l))
            && Bytes(Items(r)) == Bytes(Items(l)) + (if tag == to then it.size else 0)
  {
    hide Tracks;
    if tag == to {
      TracksPush(l, tag, index, owner, next, it);
      BytesFront(it, Items(l));
    } else {
      TracksPushOther(l, tag, index, owner, next, it.key, to);
    }
  }

  lemma {:induction false} PushSound(r: Rep, it: Item, to: char)
    requires Sound(r) && it.key !in r.owner && to in {'t', 'T', 'b', 'B'}
    ensures Sound(Push(r, it, to)) && Abs(Push(r, it, to)) == PushArc(Abs(r), it, to)
  {
    hide Tracks;
    hide Items;
    hide Bytes;
    hide PushIf;
    PushIfTracks(r.t1, 't', r.index, r.owner, r.next, it, to);
    PushIfTracks(r.t2, 'T', r.index, r.owner, r.next, it, to);
    PushIfTracks(r.b1, 'b', r.index, r.owner, r.next, it, to);
    PushIfTracks(r.b2, 'B', r.index, r.owner, r.next, it, to);
  }

  function Moved(r: Rep, it: Item, to: char): Rep
    requires it.key in r.index && it.key in r.owner
  {
    Push(Take(r, it.key), it, to).(index := r.index[it.key := r.next], owner := r.owner[it.key := to])
  }

  /** A key that changes lists has its map entries overwritten, not deleted first. */
  lemma {:induction false} MoveSound(r: Rep, it: Item, to: char)
    requires Sound(r) && it.key in r.owner && to in {'t', 'T', 'b', 'B'}
    ensures it.key in r.index
    ensures Sound(Moved(r, it, to)) && Abs(Moved(r, it, to)) == PushArc(TakeArc(Abs(r), it.key, r.owner[it.key]), it, to)
  {
    hide Sound;
    hide Abs;
    TakeSound(r, it.key);
    PushSound(Take(r, it.key), it, to);
    assert (r.index - {it.key})[it.key := r.next] == r.index[it.key := r.next];
    assert (r.owner - {it.key})[it.key := to] == r.owner[it.key := to];
  }

  /** The back element of a list is the one that the maps record for its key. */
  lemma {:induction false} BackTracks(l: seq<Element>, tag: char, index: map<string, int>, owner: map<string, char>, next: int)
    requires Tracks(l, tag, index, owner, next) && l != []
    ensures var e := l[|l| - 1]; var k := e.item.key;
            && k in owner && owner[k] == tag && k in index && index[k] == e.id
            && e.item == Items(l)[|l| - 1]
            && RemoveKey(Items(l), k) == Items(l)[..|l| - 1]
            && SizeIf(l, tag, e.id, tag) == e.item.size
  {
    hide Tracks;
    TracksBack(l, tag, index, owner, next);
    TracksFind(l, tag, index, owner, next, l[|l| - 1].item.key);
    TracksDistinct(l, tag, index, owner, next);
    UniqueByKey(Items(l), |l| - 1, l[|l| - 1].item.key);
  }

  lemma {:induction false} BackT1(r: Rep)
    requires Sound(r) && r.t1 != []
    ensures var e := r.t1[|r.t1| - 1]; var k := e.item.key; var xs := Abs(r).t1;
            && k in r.owner && r.owner[k] == 't' && k in r.index && r.index[k] == e.id
            && |xs| == |r.t1| && e.item == xs[|xs| - 1] && RemoveKey(xs, k) == xs[..|xs| - 1]
            && SizeIf(r.t1, 't', e.id, 't') == e.item.size
  {
    hide Tracks;
    hide SizeIf;
    BackTracks(r.t1, 't', r.index, r.owner, r.next);
  }

  lemma {:induction false} BackT2(r: Rep)
    requires Sound(r) && r.t2 != []
    ensures var e := r.t2[|r.t2| - 1]; var k := e.item.key; var xs := Abs(r).t2;
            && k in r.owner && r.owner[k] == 'T' && k in r.index && r.index[k] == e.id
            && |xs| == |r.t2| && e.item == xs[|xs| - 1] && RemoveKey(xs, k) == xs[..|xs| - 1]
            && SizeIf(r.t2, 'T', e.id, 'T') == e.item.size
  {
    hide Tracks;
    hide SizeIf;
    BackTracks(r.t2, 'T', r.index, r.owner, r.next);
  }

  /** The counters of hits and misses and the target are independent of the lists. */
  lemma Retarget(r: Rep, p: int, stats: Stats)
    requires Sound(r) && 0 <= p <= r.max
    ensures Sound(r.(p := p, stats := stats)) && Abs(r.(p := p, stats := stats)) == Abs(r).(p := p, stats := stats)
  {
  }

  lemma Counted(r: Rep)
    requires Sound(r)
    ensures r.t1Bytes == Bytes(Abs(r).t1) && r.t2Bytes == Bytes(Abs(r).t2)
    ensures r.b1Bytes == Bytes(Abs(r).b1) && r.b2Bytes == Bytes(Abs(r).b2)
    ensures |r.t1| == |Abs(r).t1| && |r.t2| == |Abs(r).t2| && |r.b1| == |Abs(r).b1| && |r.b2| == |Abs(r).b2|
    ensures 0 <= r.p <= r.max && Abs(r).p == r.p && Abs(r).max == r.max && Abs(r).stats == r.stats
  {
  }

  function Demoted1(r: Rep): Rep
    requires r.t1 != []
  {
    var e := r.t1[|r.t1| - 1];
    r.(t1 := Remove(r.t1, e.id), t1Bytes := r.t1Bytes - e.item.size,
       b1 := [Element(r.next, Stub(e.item))] + r.b1, b1Bytes := r.b1Bytes + e.item.size,
       index := r.index[e.item.key := r.next], owner := r.owner[e.item.key := 'b'], next := r.next + 1,
       stats := r.stats.(evictions := r.stats.evictions + 1))
  }

  lemma {:induction false} Moved1(r: Rep)
    requires r.t1 != []
    requires var e := r.t1[|r.t1| - 1]; var k := e.item.key;
             && k in r.owner && r.owner[k] == 't' && k in r.index && r.index[k] == e.id
             && SizeIf(r.t1, 't', e.id, 't') == e.item.size
    ensures Moved(r, Stub(r.t1[|r.t1| - 1].item), 'b').(stats := r.stats.(evictions := r.stats.evictions + 1)) == Demoted1(r)
  {
    hide Remove;
    hide Position;
  }

  lemma {:induction false} DemoteT1Sound(r: Rep)
    requires Sound(r) && r.t1 != []
    ensures Sound(Demoted1(r)) && Abs(Demoted1(r)) == DemoteT1(Abs(r))
  {
    hide Sound;
    hide Abs;
    hide Position;
    hide Moved;
    var e := r.t1[|r.t1| - 1];
    Counted(r);
    BackT1(r);
    MoveSound(r, Stub(e.item), 'b');
    Moved1(r);
    Retarget(Moved(r, Stub(e.item), 'b'), r.p, r.stats.(evictions := r.stats.evictions + 1));
  }

  function Demoted2(r: Rep): Rep
    requires r.t2 != []
  {
    var e := r.t2[|r.t2| - 1];
    r.(t2 := Remove(r.t2, e.id), t2Bytes := r.t2Bytes - e.item.size,
       b2 := [Element(r.next, Stub(e.item))] + r.b2, b2Bytes := r.b2Bytes + e.item.size,
       index := r.index[e.item.key := r.next], owner := r.owner[e.item.key := 'B'], next := r.next + 1,
       stats := r.stats.(evictions := r.stats.evictions + 1))
  }

  lemma {:induction false} Moved2(r: Rep)
    requires r.t2 != []
    requires var e := r.t2[|r.t2| - 1]; var k := e.item.key;
             && k in r.owner && r.owner[k] == 'T' && k in r.index && r.index[k] == e.id
             && SizeIf(r.t2, 'T', e.id, 'T') == e.item.size
    ensures Moved(r, Stub(r.t2[|r.t2| - 1].item), 'B').(stats := r.stats.(evictions := r.stats.evictions + 1)) == Demoted2(r)
  {
    hide Remove;
    hide Position;
  }

  lemma {:induction false} DemoteT2Sound(r: Rep)
    requires Sound(r) && r.t2 != []
    ensures Sound(Demoted2(r)) && Abs(Demoted2(r)) == DemoteT2(Abs(r))
  {
    hide Sound;
    hide Abs;
    hide Position;
    hide Moved;
    var e := r.t2[|r.t2| - 1];
    Counted(r);
    BackT2(r);
    MoveSound(r, Stub(e.item), 'B');
    Moved2(r);
    Retarget(Moved(r, Stub(e.item), 'B'), r.p, r.stats.(evictions := r.stats.evictions + 1));
  }

  lemma {:induction false} FoundTracks(l: seq<Element>, tag: char, index: map<string, int>, owner: map<string, char>,
                                       next: int, k: string)
    requires Tracks(l, tag, index, owner, next)
    ensures IndexOf(Items(l), k) < |l| <==> k in owner && owner[k] == tag
    ensures k in owner && owner[k] == tag ==>
              && k in index
              && Position(l, index[k]) == IndexOf(Items(l), k) < |l|
              && l[Position(l, index[k])].item == Items(l)[IndexOf(Items(l), k)]
  {
    hide Tracks;
    TracksDistinct(l, tag, index, owner, next);
    if k in owner && owner[k] == tag {
      TracksFind(l, tag, index, owner, next, k);
    }
  }

  /** The two maps answer where a key is, and the handle leads to its item. */
  lemma {:induction false} Found(r: Rep, k: string)
    requires Sound(r)
    ensures k in r.owner <==> k in r.index
    ensures k in r.owner ==> r.owner[k] in {'t', 'T', 'b', 'B'}
    ensures var xs := Abs(r).t1; |xs| == |r.t1| && (IndexOf(xs, k) < |xs| <==> k in r.owner && r.owner[k] == 't')
    ensures var xs := Abs(r).t2; |xs| == |r.t2| && (IndexOf(xs, k) < |xs| <==> k in r.owner && r.owner[k] == 'T')
    ensures var xs := Abs(r).b1; |xs| == |r.b1| && (IndexOf(xs, k) < |xs| <==> k in r.owner && r.owner[k] == 'b')
    ensures var xs := Abs(r).b2; |xs| == |r.b2| && (IndexOf(xs, k) < |xs| <==> k in r.owner && r.owner[k] == 'B')
    ensures k in r.owner && r.owner[k] == 't' ==>
              var i := IndexOf(Abs(r).t1, k); Position(r.t1, r.index[k]) == i && r.t1[i].item == Abs(r).t1[i]
    ensures k in r.owner && r.owner[k] == 'T' ==>
              var i := IndexOf(Abs(r).t2, k); Position(r.t2, r.index[k]) == i && r.t2[i].item == Abs(r).t2[i]
    ensures k in r.owner && r.owner[k] == 'b' ==>
              var i := IndexOf(Abs(r).b1, k); Position(r.b1, r.index[k]) == i && r.b1[i].item == Abs(r).b1[i]
    ensures k in r.owner && r.owner[k] == 'B' ==>
              var i := IndexOf(Abs(r).b2, k); Position(r.b2, r.index[k]) == i && r.b2[i].item == Abs(r).b2[i]
  {
    hide Tracks;
    hide IndexOf;
    hide Position;
    hide Bytes;
    FoundTracks(r.t1, 't', r.index, r.owner, r.next, k);
    FoundTracks(r.t2, 'T', r.index, r.owner, r.next, k);
    FoundTracks(r.b1, 'b', r.index, r.owner, r.next, k);
    FoundTracks(r.b2, 'B', r.index, r.owner, r.next, k);
  }

  // ----- moves inside T2 and updates in place -----

  lemma {:induction false} FrontSound(r: Rep, k: string)
    requires Sound(r) && k in r.owner && r.owner[k] == 'T'
    ensures k in r.index
    ensures var r' := r.(t2 := MoveToFront(r.t2, r.index[k])); var i := IndexOf(Abs(r).t2, k);
            i < |Abs(r).t2| && Sound(r') && Abs(r') == Abs(r).(t2 := [Abs(r).t2[i]] + RemoveAt(Abs(r).t2, i))
  {
    hide Tracks;
    hide MoveToFront;
    hide Items;
    hide Bytes;
    hide IndexOf;
    hide Position;
    hide RemoveAt;
    TracksMoveToFront(r.t2, 'T', r.index, r.owner, r.next, k);
    var i := IndexOf(Items(r.t2), k);
    BytesRemoveAt(Items(r.t2), i);
    BytesFront(Items(r.t2)[i], RemoveAt(Items(r.t2), i));
  }

  lemma {:induction false} UpdateTracks(l: seq<Element>, tag: char, index: map<string, int>, owner: map<string, char>,
                                        next: int, it: Item)
    requires Tracks(l, tag, index, owner, next) && it.key in owner && owner[it.key] == tag
    ensures it.key in index
    ensures var id := index[it.key]; var i := IndexOf(Items(l), it.key); var l' := SetItem(l, id, it);
            && i < |Items(l)| && Position(l, id) == i < |l|
            && Tracks(l', tag, index, owner, next)
            && Items(l') == Items(l)[i := it]
            && Bytes(Items(l')) == Bytes(Items(l)) - l[Position(l, id)].item.size + it.size
  {
    hide Tracks;
    TracksFind(l, tag, index, owner, next, it.key);
    TracksSetItem(l, tag, index, owner, next, it);
    BytesUpdate(Items(l), IndexOf(Items(l), it.key), it);
  }

  lemma {:induction false} UpdateT1Sound(r: Rep, it: Item)
    requires Sound(r) && it.key in r.owner && r.owner[it.key] == 't'
    ensures it.key in r.index && Position(r.t1, r.index[it.key]) < |r.t1|
    ensures var id := r.index[it.key]; var i := IndexOf(Abs(r).t1, it.key);
            var r' := r.(t1 := SetItem(r.t1, id, it), t1Bytes := r.t1Bytes - r.t1[Position(r.t1, id)].item.size + it.size);
            i < |Abs(r).t1| && Sound(r') && Abs(r') == Abs(r).(t1 := Abs(r).t1[i := it])
  {
    hide Tracks;
    hide SetItem;
    hide Bytes;
    UpdateTracks(r.t1, 't', r.index, r.owner, r.next, it);
  }

  lemma {:induction false} UpdateT2Sound(r: Rep, it: Item)
    requires Sound(r) && it.key in r.owner && r.owner[it.key] == 'T'
    ensures it.key in r.index && Position(r.t2, r.index[it.key]) < |r.t2|
    ensures var id := r.index[it.key]; var i := IndexOf(Abs(r).t2, it.key);
            var r' := r.(t2 := SetItem(r.t2, id, it), t2Bytes := r.t2Bytes - r.t2[Position(r.t2, id)].item.size + it.size);
            i < |Abs(r).t2| && Sound(r') && Abs(r') == Abs(r).(t2 := Abs(r).t2[i := it])
  {
    hide Tracks;
    hide SetItem;
    hide Bytes;
    UpdateTracks(r.t2, 'T', r.index, r.owner, r.next, it);
  }

  // ----- dropping the last entry of a list -----

  function ListOf(r: Rep, tag: char): seq<Element> {
    if tag == 't' then r.t1 else if tag == 'T' then r.t2 else if tag == 'b' then r.b1 else r.b2
  }

  function DroppedArc(s: Arc, tag: char): Arc {
    if tag == 't' then s.(t1 := DropLast(s.t1)) else if tag == 'T' then s.(t2 := DropLast(s.t2))
    else if tag == 'b' then s.(b1 := DropLast(s.b1)) else s.(b2 := DropLast(s.b2))
  }

  /** An element taken out of its list and the list's byte count. */
  function Shorter(r: Rep, tag: char, e: Element): Rep {
    r.(t1 := if tag == 't' then Remove(r.t1, e.id) else r.t1, t1Bytes := if tag == 't' then r.t1Bytes - e.item.size else r.t1Bytes,
       t2 := if tag == 'T' then Remove(r.t2, e.id) else r.t2, t2Bytes := if tag == 'T' then r.t2Bytes - e.item.size else r.t2Bytes,
       b1 := if tag == 'b' then Remove(r.b1, e.id) else r.b1, b1Bytes := if tag == 'b' then r.b1Bytes - e.item.size else r.b1Bytes,
       b2 := if tag == 'B' then Remove(r.b2, e.id) else r.b2, b2Bytes := if tag == 'B' then r.b2Bytes - e.item.size else r.b2Bytes)
  }

  /** The representation without the last entry of a list. */
  function Dropped(r: Rep, tag: char): Rep
    requires ListOf(r, tag) != []
  {
    var l := ListOf(r, tag);
    var e := l[|l| - 1];
    Shorter(r, tag, e).(index := r.index - {e.item.key}, owner := r.owner - {e.item.key})
  }

  lemma {:induction false} DropSound(r: Rep, tag: char)
    requires Sound(r) && tag in {'t', 'T', 'b', 'B'} && ListOf(r, tag) != []
    ensures Sound(Dropped(r, tag)) && Abs(Dropped(r, tag)) == DroppedArc(Abs(r), tag)
  {
    hide Abs;
    hide Sound;
    hide Position;
    hide RemoveKey;
    hide Remove;
    var l := ListOf(r, tag);
    var k := l[|l| - 1].item.key;
    BackOf(r, tag);
    TakeSound(r, k);
    assert Take(r, k) == Dropped(r, tag);
    assert TakeArc(Abs(r), k, tag) == DroppedArc(Abs(r), tag);
  }

  lemma {:induction false} BackOf(r: Rep, tag: char)
    requires Sound(r) && tag in {'t', 'T', 'b', 'B'} && ListOf(r, tag) != []
    ensures var l := ListOf(r, tag); var e := l[|l| - 1]; var k := e.item.key; var s := Abs(r);
            && k in r.owner && r.owner[k] == tag && k in r.index && r.index[k] == e.id
            && SizeIf(l, tag, e.id, tag) == e.item.size
            && TakeArc(s, k, tag) == DroppedArc(s, tag)
  {
    hide Tracks;
    hide Bytes;
    hide Position;
    hide SizeIf;
    hide RemoveKey;
    var l := ListOf(r, tag);
    BackTracks(l, tag, r.index, r.owner, r.next);
  }

  lemma DropNothing(r: Rep, tag: char)
    requires ListOf(r, tag) == [] && tag in {'t', 'T', 'b', 'B'}
    ensures DroppedArc(Abs(r), tag) == Abs(r)
  {
  }

  /** T1 hit: the entry is pushed to T2 under a new element. */
  function Promoted(r: Rep, k: string): Rep
    requires k in r.index && Position(r.t1, r.index[k]) < |r.t1|
  {
    var id := r.index[k];
    var it := r.t1[Position(r.t1, id)].item;
    r.(t1 := Remove(r.t1, id), t1Bytes := r.t1Bytes - it.size,
       t2 := [Element(r.next, it)] + r.t2, t2Bytes := r.t2Bytes + it.size,
       index := r.index[k := r.next], owner := r.owner[k := 'T'], next := r.next + 1)
  }

  lemma {:induction false} PromoteSound(r: Rep, k: string)
    requires Sound(r) && k in r.owner && r.owner[k] == 't'
    ensures k in r.index && Position(r.t1, r.index[k]) < |r.t1|
    ensures var i := IndexOf(Abs(r).t1, k); var s := Abs(r);
            && i < |s.t1| && Sound(Promoted(r, k))
            && Abs(Promoted(r, k)) == s.(t1 := RemoveAt(s.t1, i), t2 := [s.t1[i]] + s.t2)
  {
    hide Sound;
    hide Abs;
    hide Position;
    hide RemoveAt;
    Found(r, k);
    var it := r.t1[Position(r.t1, r.index[k])].item;
    MoveSound(r, it, 'T');
  }

  /** What Take is for a key of T1, and of T2. */
  lemma {:induction false} TakeActive(r: Rep, k: string)
    requires Sound(r) && k in r.owner && r.owner[k] in {'t', 'T'}
    ensures k in r.index && Sound(Take(r, k))
    ensures r.owner[k] == 't' ==> var s := Abs(r); var i := IndexOf(s.t1, k);
              i < |s.t1| && Abs(Take(r, k)) == s.(t1 := RemoveAt(s.t1, i))
    ensures r.owner[k] == 'T' ==> var s := Abs(r); var i := IndexOf(s.t2, k);
              i < |s.t2| && Abs(Take(r, k)) == s.(t2 := RemoveAt(s.t2, i))
  {
    hide Sound;
    hide Abs;
    hide Position;
    hide Take;
    hide RemoveAt;
    Found(r, k);
    TakeSound(r, k);
  }

  lemma {:induction false} TakeGhost(r: Rep, k: string)
    requires Sound(r) && k in r.owner && r.owner[k] in {'b', 'B'}
    ensures k in r.index && Sound(Take(r, k))
    ensures r.owner[k] == 'b' ==> var s := Abs(r); var i := IndexOf(s.b1, k);
              i < |s.b1| && Abs(Take(r, k)) == s.(b1 := RemoveAt(s.b1, i))
    ensures r.owner[k] == 'B' ==> var s := Abs(r); var i := IndexOf(s.b2, k);
              i < |s.b2| && Abs(Take(r, k)) == s.(b2 := RemoveAt(s.b2, i))
  {
    hide Sound;
    hide Abs;
    hide Position;
    hide Take;
    hide RemoveAt;
    Found(r, k);
    TakeSound(r, k);
  }

  lemma {:induction false} Indexed(r: Rep, k: string)
    requires Sound(r)
    ensures k in r.owner <==> InIndex(Abs(r), k)
  {
    hide Sound;
    hide Abs;
    hide Position;
    hide IndexOf;
    Found(r, k);
  }
}
