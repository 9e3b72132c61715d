/**
 The byte-bounded LRU cache (internal/cache/lru.go): what Get and Put do to a
 recency list, and the class with its list, map and byte counter that does it.
 */
module LruModel {
  import opened Wrappers
  import opened CacheItems

  datatype Lru = Lru(max: nat, list: seq<Item>, stats: Stats)

  function LruNew(max: nat): Lru {
    Lru(max, [], Stats(0, 0, 0))
  }

  ghost predicate LruInv(c: Lru) {
    Distinct(c.list) && Bytes(c.list) <= c.max
  }

  function LruGet(c: Lru, key: string, now: int): (Lru, Option<Item>) {
    var i := IndexOf(c.list, key);
    if i == |c.list| then
      (c.(stats := c.stats.(misses := c.stats.misses + 1)), None)
    else if Expired(c.list[i], now) then
      (c.(list := RemoveKey(c.list, key), stats := c.stats.(misses := c.stats.misses + 1)), None)
    else
      (c.(list := [c.list[i]] + RemoveKey(c.list, key), stats := c.stats.(hits := c.stats.hits + 1)), Some(c.list[i]))
  }

  /** The list with the item brought to the front; Put then keeps what fits. */
  function LruPut(c: Lru, item: Item): Lru {
    if item.size > c.max then c
    else
      var moved := [item] + RemoveKey(c.list, item.key);
      var kept := Fit(moved, c.max);
      c.(list := kept, stats := c.stats.(evictions := c.stats.evictions + |moved| - |kept|))
  }

  lemma {:induction false} LruGetKeepsInv(c: Lru, key: string, now: int)
    requires LruInv(c)
    ensures LruInv(LruGet(c, key, now).0)
  {
    var i := IndexOf(c.list, key);
    if i < |c.list| {
      RemoveKeyKeys(c.list, key);
      BytesRemoveAt(c.list, i);
      FrontKeys(c.list[i], RemoveKey(c.list, key));
      BytesFront(c.list[i], RemoveKey(c.list, key));
    }
  }

  lemma {:induction false} LruPutKeepsInv(c: Lru, item: Item)
    requires LruInv(c)
    ensures LruInv(LruPut(c, item))
  {
    RemoveKeyKeys(c.list, item.key);
    FrontKeys(item, RemoveKey(c.list, item.key));
    if item.size <= c.max {
      var moved := [item] + RemoveKey(c.list, item.key);
      var kept := Fit(moved, c.max);
      assert kept == moved[..|kept|];
    }
  }

  /** An accepted item is never the one that its own insertion evicts. */
  lemma LruPutResident(c: Lru, item: Item)
    requires item.size <= c.max
    ensures LruPut(c, item).list != [] && LruPut(c, item).list[0] == item
  {
  }
}

module LruCaches {
  import opened Wrappers
  import opened CacheItems
  import opened ElementList
  import opened LruModel

  class LRUCache {
    const maxSizeBytes: nat
    var currentSize: int
    var items: map<string, int>
    var evictList: seq<Element>
    var stats: Stats
    /** Allocation mark for list elements. */
    var nextElement: int
    /** Every key of items is owned by the one list; Tracks is shared with ARC. */
    ghost var owner: map<string, char>

    /** The map and the list describe the same keys and elements. */
    ghost predicate Linkage()
      reads this
    {
      && owner.Keys == items.Keys
      && (forall k :: k in owner ==> owner[k] == 'l')
      && Tracks(evictList, 'l', items, owner, nextElement)
    }

    ghost predicate Valid()
      reads this
    {
      Linkage() && currentSize == Bytes(Items(evictList)) <= maxSizeBytes
    }

    ghost function State(): Lru
      reads this
    {
      Lru(maxSizeBytes, Items(evictList), stats)
    }

    constructor (maxSizeBytes: nat)
      ensures Valid() && State() == LruNew(maxSizeBytes)
    {
      this.maxSizeBytes := maxSizeBytes;
      currentSize, items, evictList := 0, map[], [];
      stats, nextElement, owner := Stats(0, 0, 0), 0, map[];
    }

    method Get(key: string, now: int) returns (r: Option<Item>)
      requires Valid()
      modifies this
      ensures Valid()
      ensures (State(), r) == LruGet(old(State()), key, now)
    {
      hide Tracks;
      hide IndexOf;
      hide HasKey;
      hide Position;
      if key !in items {
        TracksDistinct(evictList, 'l', items, owner, nextElement);
        stats := stats.(misses := stats.misses + 1);
        return None;
      }
      var el := items[key];
      TracksFind(evictList, 'l', items, owner, nextElement, key);
      var item := evictList[Position(evictList, el)].item;
      if Expired(item, now) {
        RemoveElement(key, el);
        stats := stats.(misses := stats.misses + 1);
        return None;
      }
      TracksMoveToFront(evictList, 'l', items, owner, nextElement, key);
      BytesRemoveAt(Items(evictList), IndexOf(Items(evictList), key));
      BytesFront(item, RemoveKey(Items(evictList), key));
      evictList := MoveToFront(evictList, el);
      stats := stats.(hits := stats.hits + 1);
      return Some(item);
    }

    method Put(item: Item)
      requires Valid()
      modifies this
      ensures Valid()
      ensures State() == LruPut(old(State()), item)
    {
      hide Tracks;
      hide HasKey;
      hide Items;
      hide Fit;
      hide Bytes;
      if item.size > maxSizeBytes {
        return;
      }
      Place(item);
      ghost var moved := Items(evictList);
      while currentSize > maxSizeBytes
        invariant Linkage() && currentSize == Bytes(Items(evictList))
        invariant Fit(Items(evictList), maxSizeBytes) == Fit(moved, maxSizeBytes)
        invariant stats == old(stats).(evictions := old(stats).evictions + |moved| - |evictList|) && |evictList| <= |moved|
        decreases |evictList|
      {
        if |evictList| == 0 {
          assert false;  // list.Back() is never nil here
          break;
        }
        var back := evictList[|evictList| - 1];
        TracksBack(evictList, 'l', items, owner, nextElement);
        FitDropLast(Items(evictList), maxSizeBytes);
        RemoveElement(back.item.key, back.id);
        stats := stats.(evictions := stats.evictions + 1);
      }
      FitAll(Items(evictList), maxSizeBytes);
    }

    /** The update and insert branches of Put, before anything is evicted. */
    method Place(item: Item)
      requires Valid()
      modifies this`currentSize, this`items, this`evictList, this`nextElement, this`owner
      ensures Linkage() && currentSize == Bytes(Items(evictList))
      ensures Items(evictList) == [item] + RemoveKey(old(Items(evictList)), item.key)
    {
      hide Tracks;
      hide HasKey;
      if item.key in items {
        var el := items[item.key];
        OverwriteAndMove(evictList, items, owner, nextElement, item);
        currentSize := currentSize - evictList[Position(evictList, el)].item.size;
        evictList := SetItem(evictList, el, item);
        currentSize := currentSize + item.size;
        evictList := MoveToFront(evictList, el);
      } else {
        TracksDistinct(evictList, 'l', items, owner, nextElement);
        TracksPush(evictList, 'l', items, owner, nextElement, item);
        BytesFront(item, Items(evictList));
        evictList := [Element(nextElement, item)] + evictList;
        items, owner := items[item.key := nextElement], owner[item.key := 'l'];
        nextElement := nextElement + 1;
        currentSize := currentSize + item.size;
      }
    }

    method RemoveElement(key: string, el: int)
      requires Linkage() && key in items && items[key] == el
      requires currentSize == Bytes(Items(evictList))
      modifies this`currentSize, this`items, this`evictList, this`owner
      ensures Linkage()
      ensures Items(evictList) == RemoveKey(old(Items(evictList)), key)
      ensures currentSize == Bytes(Items(evictList)) <= old(currentSize)
    {
      hide Tracks;
      hide IndexOf;
      hide HasKey;
      hide Position;
      TracksFind(evictList, 'l', items, owner, nextElement, key);
      TracksRemove(evictList, 'l', items, owner, nextElement, key);
      BytesRemoveAt(Items(evictList), IndexOf(Items(evictList), key));
      currentSize := currentSize - evictList[Position(evictList, el)].item.size;
      evictList := Remove(evictList, el);
      items, owner := items - {key}, owner - {key};
    }
  }

  /** Writing through an element and moving it to the front brings the new item to the front. */
  lemma {:induction false} OverwriteAndMove(l: seq<Element>, items: map<string, int>, owner: map<string, char>,
                                            next: int, it: Item)
    requires Tracks(l, 'l', items, owner, next) && it.key in owner && owner[it.key] == 'l' && it.key in items
    ensures Position(l, items[it.key]) < |l|
    ensures var l' := MoveToFront(SetItem(l, items[it.key], it), items[it.key]);
            && Tracks(l', 'l', items, owner, next)
            && Items(l') == [it] + RemoveKey(Items(l), it.key)
            && Bytes(Items(l')) == Bytes(Items(l)) - l[Position(l, items[it.key])].item.size + it.size
  {
    hide Tracks;
    var xs, i := Items(l), IndexOf(Items(l), it.key);
    TracksDistinct(l, 'l', items, owner, next);
    TracksFind(l, 'l', items, owner, next, it.key);
    TracksSetItem(l, 'l', items, owner, next, it);
    BytesUpdate(xs, i, it);
    var l1 := SetItem(l, items[it.key], it);
    var ys := Items(l1);
    assert ys == xs[i := it];
    UniqueByKey(ys, i, it.key);
    assert RemoveKey(ys, it.key) == RemoveKey(xs, it.key);
    TracksMoveToFront(l1, 'l', items, owner, next, it.key);
    BytesRemoveAt(ys, i);
    BytesFront(it, RemoveKey(ys, it.key));
  }
}
