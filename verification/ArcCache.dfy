/**
 The adaptive replacement cache with its own data (internal/cache/arc.go). Every
 method is proved to keep Valid, the representation invariant of ArcDirectory, and
 to have exactly the effect that ArcModel gives it.
 */
module ArcCaches {
  import opened Wrappers
  import opened CacheItems
  import opened ElementList
  import opened ArcModel
  import opened ArcDirectory

  class ARCCache {
    const maxSizeBytes: nat
    var p: int
    var t1: seq<Element>
    var t2: seq<Element>
    var b1: seq<Element>
    var b2: seq<Element>
    var index: map<string, int>
    var ownerOf: map<string, char>
    var t1Bytes: int
    var t2Bytes: int
    var b1Bytes: int
    var b2Bytes: int
    var stats: Stats
    /** Allocation mark for list elements. */
    var nextElement: int

    ghost function Fields(): Rep
      reads this
    {
      Rep(maxSizeBytes, p, t1, t2, b1, b2, t1Bytes, t2Bytes, b1Bytes, b2Bytes, index, ownerOf, nextElement, stats)
    }

    ghost predicate Valid()
      reads this
    {
      Sound(Fields())
    }

    ghost function State(): Arc
      reads this
    {
      Abs(Fields())
    }

    constructor (maxSizeBytes: nat)
      ensures Valid() && State() == ArcNew(maxSizeBytes)
    {
      this.maxSizeBytes := maxSizeBytes;
      p, t1, t2, b1, b2 := 0, [], [], [], [];
      index, ownerOf, nextElement := map[], map[], 0;
      t1Bytes, t2Bytes, b1Bytes, b2Bytes := 0, 0, 0, 0;
      stats := Stats(0, 0, 0);
    }

    method Get(key: string, now: int) returns (result: Option<Item>)
      requires Valid()
      modifies this
      ensures Valid() && (State(), result) == ArcGet(old(State()), key, now)
    {
      hide Sound;
      hide Abs;
      hide Remove;
      hide MoveToFront;
      ghost var r := Fields();
      Found(r, key);
      Counted(r);
      if key !in index {
        Retarget(r, p, stats.(misses := stats.misses + 1));
        stats := stats.(misses := stats.misses + 1);
        return None;
      }
      var owner := ownerOf[key];
      if owner != 't' && owner != 'T' {
        // A ghost hit is a miss.
        Retarget(r, p, stats.(misses := stats.misses + 1));
        stats := stats.(misses := stats.misses + 1);
        return None;
      }
      var el := index[key];
      var item := if owner == 't' then t1[Position(t1, el)].item else t2[Position(t2, el)].item;
      if Expired(item, now) {
        RemoveFromActive(key, el);
        Retarget(Fields(), p, stats.(misses := stats.misses + 1));
        stats := stats.(misses := stats.misses + 1);
        return None;
      }
      Promote(key, el, owner, item);
      Retarget(Fields(), p, stats.(hits := stats.hits + 1));
      stats := stats.(hits := stats.hits + 1);
      return Some(item);
    }

    /** A hit moves the entry to the front of T2. */
    method Promote(key: string, el: int, owner: char, item: Item)
      requires Valid()
      requires key in index && index[key] == el && key in ownerOf && ownerOf[key] == owner
      requires owner == 't' ==> Position(t1, el) < |t1| && t1[Position(t1, el)].item == item
      requires owner in {'t', 'T'}
      modifies this
      ensures Valid()
      ensures stats == old(stats) && p == old(p)
      ensures var s := old(State());
              if owner == 't' then
                var i := IndexOf(s.t1, key);
                i < |s.t1| && State() == s.(t1 := RemoveAt(s.t1, i), t2 := [s.t1[i]] + s.t2)
              else
                var i := IndexOf(s.t2, key);
                i < |s.t2| && State() == s.(t2 := [s.t2[i]] + RemoveAt(s.t2, i))
    {
      hide Sound;
      hide Abs;
      hide Remove;
      hide RemoveAt;
      hide MoveToFront;
      hide IndexOf;
      hide Position;
      ghost var r := Fields();
      if owner == 't' {
        PromoteSound(r, key);
        t1 := Remove(t1, el);
        t1Bytes := t1Bytes - item.size;
        t2 := [Element(nextElement, item)] + t2;
        t2Bytes := t2Bytes + item.size;
        index := index[key := nextElement];
        ownerOf := ownerOf[key := 'T'];
        nextElement := nextElement + 1;
        assert Fields() == Promoted(r, key);
      } else {
        FrontSound(r, key);
        t2 := MoveToFront(t2, el);
      }
    }

    method RemoveFromActive(key: string, el: int)
      requires Valid()
      requires key in index && index[key] == el && key in ownerOf && ownerOf[key] in {'t', 'T'}
      modifies this
      ensures Valid()
      ensures stats == old(stats) && p == old(p)
      ensures var s := old(State());
              if old(ownerOf[key]) == 't' then
                var i := IndexOf(s.t1, key);
                i < |s.t1| && State() == s.(t1 := RemoveAt(s.t1, i))
              else
                var i := IndexOf(s.t2, key);
                i < |s.t2| && State() == s.(t2 := RemoveAt(s.t2, i))
    {
      hide Sound;
      hide Abs;
      hide Remove;
      hide RemoveAt;
      hide IndexOf;
      hide Position;
      ghost var r := Fields();
      Found(r, key);
      TakeActive(r, key);
      var owner := ownerOf[key];
      if owner == 't' {
        t1Bytes := t1Bytes - t1[Position(t1, el)].item.size;
        t1 := Remove(t1, el);
      } else if owner == 'T' {
        t2Bytes := t2Bytes - t2[Position(t2, el)].item.size;
        t2 := Remove(t2, el);
      }
      index := index - {key};
      ownerOf := ownerOf - {key};
      assert Fields() == Take(r, key);
    }

    method MoveT1LRUToB1()
      requires Valid()
      modifies this
      ensures Valid() && State() == DemoteT1(old(State()))
    {
      hide Sound;
      hide Abs;
      hide Remove;
      ghost var r := Fields();
      Counted(r);
      if |t1| == 0 {
        return;
      }
      DemoteT1Sound(r);
      var back := t1[|t1| - 1];
      t1 := Remove(t1, back.id);
      t1Bytes := t1Bytes - back.item.size;
      b1 := [Element(nextElement, Stub(back.item))] + b1;
      b1Bytes := b1Bytes + back.item.size;
      index := index[back.item.key := nextElement];
      ownerOf := ownerOf[back.item.key := 'b'];
      nextElement := nextElement + 1;
      stats := stats.(evictions := stats.evictions + 1);
      assert Fields() == Demoted1(r);
    }

    /** The other half of the loop body of replace: T2's LRU becomes a B2 ghost. */
    method MoveT2LRUToB2()
      requires Valid()
      modifies this
      ensures Valid() && State() == DemoteT2(old(State()))
    {
      hide Sound;
      hide Abs;
      hide Remove;
      ghost var r := Fields();
      Counted(r);
      if |t2| == 0 {
        return;
      }
      DemoteT2Sound(r);
      var back := t2[|t2| - 1];
      t2 := Remove(t2, back.id);
      t2Bytes := t2Bytes - back.item.size;
      b2 := [Element(nextElement, Stub(back.item))] + b2;
      b2Bytes := b2Bytes + back.item.size;
      index := index[back.item.key := nextElement];
      ownerOf := ownerOf[back.item.key := 'B'];
      nextElement := nextElement + 1;
      stats := stats.(evictions := stats.evictions + 1);
      assert Fields() == Demoted2(r);
    }

    /** REPLACE: the loop stops with exactly what the closed form keeps. */
    method Replace(size: nat, inB2: bool)
      requires Valid()
      modifies this
      ensures Valid() && State() == ArcModel.Replace(old(State()), size, inB2)
    {
      hide Sound;
      hide Abs;
      hide ArcModel.Replace;
      hide Bytes;
      Counted(Fields());
      while t1Bytes + t2Bytes + size > maxSizeBytes
        invariant Valid() && ArcModel.Replace(State(), size, inB2) == ArcModel.Replace(old(State()), size, inB2)
        decreases |t1| + |t2|
      {
        Counted(Fields());
        if t1Bytes > 0 && (t1Bytes > p || (inB2 && t1Bytes == p)) {
          ReplaceAfterDemoteT1(State(), size, inB2);
          if |t1| == 0 {
            assert false;  // Back() is never nil here
            break;
          }
          MoveT1LRUToB1();
        } else if t2Bytes > 0 {
          ReplaceAfterDemoteT2(State(), size, inB2);
          if |t2| == 0 {
            assert false;  // Back() is never nil here
            break;
          }
          MoveT2LRUToB2();
        } else {
          break;
        }
        Counted(Fields());
      }
      Counted(Fields());
      ReplaceDone(State(), size, inB2);
    }

    method Put(item: Item)
      requires Valid()
      modifies this
      ensures Valid() && State() == ArcPut(old(State()), item)
    {
      hide Sound;
      hide Abs;
      hide ArcModel.Replace;
      hide ArcModel.Prepare;
      hide Step;
      hide IndexOf;
      hide Position;
      ghost var r := Fields();
      Counted(r);
      Found(r, item.key);
      if item.size > maxSizeBytes {
        return;
      }
      if item.key in index {
        var owner := ownerOf[item.key];
        if owner == 't' || owner == 'T' {
          UpdateInPlace(item, index[item.key], owner);
        } else if owner == 'b' {
          GhostHitB1(item, index[item.key]);
        } else {
          GhostHitB2(item, index[item.key]);
        }
        return;
      }
      InsertFresh(item);
    }

    /** Case IV of Put: a key that the index does not know enters T1. */
    method InsertFresh(item: Item)
      requires Valid() && item.size <= maxSizeBytes && item.key !in index
      modifies this
      ensures Valid() && State() == ArcPut(old(State()), item)
    {
      hide Sound;
      hide Abs;
      hide ArcModel.Replace;
      hide ArcModel.Prepare;
      hide IndexOf;
      hide Position;
      ghost var r := Fields();
      Counted(r);
      Found(r, item.key);
      Indexed(r, item.key);
      Prepare(item.size);
      PrepareAbsent(old(State()), item.size, item.key);
      ReplaceAbsent(State(), item.size, false, item.key);
      Replace(item.size, false);
      ghost var mid := Fields();
      Indexed(mid, item.key);
      PushSound(mid, item, 't');
      t1 := [Element(nextElement, item)] + t1;
      t1Bytes := t1Bytes + item.size;
      index := index[item.key := nextElement];
      ownerOf := ownerOf[item.key := 't'];
      nextElement := nextElement + 1;
      assert Fields() == Push(mid, item, 't');
    }

    /** The 't' and 'T' cases of Put: no eviction, no move. */
    method UpdateInPlace(item: Item, el: int, owner: char)
      requires Valid()
      requires item.key in index && index[item.key] == el && item.key in ownerOf && ownerOf[item.key] == owner
      requires owner in {'t', 'T'}
      modifies this
      ensures Valid()
      ensures var s := old(State());
              if owner == 't' then
                var i := IndexOf(s.t1, item.key);
                i < |s.t1| && State() == s.(t1 := s.t1[i := item])
              else
                var i := IndexOf(s.t2, item.key);
                i < |s.t2| && State() == s.(t2 := s.t2[i := item])
    {
      hide Sound;
      hide Abs;
      hide SetItem;
      hide IndexOf;
      hide Position;
      ghost var r := Fields();
      Found(r, item.key);
      if owner == 't' {
        UpdateT1Sound(r, item);
        t1Bytes := t1Bytes - t1[Position(t1, el)].item.size;
        t1Bytes := t1Bytes + item.size;
        t1 := SetItem(t1, el, item);
      } else {
        UpdateT2Sound(r, item);
        t2Bytes := t2Bytes - t2[Position(t2, el)].item.size;
        t2Bytes := t2Bytes + item.size;
        t2 := SetItem(t2, el, item);
      }
    }

    /** How far a ghost hit moves p. */
    method TargetStep(mine: int, other: int, ghostSize: nat) returns (step: int)
      requires mine >= 0 && other >= 0
      ensures step == Step(mine, other, ghostSize)
    {
      var delta := 1;
      if other > mine && mine > 0 {
        delta := other / mine;
      }
      step := delta * ghostSize;
    }

    /** The ghost leaves its list and both maps. */
    method ForgetGhost(key: string, el: int)
      requires Valid()
      requires key in index && index[key] == el && key in ownerOf && ownerOf[key] in {'b', 'B'}
      modifies this
      ensures Valid() && key !in ownerOf
      ensures var s := old(State());
              if old(ownerOf[key]) == 'b' then
                var i := IndexOf(s.b1, key);
                i < |s.b1| && State() == s.(b1 := RemoveAt(s.b1, i))
              else
                var i := IndexOf(s.b2, key);
                i < |s.b2| && State() == s.(b2 := RemoveAt(s.b2, i))
    {
      hide Sound;
      hide Abs;
      hide Remove;
      hide RemoveAt;
      hide IndexOf;
      hide Position;
      ghost var r := Fields();
      Found(r, key);
      TakeGhost(r, key);
      if ownerOf[key] == 'b' {
        b1Bytes := b1Bytes - b1[Position(b1, el)].item.size;
        b1 := Remove(b1, el);
      } else {
        b2Bytes := b2Bytes - b2[Position(b2, el)].item.size;
        b2 := Remove(b2, el);
      }
      index := index - {key};
      ownerOf := ownerOf - {key};
      assert Fields() == Take(r, key);
    }

    /** The 'b' case of Put: p grows, and the key is admitted to T2. */
    method GhostHitB1(item: Item, el: int)
      requires Valid() && item.size <= maxSizeBytes
      requires item.key in index && index[item.key] == el && item.key in ownerOf && ownerOf[item.key] == 'b'
      modifies this
      ensures Valid() && State() == ArcPut(old(State()), item)
    {
      hide Sound;
      hide Abs;
      hide ArcModel.Replace;
      hide ArcModel.Prepare;
      hide IndexOf;
      hide Position;
      hide Step;
      hide Bytes;
      ghost var r := Fields();
      Counted(r);
      Found(r, item.key);
      var ghostSize := b1[Position(b1, el)].item.size;
      var step := TargetStep(b1Bytes, b2Bytes, ghostSize);
      p := p + step;
      if p > maxSizeBytes {
        p := maxSizeBytes;
      }
      Retarget(r, p, stats);
      Found(Fields(), item.key);
      ForgetGhost(item.key, el);
      Indexed(Fields(), item.key);
      ReplaceAbsent(State(), item.size, false, item.key);
      Replace(item.size, false);
      Indexed(Fields(), item.key);
      AdmitToT2(item);
    }

    /** The 'B' case of Put: p shrinks, and the key is admitted to T2. */
    method GhostHitB2(item: Item, el: int)
      requires Valid() && item.size <= maxSizeBytes
      requires item.key in index && index[item.key] == el && item.key in ownerOf && ownerOf[item.key] == 'B'
      modifies this
      ensures Valid() && State() == ArcPut(old(State()), item)
    {
      hide Sound;
      hide Abs;
      hide ArcModel.Replace;
      hide ArcModel.Prepare;
      hide IndexOf;
      hide Position;
      hide Step;
      hide Bytes;
      ghost var r := Fields();
      Counted(r);
      Found(r, item.key);
      var ghostSize := b2[Position(b2, el)].item.size;
      var step := TargetStep(b2Bytes, b1Bytes, ghostSize);
      p := p - step;
      if p < 0 {
        p := 0;
      }
      Retarget(r, p, stats);
      Found(Fields(), item.key);
      ForgetGhost(item.key, el);
      Indexed(Fields(), item.key);
      ReplaceAbsent(State(), item.size, true, item.key);
      Replace(item.size, true);
      Indexed(Fields(), item.key);
      AdmitToT2(item);
    }

    method AdmitToT2(item: Item)
      requires Valid() && item.key !in ownerOf
      modifies this
      ensures Valid() && State() == old(State()).(t2 := [item] + old(State()).t2)
    {
      hide Sound;
      hide Abs;
      ghost var r := Fields();
      PushSound(r, item, 'T');
      t2 := [Element(nextElement, item)] + t2;
      t2Bytes := t2Bytes + item.size;
      index := index[item.key := nextElement];
      ownerOf := ownerOf[item.key := 'T'];
      nextElement := nextElement + 1;
      assert Fields() == Push(r, item, 'T');
    }

    /** Cases IV.A to IV.D of Put, up to the call of replace. */
    method Prepare(size: nat)
      requires Valid()
      modifies this
      ensures Valid() && State() == ArcModel.Prepare(old(State()), size)
    {
      hide Sound;
      hide Abs;
      hide Bytes;
      hide DemoteT1;
      Counted(Fields());
      var l1Bytes := t1Bytes + b1Bytes;
      if l1Bytes + size > maxSizeBytes {
        if t1Bytes < maxSizeBytes {
          EvictLRUList('b');
        } else {
          MoveT1LRUToB1();
        }
      } else {
        var l2Bytes := t1Bytes + t2Bytes + b1Bytes + b2Bytes;
        if l2Bytes + size >= 2 * maxSizeBytes {
          EvictLRUList('B');
        }
      }
    }

    /** Drops the last entry of the list that the owner tag names, without leaving a ghost. */
    method EvictLRUList(owner: char)
      requires Valid() && owner in {'t', 'T', 'b', 'B'}
      modifies this
      ensures Valid() && State() == DroppedArc(old(State()), owner)
    {
      hide Sound;
      hide Abs;
      hide Remove;
      hide DroppedArc;
      hide Shorter;
      ghost var r := Fields();
      var l := if owner == 't' then t1 else if owner == 'T' then t2 else if owner == 'b' then b1 else b2;
      if |l| == 0 {
        DropNothing(r, owner);
        return;
      }
      DropSound(r, owner);
      var back := l[|l| - 1];
      Shorten(owner, back);
      index := index - {back.item.key};
      ownerOf := ownerOf - {back.item.key};
      assert Fields() == Dropped(r, owner);
    }

    /** The switch of EvictLRUList. */
    method Shorten(owner: char, back: Element)
      requires owner in {'t', 'T', 'b', 'B'}
      modifies this`t1, this`t2, this`b1, this`b2, this`t1Bytes, this`t2Bytes, this`b1Bytes, this`b2Bytes
      ensures Fields() == Shorter(old(Fields()), owner, back)
    {
      hide Remove;
      match owner {
        case 't' =>
          t1 := Remove(t1, back.id);
          t1Bytes := t1Bytes - back.item.size;
        case 'T' =>
          t2 := Remove(t2, back.id);
          t2Bytes := t2Bytes - back.item.size;
        case 'b' =>
          b1 := Remove(b1, back.id);
          b1Bytes := b1Bytes - back.item.size;
        case _ =>
          b2 := Remove(b2, back.id);
          b2Bytes := b2Bytes - back.item.size;
      }
    }
  }
}
