/**
 Doubly linked lists of container/list, as the two caches use them. An element
 is a pointer in Go; here it is a handle (id), so that a map from keys
 to elements and a list of elements are two structures that must be kept in step.
 The front of the list is index 0.
 */
module ElementList {
  import opened CacheItems

  datatype Element = Element(id: int, item: Item)

  function Items(l: seq<Element>): (r: seq<Item>)
    ensures |r| == |l| && forall i :: 0 <= i < |l| ==> r[i] == l[i].item
  {
    seq(|l|, i requires 0 <= i < |l| => l[i].item)
  }

  /** Where the element with this handle sits; |l| when it is not in the list. */
  function Position(l: seq<Element>, id: int): (r: nat)
    ensures r <= |l|
    ensures r < |l| ==> l[r].id == id
    ensures forall i :: 0 <= i < r ==> l[i].id != id
  {
    if l == [] || l[0].id == id then 0 else 1 + Position(l[1..], id)
  }

  /** list.Remove: a no-op for an element of another list. */
  function Remove(l: seq<Element>, id: int): seq<Element> {
    var i := Position(l, id);
    if i < |l| then RemoveAt(l, i) else l
  }

  /** list.MoveToFront. */
  function MoveToFront(l: seq<Element>, id: int): seq<Element> {
    var i := Position(l, id);
    if i < |l| then [l[i]] + RemoveAt(l, i) else l
  }

  /** Writing through the element pointer. */
  function SetItem(l: seq<Element>, id: int, item: Item): seq<Element> {
    var i := Position(l, id);
    if i < |l| then l[i := Element(id, item)] else l
  }

  /**
   List l holds exactly the keys that `owner` maps to `tag`, under the handles that
   `index` records for them; handles are distinct and below the allocation mark.
   */
  ghost predicate Tracks(l: seq<Element>, tag: char, index: map<string, int>, owner: map<string, char>, next: int) {
    && DistinctIds(l)
    && (forall e :: e in l ==> Linked(e, tag, index, owner, next))
    && Covers(l, tag, owner)
  }

  ghost predicate DistinctIds(l: seq<Element>) {
    forall i, j :: 0 <= i < j < |l| ==> l[i].id != l[j].id
  }

  ghost predicate Linked(e: Element, tag: char, index: map<string, int>, owner: map<string, char>, next: int) {
    && e.id < next
    && e.item.key in index && index[e.item.key] == e.id
    && e.item.key in owner && owner[e.item.key] == tag
  }

  ghost predicate Covers(l: seq<Element>, tag: char, owner: map<string, char>) {
    forall k :: k in owner && owner[k] == tag ==> HasKey(Items(l), k)
  }

  lemma {:induction false} TracksDistinct(l: seq<Element>, tag: char, index: map<string, int>, owner: map<string, char>, next: int)
    requires Tracks(l, tag, index, owner, next)
    ensures Distinct(Items(l))
    ensures forall k :: HasKey(Items(l), k) <==> k in owner && owner[k] == tag
  {
    assert forall i :: 0 <= i < |l| ==> l[i] in l && Items(l)[i] == l[i].item;
  }

  /** Looking an element up by its handle finds the item with its key. */
  lemma {:induction false} TracksFind(l: seq<Element>, tag: char, index: map<string, int>, owner: map<string, char>, next: int, k: string)
    requires Tracks(l, tag, index, owner, next) && k in owner && owner[k] == tag
    ensures var i := IndexOf(Items(l), k);
            i < |l| && k in index && Position(l, index[k]) == i && l[i].item.key == k
  {
    var i := IndexOf(Items(l), k);
    assert HasKey(Items(l), k);
    assert l[i].item == Items(l)[i] && l[i] in l;
    var j := Position(l, index[k]);
    assert l[i].id == index[k];
  }

  lemma ItemsRemoveAt(l: seq<Element>, i: nat)
    requires i < |l|
    ensures Items(RemoveAt(l, i)) == RemoveAt(Items(l), i)
  {
  }

  lemma {:induction false} RemoveAtIds(l: seq<Element>, i: nat)
    requires DistinctIds(l) && i < |l|
    ensures DistinctIds(RemoveAt(l, i))
    ensures forall e :: e in RemoveAt(l, i) ==> e in l && e.id != l[i].id
  {
    var r := RemoveAt(l, i);
    forall j | 0 <= j < |r| ensures r[j] in l && r[j].id != l[i].id {
      assert r[j] == l[if j < i then j else j + 1];
    }
  }

  lemma {:induction false} FrontIds(e: Element, l: seq<Element>)
    requires DistinctIds(l) && forall x :: x in l ==> x.id != e.id
    ensures DistinctIds([e] + l)
    ensures forall x :: x in [e] + l <==> x == e || x in l
  {
    var r := [e] + l;
    assert r[0] == e;
    assert forall j :: 1 <= j < |r| ==> r[j] == l[j - 1] && r[j] in l;
  }

  /** Taking a key out of a list and of both maps. */
  lemma {:induction false} TracksRemove(l: seq<Element>, tag: char, index: map<string, int>, owner: map<string, char>, next: int, k: string)
    requires Tracks(l, tag, index, owner, next) && k in owner && owner[k] == tag
    ensures k in index
    ensures Items(Remove(l, index[k])) == RemoveKey(Items(l), k)
    ensures Tracks(Remove(l, index[k]), tag, index - {k}, owner - {k}, next)
  {
    TracksFind(l, tag, index, owner, next, k);
    TracksDistinct(l, tag, index, owner, next);
    var i := IndexOf(Items(l), k);
    ItemsRemoveAt(l, i);
    RemoveKeyKeys(Items(l), k);
    RemoveAtIds(l, i);
    assert Linked(l[i], tag, index, owner, next);
    forall e | e in Remove(l, index[k]) ensures Linked(e, tag, index - {k}, owner - {k}, next) {
      assert Linked(e, tag, index, owner, next);
      assert e.item.key != k;
    }
  }

  /** The other lists do not notice a key leaving the maps. */
  lemma TracksRemoveOther(l: seq<Element>, tag: char, index: map<string, int>, owner: map<string, char>, next: int, k: string)
    requires Tracks(l, tag, index, owner, next) && (k in owner ==> owner[k] != tag)
    ensures Tracks(l, tag, index - {k}, owner - {k}, next)
  {
  }

  /** Pushing a new element for a key that is in neither map. */
  lemma {:induction false} TracksPush(l: seq<Element>, tag: char, index: map<string, int>, owner: map<string, char>, next: int, it: Item)
    requires Tracks(l, tag, index, owner, next) && it.key !in owner
    ensures Items([Element(next, it)] + l) == [it] + Items(l)
    ensures Tracks([Element(next, it)] + l, tag, index[it.key := next], owner[it.key := tag], next + 1)
  {
    var r := [Element(next, it)] + l;
    assert Items(r) == [it] + Items(l);
    FrontIds(Element(next, it), l);
    forall k | k in owner[it.key := tag] && owner[it.key := tag][k] == tag ensures HasKey(Items(r), k) {
      if k == it.key {
        assert Items(r)[0].key == k;
      } else {
        var j := IndexOf(Items(l), k);
        assert Items(r)[j + 1].key == k;
      }
    }
  }

  lemma TracksPushOther(l: seq<Element>, tag: char, index: map<string, int>, owner: map<string, char>, next: int,
                        k: string, other: char)
    requires Tracks(l, tag, index, owner, next) && k !in owner && other != tag
    ensures Tracks(l, tag, index[k := next], owner[k := other], next + 1)
  {
  }

  /** Overwriting an item in place keeps its key, so the maps need no change. */
  lemma {:induction false} TracksSetItem(l: seq<Element>, tag: char, index: map<string, int>, owner: map<string, char>, next: int, it: Item)
    requires Tracks(l, tag, index, owner, next) && it.key in owner && owner[it.key] == tag
    ensures it.key in index
    ensures Items(SetItem(l, index[it.key], it)) == Items(l)[IndexOf(Items(l), it.key) := it]
    ensures Tracks(SetItem(l, index[it.key], it), tag, index, owner, next)
  {
    TracksFind(l, tag, index, owner, next, it.key);
    var i := IndexOf(Items(l), it.key);
    var r := SetItem(l, index[it.key], it);
    assert Items(r) == Items(l)[i := it];
    forall e | e in r ensures Linked(e, tag, index, owner, next) {
      if e != r[i] {
        assert e in l;
      } else {
        assert l[i] in l;
      }
    }
    forall k | k in owner && owner[k] == tag ensures HasKey(Items(r), k) {
      var j := IndexOf(Items(l), k);
      assert HasKey(Items(l), k);
      assert Items(r)[j].key == k;
    }
  }

  lemma {:induction false} TracksMoveToFront(l: seq<Element>, tag: char, index: map<string, int>, owner: map<string, char>, next: int, k: string)
    requires Tracks(l, tag, index, owner, next) && k in owner && owner[k] == tag
    ensures k in index && IndexOf(Items(l), k) < |l|
    ensures Items(MoveToFront(l, index[k])) == [Items(l)[IndexOf(Items(l), k)]] + RemoveKey(Items(l), k)
    ensures Tracks(MoveToFront(l, index[k]), tag, index, owner, next)
  {
    TracksFind(l, tag, index, owner, next, k);
    var i := IndexOf(Items(l), k);
    var r := MoveToFront(l, index[k]);
    ItemsRemoveAt(l, i);
    assert Items(r) == [Items(l)[i]] + RemoveKey(Items(l), k);
    RemoveAtIds(l, i);
    FrontIds(l[i], RemoveAt(l, i));
    TracksDistinct(l, tag, index, owner, next);
    RemoveKeyKeys(Items(l), k);
    FrontKeys(Items(l)[i], RemoveKey(Items(l), k));
  }

  /** The back element is the one that the maps record for its key. */
  lemma {:induction false} TracksBack(l: seq<Element>, tag: char, index: map<string, int>, owner: map<string, char>, next: int)
    requires Tracks(l, tag, index, owner, next) && l != []
    ensures var k := l[|l| - 1].item.key;
            && k in owner && owner[k] == tag && k in index && index[k] == l[|l| - 1].id
            && Items(l)[|l| - 1] == l[|l| - 1].item
            && RemoveKey(Items(l), k) == Items(l)[..|l| - 1]
  {
    assert l[|l| - 1] in l;
    TracksDistinct(l, tag, index, owner, next);
    UniqueByKey(Items(l), |l| - 1, l[|l| - 1].item.key);
    assert Items(l)[|l|..] == [];
  }
}
