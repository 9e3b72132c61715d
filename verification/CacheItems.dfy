/**
 Cached items and the sequences of them that the caches keep, front first
 (internal/cache/cache.go). The central notion is Fit: the longest prefix of a
 recency list whose bytes fit a limit, which is what every eviction loop of the
 package leaves behind.
 */
module CacheItems {
  /** A zero time.Time means that the item never expires. */
  datatype Expiry = Never | At(time: int)

  /** value stands for the opaque payload; 0 plays the part of nil. */
  datatype Item = Item(key: string, size: nat, expiry: Expiry, value: int)

  /** A call of either method of the Cache interface. */
  datatype Op = Get(key: string, now: int) | Put(item: Item)

  predicate Expired(it: Item, now: int) {
    it.expiry.At? && now > it.expiry.time
  }

  /** What a ghost list remembers of an evicted item: its key and size only. */
  function Stub(it: Item): Item {
    Item(it.key, it.size, Never, 0)
  }

  function Stubs(xs: seq<Item>): (r: seq<Item>)
    ensures |r| == |xs| && forall i :: 0 <= i < |xs| ==> r[i] == Stub(xs[i])
  {
    seq(|xs|, i requires 0 <= i < |xs| => Stub(xs[i]))
  }

  datatype Stats = Stats(hits: nat, misses: nat, evictions: nat)

  function Bytes(xs: seq<Item>): nat {
    if xs == [] then 0 else xs[0].size + Bytes(xs[1..])
  }

  ghost predicate HasKey(xs: seq<Item>, k: string) {
    exists i :: 0 <= i < |xs| && xs[i].key == k
  }

  ghost predicate Distinct(xs: seq<Item>) {
    forall i, j :: 0 <= i < j < |xs| ==> xs[i].key != xs[j].key
  }

  /** Position of the first item with key k, or |xs| when there is none. */
  function IndexOf(xs: seq<Item>, k: string): (r: nat)
    ensures r <= |xs|
    ensures r < |xs| <==> HasKey(xs, k)
    ensures r < |xs| ==> xs[r].key == k
    ensures forall i :: 0 <= i < r ==> xs[i].key != k
  {
    if xs == [] then 0
    else if xs[0].key == k then 0
    else
      var r := IndexOf(xs[1..], k);
      assert r < |xs[1..]| ==> xs[r + 1].key == k;
      assert HasKey(xs, k) ==> HasKey(xs[1..], k) by {
        if i :| 0 <= i < |xs| && xs[i].key == k {
          assert xs[1..][i - 1].key == k;
        }
      }
      r + 1
  }

  function RemoveAt<T>(xs: seq<T>, i: nat): seq<T>
    requires i < |xs|
  {
    xs[..i] + xs[i + 1..]
  }

  function RemoveKey(xs: seq<Item>, k: string): seq<Item> {
    var i := IndexOf(xs, k);
    if i < |xs| then RemoveAt(xs, i) else xs
  }

  /** Longest prefix of xs whose bytes are at most limit. */
  function Fit(xs: seq<Item>, limit: nat): (r: seq<Item>)
    ensures r <= xs
    ensures Bytes(r) <= limit
  {
    if xs == [] || xs[0].size > limit then []
    else
      var rest := Fit(xs[1..], limit - xs[0].size);
      assert ([xs[0]] + rest)[1..] == rest;
      [xs[0]] + rest
  }

  // ----- sums -----

  lemma BytesNone()
    ensures Bytes([]) == 0
  {
  }

  lemma {:induction false} BytesAppend(a: seq<Item>, b: seq<Item>)
    ensures Bytes(a + b) == Bytes(a) + Bytes(b)
  {
    if a == [] {
      assert a + b == b;
    } else {
      BytesAppend(a[1..], b);
      assert (a + b)[1..] == a[1..] + b;
    }
  }

  lemma {:induction false} BytesDropLast(xs: seq<Item>)
    requires xs != []
    ensures Bytes(xs) == Bytes(xs[..|xs| - 1]) + xs[|xs| - 1].size
  {
    var init, last := xs[..|xs| - 1], [xs[|xs| - 1]];
    assert xs == init + last;
    assert last[1..] == [];
    BytesAppend(init, last);
  }

  lemma {:induction false} BytesRemoveAt(xs: seq<Item>, i: nat)
    requires i < |xs|
    ensures Bytes(RemoveAt(xs, i)) == Bytes(xs) - xs[i].size
  {
    BytesAppend(xs[..i], xs[i + 1..]);
    BytesAppend(xs[..i], xs[i..]);
    assert xs == xs[..i] + xs[i..];
    assert xs[i..][1..] == xs[i + 1..];
  }

  lemma {:induction false} BytesUpdate(xs: seq<Item>, i: nat, it: Item)
    requires i < |xs|
    ensures Bytes(xs[i := it]) == Bytes(xs) - xs[i].size + it.size
  {
    BytesRemoveAt(xs, i);
    BytesRemoveAt(xs[i := it], i);
    assert RemoveAt(xs[i := it], i) == RemoveAt(xs, i);
  }

  lemma {:induction false} BytesFront(it: Item, xs: seq<Item>)
    ensures Bytes([it] + xs) == it.size + Bytes(xs)
  {
    assert ([it] + xs)[1..] == xs;
  }

  lemma {:induction false} BytesStubs(xs: seq<Item>)
    ensures Bytes(Stubs(xs)) == Bytes(xs)
  {
    if xs != [] {
      BytesStubs(xs[1..]);
      assert Stubs(xs)[1..] == Stubs(xs[1..]);
    }
  }

  lemma {:induction false} BytesPrefix(xs: seq<Item>, m: nat, n: nat)
    requires m <= n <= |xs|
    ensures Bytes(xs[..m]) <= Bytes(xs[..n])
  {
    assert xs[..n] == xs[..m] + xs[m..n];
    BytesAppend(xs[..m], xs[m..n]);
  }

  // ----- Fit is the longest fitting prefix, however it is reached -----

  lemma {:induction false} SizeWithinBytes(xs: seq<Item>, i: nat)
    requires i < |xs|
    ensures xs[i].size <= Bytes(xs)
  {
    BytesRemoveAt(xs, i);
  }

  /** The prefix is maximal: one more item would not fit. */
  lemma {:induction false} FitMaximal(xs: seq<Item>, limit: nat)
    ensures var n := |Fit(xs, limit)|; n < |xs| ==> Bytes(xs[..n + 1]) > limit
  {
    if xs != [] && xs[0].size <= limit {
      var rest := Fit(xs[1..], limit - xs[0].size);
      FitMaximal(xs[1..], limit - xs[0].size);
      var n := |rest|;
      if n + 1 < |xs| {
        assert xs[..n + 2] == [xs[0]] + xs[1..][..n + 1];
        BytesFront(xs[0], xs[1..][..n + 1]);
      }
    } else if xs != [] {
      assert xs[..1] == [xs[0]] + [];
    }
  }

  /** Any fitting prefix that cannot be extended is Fit. */
  lemma {:induction false} FitUnique(xs: seq<Item>, limit: nat, n: nat)
    requires n <= |xs| && Bytes(xs[..n]) <= limit
    requires n == |xs| || Bytes(xs[..n + 1]) > limit
    ensures Fit(xs, limit) == xs[..n]
  {
    var m := |Fit(xs, limit)|;
    FitMaximal(xs, limit);
    assert Fit(xs, limit) == xs[..m];
    if m < n {
      BytesPrefix(xs, m + 1, n);
    } else if n < m {
      BytesPrefix(xs, n + 1, m);
    }
  }

  lemma {:induction false} FitAll(xs: seq<Item>, limit: nat)
    requires Bytes(xs) <= limit
    ensures Fit(xs, limit) == xs
  {
    assert xs[..|xs|] == xs;
    FitUnique(xs, limit, |xs|);
  }

  /** With more room a longer prefix fits. */
  lemma {:induction false} FitMonotone(xs: seq<Item>, small: nat, large: nat)
    requires small <= large
    ensures Fit(xs, small) <= Fit(xs, large) && Bytes(Fit(xs, small)) <= Bytes(Fit(xs, large))
  {
    var m, n := |Fit(xs, small)|, |Fit(xs, large)|;
    assert Fit(xs, small) == xs[..m] && Fit(xs, large) == xs[..n];
    FitMaximal(xs, large);
    if n < m {
      BytesPrefix(xs, n + 1, m);
    }
    BytesPrefix(xs, m, n);
  }

  /** Dropping the last item of a list that is too big does not change what fits. */
  lemma {:induction false} FitDropLast(xs: seq<Item>, limit: nat)
    requires Bytes(xs) > limit
    ensures xs != [] && Fit(xs, limit) == Fit(xs[..|xs| - 1], limit)
  {
    var n := |Fit(xs, limit)|;
    var init := xs[..|xs| - 1];
    FitMaximal(xs, limit);
    assert xs[..|xs|] == xs;
    assert Fit(xs, limit) == xs[..n] == init[..n];
    if n < |init| {
      assert init[..n + 1] == xs[..n + 1];
    }
    FitUnique(init, limit, n);
  }

  // ----- keys -----

  lemma {:induction false} RemoveAtMembers(xs: seq<Item>, i: nat)
    requires Distinct(xs) && i < |xs|
    ensures forall it :: it in RemoveAt(xs, i) <==> it in xs && it.key != xs[i].key
  {
    forall it ensures it in RemoveAt(xs, i) <==> it in xs && it.key != xs[i].key {
      RemoveAtMember(xs, i, it);
    }
  }

  lemma {:induction false} RemoveAtMember(xs: seq<Item>, i: nat, it: Item)
    requires Distinct(xs) && i < |xs|
    ensures it in RemoveAt(xs, i) <==> it in xs && it.key != xs[i].key
  {
    var r := RemoveAt(xs, i);
    if it in r {
      var j :| 0 <= j < |r| && r[j] == it;
      assert it == xs[if j < i then j else j + 1];
    }
    if it in xs && it.key != xs[i].key {
      var j :| 0 <= j < |xs| && xs[j] == it;
      assert it == r[if j < i then j else j - 1];
    }
  }

  lemma {:induction false} RemoveAtDistinct(xs: seq<Item>, i: nat)
    requires Distinct(xs) && i < |xs|
    ensures Distinct(RemoveAt(xs, i))
  {
    var r := RemoveAt(xs, i);
    forall a, b | 0 <= a < b < |r| ensures r[a].key != r[b].key {
      assert r[a] == xs[if a < i then a else a + 1] && r[b] == xs[if b < i then b else b + 1];
    }
  }

  lemma {:induction false} RemoveKeyKeys(xs: seq<Item>, k: string)
    requires Distinct(xs)
    ensures Distinct(RemoveKey(xs, k))
    ensures forall q :: HasKey(RemoveKey(xs, k), q) <==> q != k && HasKey(xs, q)
    ensures forall it :: it in RemoveKey(xs, k) <==> it in xs && it.key != k
  {
    hide Distinct;
    hide RemoveAt;
    hide HasKey;
    var i := IndexOf(xs, k);
    MembersKeys(xs);
    MembersKeys(RemoveKey(xs, k));
    if i < |xs| {
      RemoveAtMembers(xs, i);
      RemoveAtDistinct(xs, i);
    }
  }

  lemma {:induction false} MembersKeys(xs: seq<Item>)
    ensures forall q :: HasKey(xs, q) <==> exists it :: it in xs && it.key == q
  {
    forall q | HasKey(xs, q) ensures exists it :: it in xs && it.key == q {
      var i :| 0 <= i < |xs| && xs[i].key == q;
      assert xs[i] in xs;
    }
  }

  lemma {:induction false} FrontKeys(it: Item, xs: seq<Item>)
    requires Distinct(xs) && !HasKey(xs, it.key)
    ensures Distinct([it] + xs)
    ensures forall q :: HasKey([it] + xs, q) <==> q == it.key || HasKey(xs, q)
  {
    var r := [it] + xs;
    assert r[0] == it;
    assert forall j :: 0 <= j < |xs| ==> r[j + 1] == xs[j];
  }

  lemma UniqueByKey(xs: seq<Item>, i: nat, k: string)
    requires Distinct(xs) && i < |xs| && xs[i].key == k
    ensures IndexOf(xs, k) == i
  {
  }

  lemma {:induction false} KeysAppend(a: seq<Item>, b: seq<Item>)
    ensures forall k :: HasKey(a + b, k) <==> HasKey(a, k) || HasKey(b, k)
  {
    forall k ensures HasKey(a + b, k) <==> HasKey(a, k) || HasKey(b, k) {
      if i :| 0 <= i < |a| && a[i].key == k {
        assert (a + b)[i].key == k;
      }
      if i :| 0 <= i < |b| && b[i].key == k {
        assert (a + b)[|a| + i].key == k;
      }
    }
  }

  lemma {:induction false} DistinctAppend(a: seq<Item>, b: seq<Item>)
    requires Distinct(a) && Distinct(b) && forall k :: !(HasKey(a, k) && HasKey(b, k))
    ensures Distinct(a + b)
  {
    forall i, j | 0 <= i < j < |a + b| ensures (a + b)[i].key != (a + b)[j].key {
      if i < |a| <= j {
        assert HasKey(a, a[i].key) && HasKey(b, b[j - |a|].key);
      }
    }
  }
}
