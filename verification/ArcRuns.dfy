/**
 What every run of ARC keeps (internal/cache/arc.go). The header comment of the
 source gives the four lists a meaning, entries seen once and entries seen at least
 twice, each in recency order; here that meaning is a theorem about all runs.
 */
module ArcRuns {
  import opened Wrappers
  import opened CacheItems
  import opened ArcModel
  import opened ArcLists

  function Apply(s: Arc, op: Op): Arc {
    match op
    case Get(key, now) => ArcGet(s, key, now).0
    case Put(item) => ArcPut(s, item)
  }

  // ----- the representation invariant, on item lists -----

  ghost predicate Apart(l1: seq<Item>, l2: seq<Item>) {
    && Distinct(l1) && Distinct(l2)
    && forall k :: !(HasKey(l1, k) && HasKey(l2, k))
  }

  /** No key occurs twice anywhere in the four lists, and p is within its range. */
  ghost predicate ArcInv(s: Arc) {
    s.p <= s.max && Apart(Lists(s).l1, Lists(s).l2)
  }

  lemma {:induction false} RemoveIndexKeys(xs: seq<Item>, k: string)
    requires Distinct(xs) && IndexOf(xs, k) < |xs|
    ensures var r := RemoveAt(xs, IndexOf(xs, k));
            && Distinct(r)
            && forall q :: HasKey(r, q) <==> q != k && HasKey(xs, q)
  {
    RemoveKeyKeys(xs, k);
  }

  lemma {:induction false} DropLastKeys(xs: seq<Item>)
    requires Distinct(xs)
    ensures Distinct(DropLast(xs))
    ensures forall q :: HasKey(DropLast(xs), q) ==> HasKey(xs, q)
  {
    forall q | HasKey(DropLast(xs), q) ensures HasKey(xs, q) {
      var i :| 0 <= i < |DropLast(xs)| && DropLast(xs)[i].key == q;
      assert xs[i].key == q;
    }
  }

  lemma {:induction false} UpdateKeys(xs: seq<Item>, i: nat, it: Item)
    requires Distinct(xs) && i < |xs| && xs[i].key == it.key
    ensures Distinct(xs[i := it])
    ensures forall q :: HasKey(xs[i := it], q) <==> HasKey(xs, q)
  {
    var r := xs[i := it];
    assert forall j :: 0 <= j < |xs| ==> r[j].key == xs[j].key;
    forall q ensures HasKey(r, q) <==> HasKey(xs, q) {
      if HasKey(r, q) {
        var j :| 0 <= j < |r| && r[j].key == q;
        assert xs[j].key == q;
      }
      if HasKey(xs, q) {
        var j :| 0 <= j < |xs| && xs[j].key == q;
        assert r[j].key == q;
      }
    }
  }

  lemma {:induction false} TwoGetApart(a: Two, key: string, expired: bool)
    requires Apart(a.l1, a.l2)
    ensures var r := TwoGet(a, key, expired); Apart(r.0, r.1)
  {
    hide Distinct;
    hide HasKey;
    hide IndexOf;
    hide RemoveAt;
    var i, j := IndexOf(a.l1, key), IndexOf(a.l2, key);
    if i < a.n1 && i < |a.l1| {
      RemoveIndexKeys(a.l1, key);
      FrontKeys(a.l1[i], a.l2);
    } else if j < a.n2 && j < |a.l2| {
      RemoveIndexKeys(a.l2, key);
      FrontKeys(a.l2[j], RemoveAt(a.l2, j));
      assert [] + RemoveAt(a.l2, j) == RemoveAt(a.l2, j);
    }
  }

  lemma {:induction false} TwoPutApart(a: Two, max: nat, item: Item)
    requires Apart(a.l1, a.l2)
    ensures var r := TwoPut(a, max, item); Apart(r.0, r.1)
  {
    hide Distinct;
    hide HasKey;
    hide IndexOf;
    hide RemoveAt;
    hide Bytes;
    hide DropsB1;
    hide DropsB2;
    hide DropLast;
    var k, it := item.key, Stub(item);
    var i, j := IndexOf(a.l1, k), IndexOf(a.l2, k);
    if i < |a.l1| {
      UpdateKeys(a.l1, i, it);
      RemoveIndexKeys(a.l1, k);
      FrontKeys(it, a.l2);
    } else if j < |a.l2| {
      UpdateKeys(a.l2, j, it);
      RemoveIndexKeys(a.l2, k);
      FrontKeys(it, RemoveAt(a.l2, j));
    } else {
      DropLastKeys(a.l1);
      DropLastKeys(a.l2);
      FrontKeys(it, a.l1);
      FrontKeys(it, DropLast(a.l1));
    }
  }

  lemma {:induction false} TargetInRange(s: Arc, item: Item)
    requires s.p <= s.max
    ensures ArcPut(s, item).p <= s.max && ArcPut(s, item).max == s.max
  {
    hide Fit;
    hide Step;
    hide Bytes;
    hide IndexOf;
  }

  lemma {:induction false} ApplyKeepsInv(s: Arc, op: Op)
    requires ArcInv(s)
    ensures ArcInv(Apply(s, op)) && Apply(s, op).max == s.max
  {
    hide Apart;
    hide TwoGet;
    hide TwoPut;
    match op
    case Get(key, now) =>
      GetRefinesLists(s, key, now);
      var i, j := IndexOf(s.t1, key), IndexOf(s.t2, key);
      var expired := (i < |s.t1| && Expired(s.t1[i], now)) || (i == |s.t1| && j < |s.t2| && Expired(s.t2[j], now));
      TwoGetApart(Lists(s), key, expired);
    case Put(item) =>
      PutRefinesLists(s, item);
      TwoPutApart(Lists(s), s.max, item);
      TargetInRange(s, item);
  }

  /** The resident part of a list inherits its distinctness. */
  lemma {:induction false} ActiveKeys(active: seq<Item>, ghosts: seq<Item>)
    requires Distinct(Stubs(active + ghosts))
    ensures Distinct(active)
    ensures forall k :: HasKey(active, k) ==> HasKey(Stubs(active + ghosts), k)
  {
    var l := Stubs(active + ghosts);
    assert forall i :: 0 <= i < |active| ==> l[i].key == active[i].key;
    forall k | HasKey(active, k) ensures HasKey(l, k) {
      var i :| 0 <= i < |active| && active[i].key == k;
      assert l[i].key == k;
    }
  }

  // ----- the step of the adaptive target -----

  /** An entry is never larger than its list, so one ghost hit moves p by at most the larger ghost list. */
  lemma {:induction false} StepBounded(mine: nat, other: nat, ghostSize: nat)
    requires ghostSize <= mine
    ensures Step(mine, other, ghostSize) <= Max(mine, other)
    ensures other <= mine ==> Step(mine, other, ghostSize) == ghostSize
  {
    if other > mine && mine > 0 {
      var delta := other / mine;
      assert delta * ghostSize <= delta * mine;
      assert delta * mine <= other;
    }
  }

  /** A B1 hit raises p and a B2 hit lowers it, by a bounded step clamped to [0, max]; nothing else moves p. */
  lemma {:induction false} TargetMoves(s: Arc, item: Item)
    requires s.p <= s.max && item.size <= s.max
    ensures var r := ArcPut(s, item);
            var resident := HasKey(s.t1, item.key) || HasKey(s.t2, item.key);
            var bound := Max(Bytes(s.b1), Bytes(s.b2));
            && (!resident && HasKey(s.b1, item.key) ==> s.p <= r.p <= Min(s.max, s.p + bound))
            && (!resident && !HasKey(s.b1, item.key) && HasKey(s.b2, item.key) ==> Max(0, s.p - bound) <= r.p <= s.p)
            && (resident || !(HasKey(s.b1, item.key) || HasKey(s.b2, item.key)) ==> r.p == s.p)
  {
    hide Fit;
    hide Step;
    hide Bytes;
    hide HasKey;
    hide Stubs;
    var m, n := IndexOf(s.b1, item.key), IndexOf(s.b2, item.key);
    if m < |s.b1| {
      SizeWithinBytes(s.b1, m);
      StepBounded(Bytes(s.b1), Bytes(s.b2), s.b1[m].size);
    }
    if n < |s.b2| {
      SizeWithinBytes(s.b2, n);
      StepBounded(Bytes(s.b2), Bytes(s.b1), s.b2[n].size);
    }
  }

  lemma {:induction false} StepRatio(mine: nat, other: nat, ghostSize: nat) returns (q: nat)
    requires ghostSize <= mine
    ensures mine > 0 ==> q * mine <= Max(mine, other) < (q + 1) * mine
    ensures Step(mine, other, ghostSize) == q * ghostSize
  {
    if other > mine && mine > 0 {
      q := other / mine;
      assert other == q * mine + other % mine;
    } else {
      q := 1;
    }
  }

  /**
   A B1 hit raises p by the size of the ghost, times the whole number of times that B1's
   bytes go into the larger ghost list's. Nothing else in the Put moves p.
   */
  lemma {:induction false} TargetAfterB1Hit(s: Arc, item: Item) returns (q: nat)
    requires item.size <= s.max && s.p <= s.max && !Resident(s, item.key) && HasKey(s.b1, item.key)
    ensures var b1, b2, found := Bytes(s.b1), Bytes(s.b2), s.b1[IndexOf(s.b1, item.key)];
            && (b1 > 0 ==> q * b1 <= Max(b1, b2) < (q + 1) * b1)
            && (b1 == 0 ==> found.size == 0)
            && ArcPut(s, item).p == Min(s.max, s.p + q * found.size)
  {
    hide Fit;
    hide Step;
    hide Bytes;
    hide Stubs;
    var m := IndexOf(s.b1, item.key);
    SizeWithinBytes(s.b1, m);
    q := StepRatio(Bytes(s.b1), Bytes(s.b2), s.b1[m].size);
  }

  /** A B2 hit lowers p by the size of the ghost, times the whole number of times that B2's bytes go into the larger ghost list's. */
  lemma {:induction false} TargetAfterB2Hit(s: Arc, item: Item) returns (q: nat)
    requires item.size <= s.max && s.p <= s.max && !Resident(s, item.key)
    requires !HasKey(s.b1, item.key) && HasKey(s.b2, item.key)
    ensures var b1, b2, found := Bytes(s.b1), Bytes(s.b2), s.b2[IndexOf(s.b2, item.key)];
            && (b2 > 0 ==> q * b2 <= Max(b1, b2) < (q + 1) * b2)
            && (b2 == 0 ==> found.size == 0)
            && ArcPut(s, item).p == Max(0, s.p - q * found.size)
  {
    hide Fit;
    hide Step;
    hide Bytes;
    hide Stubs;
    var n := IndexOf(s.b2, item.key);
    SizeWithinBytes(s.b2, n);
    q := StepRatio(Bytes(s.b2), Bytes(s.b1), s.b2[n].size);
  }

  // ----- seen once, seen at least twice, in recency order -----

  /** How often a key was used since it last entered the directory, when it was used last, and how often it was overwritten. */
  datatype Mark = Mark(uses: nat, last: nat, overwrites: nat)

  /** Everything that counts as seeing a key: hits and accepted Puts. */
  function Sightings(m: Mark): nat {
    m.uses + m.overwrites
  }

  datatype Traced = Traced(arc: Arc, marks: map<string, Mark>, clock: nat)

  predicate Resident(s: Arc, k: string) {
    IndexOf(s.t1, k) < |s.t1| || IndexOf(s.t2, k) < |s.t2|
  }

  predicate Known(s: Arc, k: string) {
    Resident(s, k) || IndexOf(s.b1, k) < |s.b1| || IndexOf(s.b2, k) < |s.b2|
  }

  /**
   A use is a Get that hits, or an accepted Put of a key that is not resident.
   Overwriting a resident key is no use: the source does not promote it.
   */
  function UseOf(s: Arc, op: Op): Option<string> {
    match op
    case Get(key, now) => if ArcGet(s, key, now).1.Some? then Some(key) else None
    case Put(item) => if item.size <= s.max && !Resident(s, item.key) then Some(item.key) else None
  }

  function OverwriteOf(s: Arc, op: Op): Option<string> {
    match op
    case Get(_, _) => None
    case Put(item) => if item.size <= s.max && Resident(s, item.key) then Some(item.key) else None
  }

  function Used(marks: map<string, Mark>, k: string, known: bool, clock: nat): Mark {
    if known && k in marks then Mark(marks[k].uses + 1, clock, marks[k].overwrites) else Mark(1, clock, 0)
  }

  function Overwritten(marks: map<string, Mark>, k: string): map<string, Mark> {
    if k in marks then marks[k := marks[k].(overwrites := marks[k].overwrites + 1)] else marks
  }

  function Next(t: Traced, op: Op): Traced {
    var used, overwritten := UseOf(t.arc, op), OverwriteOf(t.arc, op);
    var marks :=
      if used.Some? then t.marks[used.value := Used(t.marks, used.value, Known(t.arc, used.value), t.clock)]
      else if overwritten.Some? then Overwritten(t.marks, overwritten.value)
      else t.marks;
    Traced(Apply(t.arc, op), marks, t.clock + 1)
  }

  function Run(t: Traced, ops: seq<Op>): Traced
    decreases |ops|
  {
    if ops == [] then t else Run(Next(t, ops[0]), ops[1..])
  }

  ghost predicate Seen(l: seq<Item>, marks: map<string, Mark>, clock: nat, once: bool) {
    && (forall i :: 0 <= i < |l| ==> Marked(l[i].key, marks, clock, once))
    && (forall i, j :: 0 <= i < j < |l| && l[i].key in marks && l[j].key in marks ==>
          marks[l[i].key].last > marks[l[j].key].last)
  }

  ghost predicate Marked(k: string, marks: map<string, Mark>, clock: nat, once: bool) {
    && k in marks && marks[k].last < clock
    && (if once then marks[k].uses == 1 else marks[k].uses >= 2)
  }

  /** L1 holds the keys used once, L2 those used at least twice; both are in order of last use. */
  ghost predicate Documented(t: Traced) {
    && ArcInv(t.arc)
    && Seen(Lists(t.arc).l1, t.marks, t.clock, true)
    && Seen(Lists(t.arc).l2, t.marks, t.clock, false)
  }

  lemma {:induction false} SeenRemoveAt(l: seq<Item>, i: nat, marks: map<string, Mark>, clock: nat, once: bool)
    requires Seen(l, marks, clock, once) && i < |l|
    ensures Seen(RemoveAt(l, i), marks, clock, once)
  {
    var r := RemoveAt(l, i);
    forall a | 0 <= a < |r| ensures Marked(r[a].key, marks, clock, once) {
      assert r[a] == l[if a < i then a else a + 1];
    }
    forall a, b | 0 <= a < b < |r| && r[a].key in marks && r[b].key in marks
      ensures marks[r[a].key].last > marks[r[b].key].last
    {
      assert r[a] == l[if a < i then a else a + 1] && r[b] == l[if b < i then b else b + 1];
    }
  }

  /** Using a key that is not in the list. */
  lemma {:induction false} SeenOther(l: seq<Item>, k: string, m: Mark, marks: map<string, Mark>, clock: nat, once: bool)
    requires Seen(l, marks, clock, once) && !HasKey(l, k)
    ensures Seen(l, marks[k := m], clock + 1, once)
  {
    forall a | 0 <= a < |l| ensures Marked(l[a].key, marks[k := m], clock + 1, once) {
      assert Marked(l[a].key, marks, clock, once);
    }
  }

  lemma {:induction false} SeenLater(l: seq<Item>, marks: map<string, Mark>, clock: nat, once: bool)
    requires Seen(l, marks, clock, once)
    ensures Seen(l, marks, clock + 1, once)
  {
    forall a | 0 <= a < |l| ensures Marked(l[a].key, marks, clock + 1, once) {
      assert Marked(l[a].key, marks, clock, once);
    }
  }

  /** Overwriting moves no key and is no use. */
  lemma {:induction false} SeenOverwritten(l: seq<Item>, k: string, marks: map<string, Mark>, clock: nat, once: bool)
    requires Seen(l, marks, clock, once)
    ensures Seen(l, Overwritten(marks, k), clock, once)
  {
    forall a | 0 <= a < |l| ensures Marked(l[a].key, Overwritten(marks, k), clock, once) {
      assert Marked(l[a].key, marks, clock, once);
    }
  }

  lemma {:induction false} SeenFront(l: seq<Item>, it: Item, m: Mark, marks: map<string, Mark>, clock: nat, once: bool)
    requires Seen(l, marks, clock, once) && !HasKey(l, it.key)
    requires m.last == clock && if once then m.uses == 1 else m.uses >= 2
    ensures Seen([it] + l, marks[it.key := m], clock + 1, once)
  {
    var r, marks' := [it] + l, marks[it.key := m];
    forall a | 0 <= a < |r| ensures Marked(r[a].key, marks', clock + 1, once) {
      if a > 0 {
        assert r[a] == l[a - 1] && Marked(l[a - 1].key, marks, clock, once);
      }
    }
    forall a, b | 0 <= a < b < |r| && r[a].key in marks' && r[b].key in marks'
      ensures marks'[r[a].key].last > marks'[r[b].key].last
    {
      assert r[b] == l[b - 1] && Marked(l[b - 1].key, marks, clock, once);
      assert a > 0 ==> r[a] == l[a - 1];
    }
  }

  lemma SeenDropLast(l: seq<Item>, marks: map<string, Mark>, clock: nat, once: bool)
    requires Seen(l, marks, clock, once)
    ensures Seen(DropLast(l), marks, clock, once)
  {
  }

  lemma {:induction false} SeenUpdate(l: seq<Item>, i: nat, it: Item, marks: map<string, Mark>, clock: nat, once: bool)
    requires Seen(l, marks, clock, once) && i < |l| && l[i].key == it.key
    ensures Seen(l[i := it], marks, clock, once)
  {
    var r := l[i := it];
    assert forall j :: 0 <= j < |l| ==> r[j].key == l[j].key;
  }

  lemma SeenHolds(l: seq<Item>, i: nat, marks: map<string, Mark>, clock: nat, once: bool)
    requires Seen(l, marks, clock, once) && i < |l|
    ensures Marked(l[i].key, marks, clock, once)
  {
  }

  lemma {:induction false} TwoGetSeen(a: Two, key: string, expired: bool, marks: map<string, Mark>, clock: nat)
    requires Apart(a.l1, a.l2) && Seen(a.l1, marks, clock, true) && Seen(a.l2, marks, clock, false)
    ensures var r := TwoGet(a, key, expired);
            var hit := InFront(a.l1, a.n1, key) || InFront(a.l2, a.n2, key);
            && (hit ==> key in marks)
            && var marks' := if hit && !expired then marks[key := Used(marks, key, true, clock)] else marks;
               Seen(r.0, marks', clock + 1, true) && Seen(r.1, marks', clock + 1, false)
  {
    hide Seen;
    hide Distinct;
    hide HasKey;
    hide RemoveAt;
    hide IndexOf;
    var i, j, m := IndexOf(a.l1, key), IndexOf(a.l2, key), Used(marks, key, true, clock);
    if i < a.n1 && i < |a.l1| {
      var l1' := RemoveAt(a.l1, i);
      SeenHolds(a.l1, i, marks, clock, true);
      RemoveIndexKeys(a.l1, key);
      SeenRemoveAt(a.l1, i, marks, clock, true);
      if expired {
        SeenLater(l1', marks, clock, true);
        SeenLater(a.l2, marks, clock, false);
      } else {
        SeenOther(l1', key, m, marks, clock, true);
        SeenFront(a.l2, a.l1[i], m, marks, clock, false);
      }
    } else if j < a.n2 && j < |a.l2| {
      var l2' := RemoveAt(a.l2, j);
      SeenHolds(a.l2, j, marks, clock, false);
      RemoveIndexKeys(a.l2, key);
      SeenRemoveAt(a.l2, j, marks, clock, false);
      assert [] + l2' == l2';
      if expired {
        SeenLater(a.l1, marks, clock, true);
        SeenLater(l2', marks, clock, false);
      } else {
        SeenOther(a.l1, key, m, marks, clock, true);
        SeenFront(l2', a.l2[j], m, marks, clock, false);
      }
    } else {
      SeenLater(a.l1, marks, clock, true);
      SeenLater(a.l2, marks, clock, false);
    }
  }

  predicate InFront(l: seq<Item>, n: nat, k: string) {
    IndexOf(l, k) < n && IndexOf(l, k) < |l|
  }

  lemma {:induction false} TwoPutSeen(a: Two, max: nat, item: Item, marks: map<string, Mark>, clock: nat)
    requires Apart(a.l1, a.l2) && Seen(a.l1, marks, clock, true) && Seen(a.l2, marks, clock, false)
    ensures var r := TwoPut(a, max, item);
            var resident := InFront(a.l1, a.n1, item.key) || InFront(a.l2, a.n2, item.key);
            var known := IndexOf(a.l1, item.key) < |a.l1| || IndexOf(a.l2, item.key) < |a.l2|;
            && (known ==> item.key in marks)
            && var marks' :=
                 if item.size > max then marks
                 else if resident then Overwritten(marks, item.key)
                 else marks[item.key := Used(marks, item.key, known, clock)];
               Seen(r.0, marks', clock + 1, true) && Seen(r.1, marks', clock + 1, false)
  {
    hide Seen;
    hide Distinct;
    hide HasKey;
    hide RemoveAt;
    hide IndexOf;
    hide DropsB1;
    hide DropsB2;
    hide DropLast;
    hide Bytes;
    var k, stub := item.key, Stub(item);
    var i, j, m := IndexOf(a.l1, k), IndexOf(a.l2, k), Used(marks, k, true, clock);
    hide Overwritten;
    if i < |a.l1| {
      SeenHolds(a.l1, i, marks, clock, true);
    }
    if j < |a.l2| {
      SeenHolds(a.l2, j, marks, clock, false);
    }
    SeenLater(a.l1, marks, clock, true);
    SeenLater(a.l2, marks, clock, false);
    if item.size > max {
    } else if InFront(a.l1, a.n1, k) {
      SeenUpdate(a.l1, i, stub, marks, clock, true);
      SeenLater(a.l1[i := stub], marks, clock, true);
      SeenOverwritten(a.l1[i := stub], k, marks, clock + 1, true);
      SeenOverwritten(a.l2, k, marks, clock + 1, false);
    } else if InFront(a.l2, a.n2, k) {
      SeenUpdate(a.l2, j, stub, marks, clock, false);
      SeenLater(a.l2[j := stub], marks, clock, false);
      SeenOverwritten(a.l1, k, marks, clock + 1, true);
      SeenOverwritten(a.l2[j := stub], k, marks, clock + 1, false);
    } else if i < |a.l1| {
      RemoveIndexKeys(a.l1, k);
      SeenRemoveAt(a.l1, i, marks, clock, true);
      SeenOther(RemoveAt(a.l1, i), k, m, marks, clock, true);
      SeenFront(a.l2, stub, m, marks, clock, false);
    } else if j < |a.l2| {
      RemoveIndexKeys(a.l2, k);
      SeenRemoveAt(a.l2, j, marks, clock, false);
      SeenOther(a.l1, k, m, marks, clock, true);
      SeenFront(RemoveAt(a.l2, j), stub, m, marks, clock, false);
    } else {
      TwoInsertSeen(a, stub, marks, clock);
    }
  }

  lemma {:induction false} TwoInsertSeen(a: Two, stub: Item, marks: map<string, Mark>, clock: nat)
    requires Apart(a.l1, a.l2) && Seen(a.l1, marks, clock, true) && Seen(a.l2, marks, clock, false)
    requires !HasKey(a.l1, stub.key) && !HasKey(a.l2, stub.key)
    ensures var marks' := marks[stub.key := Mark(1, clock, 0)];
            && Seen([stub] + a.l1, marks', clock + 1, true) && Seen([stub] + DropLast(a.l1), marks', clock + 1, true)
            && Seen(a.l2, marks', clock + 1, false) && Seen(DropLast(a.l2), marks', clock + 1, false)
  {
    hide Seen;
    hide Distinct;
    hide HasKey;
    hide DropLast;
    DropLastKeys(a.l1);
    DropLastKeys(a.l2);
    SeenDropLast(a.l1, marks, clock, true);
    SeenDropLast(a.l2, marks, clock, false);
    SeenFront(a.l1, stub, Mark(1, clock, 0), marks, clock, true);
    SeenFront(DropLast(a.l1), stub, Mark(1, clock, 0), marks, clock, true);
    SeenOther(a.l2, stub.key, Mark(1, clock, 0), marks, clock, false);
    SeenOther(DropLast(a.l2), stub.key, Mark(1, clock, 0), marks, clock, false);
  }

  lemma {:induction false} NextDocumented(t: Traced, op: Op)
    requires Documented(t)
    ensures Documented(Next(t, op))
  {
    hide Seen;
    hide Apart;
    hide Stubs;
    hide TwoGet;
    hide TwoPut;
    hide ArcPut;
    hide IndexOf;
    var s := t.arc;
    ApplyKeepsInv(s, op);
    match op
    case Get(key, now) =>
      var i, j := IndexOf(s.t1, key), IndexOf(s.t2, key);
      var expired := (i < |s.t1| && Expired(s.t1[i], now)) || (i == |s.t1| && j < |s.t2| && Expired(s.t2[j], now));
      GetRefinesLists(s, key, now);
      IndexInLists(s.t1, s.b1, key);
      IndexInLists(s.t2, s.b2, key);
      TwoGetSeen(Lists(s), key, expired, t.marks, t.clock);
    case Put(item) =>
      PutRefinesLists(s, item);
      IndexInLists(s.t1, s.b1, item.key);
      IndexInLists(s.t2, s.b2, item.key);
      TwoPutSeen(Lists(s), s.max, item, t.marks, t.clock);
  }

  lemma {:induction false} RunFromDocumented(t: Traced, ops: seq<Op>)
    requires Documented(t)
    ensures Documented(Run(t, ops)) && Run(t, ops).arc.max == t.arc.max
    decreases |ops|
  {
    if ops != [] {
      NextDocumented(t, ops[0]);
      ApplyKeepsInv(t.arc, ops[0]);
      RunFromDocumented(Next(t, ops[0]), ops[1..]);
    }
  }

  /**
   From an empty cache, every run ends in a state where the lists mean what they are
   documented to mean, up to overwriting: whatever is in T2 or B2 has been seen at least
   twice since it entered, and a key in T1 or B1 has been seen once exactly when it has
   not been overwritten since.
   */
  lemma {:induction false} EveryRunDocumented(max: nat, ops: seq<Op>)
    ensures var t := Run(Traced(ArcNew(max), map[], 0), ops); var l := Lists(t.arc);
            && Documented(t)
            && (forall i :: 0 <= i < |l.l1| ==>
                  l.l1[i].key in t.marks
                  && (Sightings(t.marks[l.l1[i].key]) == 1 <==> t.marks[l.l1[i].key].overwrites == 0))
            && (forall i :: 0 <= i < |l.l2| ==> l.l2[i].key in t.marks && Sightings(t.marks[l.l2[i].key]) >= 2)
  {
    hide Run;
    hide Lists;
    hide ArcInv;
    RunFromDocumented(Traced(ArcNew(max), map[], 0), ops) by { StartDocumented(max); }
    var t := Run(Traced(ArcNew(max), map[], 0), ops);
    var l := Lists(t.arc);
    forall i | 0 <= i < |l.l1| ensures Marked(l.l1[i].key, t.marks, t.clock, true) {
    }
    forall i | 0 <= i < |l.l2| ensures Marked(l.l2[i].key, t.marks, t.clock, false) {
    }
  }

  lemma StartDocumented(max: nat)
    ensures Documented(Traced(ArcNew(max), map[], 0))
  {
  }
}
