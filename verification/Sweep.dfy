/**
 The cross product of parameter values (internal/experiment/sweep.go:164-195): an
 odometer over an index array, rightmost digit fastest.
 */
module Sweep {
  datatype Parameter = Parameter(name: string, values: seq<real>)

  datatype Combination = Combination(names: seq<string>, values: seq<real>)

  /** Number of combinations. */
  function Count(params: seq<Parameter>): nat {
    if params == [] then 1 else |params[0].values| * Count(params[1..])
  }

  ghost predicate NonEmptyValues(params: seq<Parameter>) {
    forall i :: 0 <= i < |params| ==> params[i].values != []
  }

  /** A reading of the odometer: one position per parameter, each within its value list. */
  ghost predicate Reading(params: seq<Parameter>, digits: seq<nat>) {
    |digits| == |params| && forall i :: 0 <= i < |params| ==> digits[i] < |params[i].values|
  }

  /** The number a reading stands for, most significant position first. */
  function Number(params: seq<Parameter>, digits: seq<nat>): nat
    requires |digits| == |params|
  {
    if params == [] then 0 else digits[0] * Count(params[1..]) + Number(params[1..], digits[1..])
  }

  /** The mixed-radix digits of n. */
  function Digits(params: seq<Parameter>, n: nat): (r: seq<nat>)
    requires NonEmptyValues(params)
    ensures |r| == |params|
  {
    if params == [] then []
    else
      var c := Count(params[1..]);
      CountPositive(params[1..]);
      [n / c] + Digits(params[1..], n % c)
  }

  function Pick(params: seq<Parameter>, digits: seq<nat>): (r: seq<real>)
    requires |digits| == |params| && forall i :: 0 <= i < |params| ==> digits[i] < |params[i].values|
    ensures |r| == |params| && forall i :: 0 <= i < |params| ==> r[i] == params[i].values[digits[i]]
  {
    seq(|params|, i requires 0 <= i < |params| => params[i].values[digits[i]])
  }

  function Names(params: seq<Parameter>): seq<string> {
    seq(|params|, i requires 0 <= i < |params| => params[i].name)
  }

  lemma {:induction false} CountPositive(params: seq<Parameter>)
    requires NonEmptyValues(params)
    ensures Count(params) > 0
  {
    if params != [] {
      CountPositive(params[1..]);
      assert params[0].values != [];
    }
  }

  // ----- numbers and readings are in bijection -----

  lemma {:induction false} NumberInRange(params: seq<Parameter>, digits: seq<nat>)
    requires Reading(params, digits)
    ensures Number(params, digits) < Count(params)
  {
    if params != [] {
      NumberInRange(params[1..], digits[1..]);
      Below(digits[0], |params[0].values|, Number(params[1..], digits[1..]), Count(params[1..]));
    }
  }

  lemma {:induction false} Below(d: nat, base: nat, low: nat, c: nat)
    requires d < base && low < c
    ensures d * c + low < base * c
  {
    assert (d + 1) * c <= base * c;
  }

  lemma {:induction false} DigitsRead(params: seq<Parameter>, n: nat)
    requires NonEmptyValues(params) && n < Count(params)
    ensures Reading(params, Digits(params, n)) && Number(params, Digits(params, n)) == n
  {
    if params != [] {
      var rest := params[1..];
      var c := Count(rest);
      CountPositive(rest);
      DivMod(n, |params[0].values|, c);
      DigitsRead(rest, n % c);
      var ds := Digits(params, n);
      assert ds[1..] == Digits(rest, n % c);
      assert forall i :: 1 <= i < |params| ==> ds[i] == ds[1..][i - 1] && params[i] == rest[i - 1];
    }
  }

  lemma {:induction false} DivMod(n: nat, base: nat, c: nat)
    requires c > 0 && n < base * c
    ensures n / c < base && n / c * c + n % c == n
  {
    var q := n / c;
    assert q >= base ==> q * c >= base * c;
  }

  lemma {:induction false} DivModUnique(d: nat, low: nat, c: nat)
    requires low < c
    ensures (d * c + low) / c == d && (d * c + low) % c == low
  {
    var n := d * c + low;
    assert n == n / c * c + n % c;
    var q := n / c;
    assert q < d ==> (q + 1) * c <= d * c;
    assert q > d ==> (d + 1) * c <= q * c;
  }

  lemma {:induction false} NumberDigits(params: seq<Parameter>, digits: seq<nat>)
    requires NonEmptyValues(params) && Reading(params, digits)
    ensures Digits(params, Number(params, digits)) == digits
  {
    if params != [] {
      NumberInRange(params[1..], digits[1..]);
      NumberDigits(params[1..], digits[1..]);
      DivModUnique(digits[0], Number(params[1..], digits[1..]), Count(params[1..]));
    }
  }

  /** The first position in which two readings differ decides which number is smaller. */
  ghost predicate LexLess(a: seq<nat>, b: seq<nat>) {
    |a| == |b| && exists k :: 0 <= k < |a| && a[k] < b[k] && a[..k] == b[..k]
  }

  lemma {:induction false} NumbersAreLexicographic(params: seq<Parameter>, a: seq<nat>, b: seq<nat>)
    requires Reading(params, a) && Reading(params, b) && LexLess(a, b)
    ensures Number(params, a) < Number(params, b)
  {
    var k :| 0 <= k < |a| && a[k] < b[k] && a[..k] == b[..k];
    NumberInRange(params[1..], a[1..]);
    if k == 0 {
      Below(a[0], b[0], Number(params[1..], a[1..]), Count(params[1..]));
    } else {
      assert a[0] == a[..k][0] == b[..k][0] == b[0];
      assert a[1..][..k - 1] == a[..k][1..] == b[..k][1..] == b[1..][..k - 1];
      assert a[1..][k - 1] < b[1..][k - 1];
      NumbersAreLexicographic(params[1..], a[1..], b[1..]);
    }
  }

  lemma {:induction false} DigitsLexicographic(params: seq<Parameter>, m: nat, n: nat)
    requires NonEmptyValues(params) && m < n < Count(params)
    ensures LexLess(Digits(params, m), Digits(params, n))
  {
    DigitsRead(params, m);
    DigitsRead(params, n);
    var a, b := Digits(params, m), Digits(params, n);
    FirstDifference(a, b);
    if LexLess(b, a) {
      NumbersAreLexicographic(params, b, a);
      assert false;
    }
  }

  lemma {:induction false} FirstDifference(a: seq<nat>, b: seq<nat>)
    requires |a| == |b|
    ensures a == b || LexLess(a, b) || LexLess(b, a)
  {
    if a != [] {
      if a[0] < b[0] {
        assert a[..0] == b[..0];
      } else if a[0] > b[0] {
        assert b[..0] == a[..0];
      } else {
        FirstDifference(a[1..], b[1..]);
        if LexLess(a[1..], b[1..]) {
          LexCons(a, b);
        } else if LexLess(b[1..], a[1..]) {
          LexCons(b, a);
        } else {
          assert a == [a[0]] + a[1..] && b == [b[0]] + b[1..];
        }
      }
    }
  }

  lemma {:induction false} LexCons(a: seq<nat>, b: seq<nat>)
    requires a != [] && b != [] && a[0] == b[0] && LexLess(a[1..], b[1..])
    ensures LexLess(a, b)
  {
    var k :| 0 <= k < |a[1..]| && a[1..][k] < b[1..][k] && a[1..][..k] == b[1..][..k];
    assert a[k + 1] < b[k + 1];
    assert a[..k + 1] == [a[0]] + a[1..][..k] && b[..k + 1] == [b[0]] + b[1..][..k];
  }

  // ----- one step of the odometer -----

  /** Position k goes up by one and everything to its right, at its top value, goes to zero. */
  lemma {:induction false} CarryAddsOne(params: seq<Parameter>, a: seq<nat>, b: seq<nat>, k: nat)
    requires Reading(params, a) && |b| == |a| && k < |a|
    requires b[..k] == a[..k] && b[k] == a[k] + 1
    requires forall i :: k < i < |a| ==> a[i] == |params[i].values| - 1 && b[i] == 0
    ensures Number(params, b) == Number(params, a) + 1
  {
    if k == 0 {
      TopAndBottom(params[1..], a[1..], b[1..]);
      assert b[0] * Count(params[1..]) == a[0] * Count(params[1..]) + Count(params[1..]);
    } else {
      assert a[0] == a[..k][0] == b[..k][0] == b[0];
      assert a[1..][..k - 1] == a[..k][1..] == b[..k][1..] == b[1..][..k - 1];
      CarryAddsOne(params[1..], a[1..], b[1..], k - 1);
    }
  }

  lemma {:induction false} TopAndBottom(params: seq<Parameter>, top: seq<nat>, bottom: seq<nat>)
    requires |top| == |bottom| == |params|
    requires forall i :: 0 <= i < |params| ==> params[i].values != [] && top[i] == |params[i].values| - 1 && bottom[i] == 0
    ensures Number(params, top) + 1 == Count(params) && Number(params, bottom) == 0
  {
    if params != [] {
      TopAndBottom(params[1..], top[1..], bottom[1..]);
      assert top[0] * Count(params[1..]) + Count(params[1..]) == |params[0].values| * Count(params[1..]);
    }
  }

  /** Combination number n, as the specification has it. */
  function Entry(params: seq<Parameter>, n: nat): Combination
    requires NonEmptyValues(params) && n < Count(params)
  {
    DigitsRead(params, n);
    Combination(Names(params), Pick(params, Digits(params, n)))
  }

  method CrossProduct(params: seq<Parameter>) returns (out: seq<Combination>)
    requires NonEmptyValues(params)
    ensures params == [] ==> out == []
    ensures params != [] ==> |out| == Count(params) && forall n :: 0 <= n < |out| ==> out[n] == Entry(params, n)
  {
    hide Number;
    hide Count;
    hide Digits;
    if |params| == 0 {
      return [];
    }
    var names := Names(params);
    out := [];
    var idx := new nat[|params|](_ => 0);
    var running := true;
    StartReading(params, idx[..]);
    while running
      invariant idx.Length == |params|
      invariant running ==> Reading(params, idx[..]) && |out| == Number(params, idx[..])
      invariant !running ==> |out| == Count(params)
      invariant |out| <= Count(params) && forall n :: 0 <= n < |out| ==> out[n] == Entry(params, n)
      decreases Count(params) - |out|, running
    {
      NumberInRange(params, idx[..]);
      NumberDigits(params, idx[..]);
      var vals := Pick(params, idx[..]);
      assert Combination(names, vals) == Entry(params, |out|);
      out := out + [Combination(names, vals)];
      running := Advance(params, idx);
    }
  }

  lemma {:induction false} StartReading(params: seq<Parameter>, digits: seq<nat>)
    requires NonEmptyValues(params) && |digits| == |params| && forall i :: 0 <= i < |digits| ==> digits[i] == 0
    ensures Reading(params, digits) && Number(params, digits) == 0
  {
    var top := seq(|params|, i requires 0 <= i < |params| => |params[i].values| - 1);
    TopAndBottom(params, top, digits);
  }

  /** The carry loop: rightmost fastest; false when it carries out of the leftmost position. */
  method Advance(params: seq<Parameter>, idx: array<nat>) returns (more: bool)
    requires idx.Length == |params| && Reading(params, idx[..])
    modifies idx
    ensures more ==> Reading(params, idx[..]) && Number(params, idx[..]) == Number(params, old(idx[..])) + 1
    ensures !more ==> Number(params, old(idx[..])) + 1 == Count(params)
  {
    ghost var start := idx[..];
    var k := |params| - 1;
    while k >= 0
      invariant -1 <= k < |params|
      invariant forall i :: 0 <= i <= k ==> idx[i] == start[i]
      invariant forall i :: k < i < |params| ==> idx[i] == 0 && start[i] == |params[i].values| - 1
    {
      idx[k] := idx[k] + 1;
      if idx[k] < |params[k].values| {
        break;
      }
      idx[k] := 0;
      k := k - 1;
    }
    more := k >= 0;
    if more {
      assert idx[..][..k] == start[..k];
      CarryAddsOne(params, start, idx[..], k);
    } else {
      var bottom := seq(|params|, _ => 0);
      TopAndBottom(params, start, bottom);
    }
  }

  /** Every choice of one value per parameter appears, at exactly one reading of the odometer. */
  lemma {:induction false} EveryCombinationOnce(params: seq<Parameter>, digits: seq<nat>)
    requires NonEmptyValues(params) && Reading(params, digits)
    ensures var n := Number(params, digits);
            && n < Count(params)
            && Entry(params, n) == Combination(Names(params), Pick(params, digits))
            && forall m :: 0 <= m < Count(params) && Digits(params, m) == digits ==> m == n
  {
    NumberInRange(params, digits);
    NumberDigits(params, digits);
    forall m | 0 <= m < Count(params) && Digits(params, m) == digits ensures m == Number(params, digits) {
      DigitsRead(params, m);
    }
  }
}
