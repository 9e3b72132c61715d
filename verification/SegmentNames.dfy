/**
 Names of segments: the server's paths (internal/serverapi/payload.go:39-62), the
 simulator's identifiers (internal/video/generate.go:50-52) and the translation
 between them (internal/transport/emulated/tcp.go:34-45).
 */
module Decimals {
  import opened Wrappers

  /** Go's int on a 64-bit platform. */
  type GoInt = x: int | -0x8000_0000_0000_0000 <= x < 0x8000_0000_0000_0000

  const DIGITS: string := "0123456789"

  predicate IsDigit(c: char) {
    '0' <= c <= '9'
  }

  predicate AllDigits(s: string) {
    forall k :: 0 <= k < |s| ==> IsDigit(s[k])
  }

  function Decimal(n: nat): (r: string)
    ensures r != [] && AllDigits(r)
  {
    if n < 10 then [DIGITS[n]] else Decimal(n / 10) + [DIGITS[n % 10]]
  }

  /** What the verb %d prints. */
  function Itoa(i: int): string {
    if i < 0 then "-" + Decimal(-i) else Decimal(i)
  }

  /** Value of a string of digits. */
  function Value(s: string): nat
    requires AllDigits(s)
  {
    if s == [] then 0
    else
      assert IsDigit(s[|s| - 1]);
      Value(s[..|s| - 1]) * 10 + (s[|s| - 1] as int - '0' as int)
  }

  /** strconv.Atoi: an optional sign, at least one digit, and the range of int. */
  function Atoi(s: string): Result<GoInt, string> {
    var signed := s != [] && (s[0] == '-' || s[0] == '+');
    var digits := if signed then s[1..] else s;
    if digits == [] || !AllDigits(digits) then Err("invalid syntax")
    else
      var n: int := Value(digits);
      var v := if signed && s[0] == '-' then 0 - n else n;
      if v < -0x8000_0000_0000_0000 || v >= 0x8000_0000_0000_0000 then Err("value out of range") else Ok(v)
  }

  lemma {:induction false} ValueOfDecimal(n: nat)
    ensures Value(Decimal(n)) == n
    decreases n
  {
    var s := Decimal(n);
    if n >= 10 {
      ValueOfDecimal(n / 10);
      assert s[..|s| - 1] == Decimal(n / 10);
    } else {
      assert s[..|s| - 1] == [];
    }
    assert forall d :: 0 <= d < 10 ==> DIGITS[d] as int - '0' as int == d;
  }

  lemma {:induction false} AtoiOfItoa(i: GoInt)
    ensures Atoi(Itoa(i)) == Ok(i)
  {
    hide Decimal;
    hide Value;
    var n: int := i;
    var d := Decimal(if n < 0 then 0 - n else n);
    ValueOfDecimal(if n < 0 then 0 - n else n);
    assert IsDigit(d[0]);
    if n < 0 {
      assert Itoa(i)[1..] == d;
    }
  }

  /** Distinct numbers print differently, in or out of the range of int. */
  lemma {:induction false} ItoaInjective(i: int, j: int)
    requires Itoa(i) == Itoa(j)
    ensures i == j
  {
    hide Decimal;
    hide Value;
    var d, d' := Decimal(if i < 0 then -i else i), Decimal(if j < 0 then -j else j);
    ValueOfDecimal(if i < 0 then -i else i);
    ValueOfDecimal(if j < 0 then -j else j);
    assert IsDigit(d[0]) && IsDigit(d'[0]);
    assert Itoa(i)[0] == (if i < 0 then '-' else d[0]) && Itoa(j)[0] == (if j < 0 then '-' else d'[0]);
    if i < 0 {
      assert Itoa(i)[1..] == d && Itoa(j)[1..] == d';
    }
  }
}

module SegmentNames {
  import opened Wrappers
  import opened Decimals

  const PREFIX: string := "/segment/"

  predicate NoSlash(s: string) {
    '/' !in s
  }

  /** strings.Split(s, "/") */
  function Split(s: string): (r: seq<string>)
    ensures r != []
    decreases |s|
  {
    if s == [] then [[]]
    else
      var rest := Split(s[1..]);
      if s[0] == '/' then [[]] + rest else [[s[0]] + rest[0]] + rest[1..]
  }

  /** strings.TrimRight(s, "/") */
  function TrimRight(s: string): string {
    if s != [] && s[|s| - 1] == '/' then TrimRight(s[..|s| - 1]) else s
  }

  function SegmentPath(contentID: string, segIndex: int, bitrateKbps: int): string {
    PREFIX + contentID + "/" + Itoa(segIndex) + "/" + Itoa(bitrateKbps)
  }

  function ParseSegmentPath(path: string): Result<(string, GoInt, GoInt), string> {
    if !(PREFIX <= path) then Err("not a segment path")
    else
      var parts := Split(path[|PREFIX|..]);
      if |parts| != 3 then Err("malformed segment path")
      else
        var idx := Atoi(parts[1]);
        if idx.Err? then Err("bad segment index")
        else
          var br := Atoi(parts[2]);
          if br.Err? then Err("bad bitrate") else Ok((parts[0], idx.value, br.value))
  }

  function SegmentID(contentID: string, segIdx: int, bitrateKbps: int): string {
    contentID + "/" + Itoa(bitrateKbps) + "/seg-" + Itoa(segIdx)
  }

  /** An identifier of the expected shape is rearranged into a path; any other is used verbatim. */
  function BuildSegmentURL(edgeURL: string, id: string): string {
    var parts := Split(id);
    var base := TrimRight(edgeURL);
    if |parts| == 3 && "seg-" <= parts[2] then
      base + PREFIX + parts[0] + "/" + parts[2][|"seg-"|..] + "/" + parts[1]
    else
      base + PREFIX + id
  }

  // ----- Split undoes joining -----

  lemma {:induction false} SplitJoin(a: string, b: string)
    ensures Split(a + "/" + b) == Split(a) + Split(b)
  {
    hide Split;
    var s := a + "/" + b;
    SplitHead(s);
    if a == [] {
      SplitEmpty();
      assert s[1..] == b;
    } else {
      SplitJoin(a[1..], b);
      SplitHead(a);
      assert s[0] == a[0] && s[1..] == a[1..] + "/" + b;
      PushHead(a[0], Split(a[1..]), Split(b));
    }
  }

  /** Prepending a character, or an empty part, touches only the parts of the first string. */
  lemma {:induction false} PushHead(c: char, x: seq<string>, y: seq<string>)
    requires x != []
    ensures [[]] + (x + y) == ([[]] + x) + y
    ensures [[c] + (x + y)[0]] + (x + y)[1..] == ([[c] + x[0]] + x[1..]) + y
  {
    assert (x + y)[1..] == x[1..] + y;
  }

  lemma SplitEmpty()
    ensures Split([]) == [[]]
  {
  }

  lemma SplitHead(s: string)
    requires s != []
    ensures var rest := Split(s[1..]);
            Split(s) == if s[0] == '/' then [[]] + rest else [[s[0]] + rest[0]] + rest[1..]
  {
  }

  lemma {:induction false} SplitWhole(s: string)
    ensures NoSlash(s) ==> Split(s) == [s]
    ensures !NoSlash(s) ==> |Split(s)| > 1
  {
    if s != [] {
      SplitWhole(s[1..]);
      assert s == [s[0]] + s[1..];
      if NoSlash(s) {
        assert NoSlash(s[1..]);
        assert Split(s[1..])[1..] == [];
      } else if s[0] != '/' {
        assert !NoSlash(s[1..]);
      }
    }
  }

  lemma {:induction false} ItoaShape(i: int)
    ensures NoSlash(Itoa(i)) && Itoa(i) != [] && Itoa(i)[0] != 's'
  {
    assert forall k :: 0 <= k < |Itoa(i)| ==> Itoa(i)[k] == '-' || IsDigit(Itoa(i)[k]);
  }

  /** Three parts joined by slashes, the last two without any. */
  lemma {:induction false} SplitThree(c: string, x: string, y: string)
    requires NoSlash(x) && NoSlash(y)
    ensures Split(c + "/" + x + "/" + y) == Split(c) + [x, y]
  {
    SplitJoin(c + "/" + x, y);
    SplitJoin(c, x);
    SplitWhole(x);
    SplitWhole(y);
  }

  /** Only slashes at the end go, and all of them. */
  lemma {:induction false} TrimRightExact(s: string) returns (n: nat)
    ensures n <= |s| && TrimRight(s) == s[..n]
    ensures (forall k :: n <= k < |s| ==> s[k] == '/') && (n > 0 ==> s[n - 1] != '/')
  {
    if s != [] && s[|s| - 1] == '/' {
      n := TrimRightExact(s[..|s| - 1]);
      assert forall k :: 0 <= k < |s| - 1 ==> s[..|s| - 1][k] == s[k];
    } else {
      n := |s|;
    }
  }

  // ----- round trips -----

  /** A path parses back to what it was made from exactly when the content id has no slash. */
  lemma {:induction false} PathRoundTrip(c: string, i: GoInt, b: GoInt)
    ensures ParseSegmentPath(SegmentPath(c, i, b)) == Ok((c, i, b)) <==> NoSlash(c)
    ensures !NoSlash(c) ==> ParseSegmentPath(SegmentPath(c, i, b)) == Err("malformed segment path")
  {
    hide Split;
    hide Itoa;
    hide Atoi;
    ItoaShape(i);
    ItoaShape(b);
    var rest := c + "/" + Itoa(i) + "/" + Itoa(b);
    assert SegmentPath(c, i, b) == PREFIX + rest;
    assert SegmentPath(c, i, b)[|PREFIX|..] == rest;
    SplitThree(c, Itoa(i), Itoa(b));
    SplitWhole(c);
    AtoiOfItoa(i);
    AtoiOfItoa(b);
  }

  lemma {:induction false} SplitID(c: string, i: int, b: int)
    ensures Split(SegmentID(c, i, b)) == Split(c) + [Itoa(b), "seg-" + Itoa(i)]
  {
    ItoaShape(i);
    ItoaShape(b);
    assert NoSlash("seg-" + Itoa(i));
    assert SegmentID(c, i, b) == c + "/" + Itoa(b) + "/" + ("seg-" + Itoa(i));
    SplitThree(c, Itoa(b), "seg-" + Itoa(i));
  }

  /** Distinct segments have distinct identifiers, slashes in content ids included: cache keys never collide. */
  lemma {:induction false} IDsInjective(c: string, i: int, b: int, c': string, i': int, b': int)
    requires SegmentID(c, i, b) == SegmentID(c', i', b')
    ensures c == c' && i == i' && b == b'
  {
    hide Split;
    hide Itoa;
    SplitID(c, i, b);
    SplitID(c', i', b');
    var p, p' := Split(c) + [Itoa(b), "seg-" + Itoa(i)], Split(c') + [Itoa(b'), "seg-" + Itoa(i')];
    assert p[|p| - 2] == Itoa(b) && p'[|p'| - 2] == Itoa(b');
    assert p[|p| - 1] == "seg-" + Itoa(i) && p'[|p'| - 1] == "seg-" + Itoa(i');
    assert ("seg-" + Itoa(i))[4..] == Itoa(i) && ("seg-" + Itoa(i'))[4..] == Itoa(i');
    ItoaInjective(i, i');
    ItoaInjective(b, b');
    var tail := "/" + Itoa(b) + "/seg-" + Itoa(i);
    assert SegmentID(c, i, b) == c + tail && SegmentID(c', i', b') == c' + tail;
    assert |c| == |c'|;
    assert c == (c + tail)[..|c|] && c' == (c' + tail)[..|c'|];
  }

  /** The emulated transports ask for the server's path exactly when the content id has no slash. */
  lemma {:induction false} URLIsPath(edgeURL: string, c: string, i: GoInt, b: GoInt)
    ensures BuildSegmentURL(edgeURL, SegmentID(c, i, b)) == TrimRight(edgeURL) + SegmentPath(c, i, b) <==> NoSlash(c)
  {
    hide Split;
    hide Itoa;
    hide TrimRight;
    var base, id, seg := TrimRight(edgeURL), SegmentID(c, i, b), "seg-" + Itoa(i);
    SplitID(c, i, b);
    SplitWhole(c);
    var url, path := BuildSegmentURL(edgeURL, id), base + SegmentPath(c, i, b);
    if NoSlash(c) {
      assert "seg-" <= seg && seg[|"seg-"|..] == Itoa(i);
      assert url == base + PREFIX + c + "/" + Itoa(i) + "/" + Itoa(b);
      assert path == url;
    } else {
      assert url == base + PREFIX + id;
      NotTheID(base + PREFIX, c, i, b);
    }
  }

  lemma {:induction false} NotTheID(front: string, c: string, i: int, b: int)
    ensures front + SegmentID(c, i, b) != front + (c + "/" + Itoa(i) + "/" + Itoa(b))
    ensures front + (c + "/" + Itoa(i) + "/" + Itoa(b)) == front + c + "/" + Itoa(i) + "/" + Itoa(b)
  {
    hide Split;
    hide Itoa;
    ItoaShape(i);
    ItoaShape(b);
    var id, rest := SegmentID(c, i, b), c + "/" + Itoa(i) + "/" + Itoa(b);
    SplitID(c, i, b);
    SplitThree(c, Itoa(i), Itoa(b));
    var p, q := Split(c) + [Itoa(b), "seg-" + Itoa(i)], Split(c) + [Itoa(i), Itoa(b)];
    assert p[|p| - 1][0] == 's' && q[|p| - 1] == Itoa(b);
    assert id == (front + id)[|front|..] && rest == (front + rest)[|front|..];
  }
}
