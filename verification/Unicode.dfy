/** Lossy UTF-16 decoding (RFC 2781, section 2.2) and UTF-8 encoding (RFC 3629, section 3). */
module Unicode {
  import opened Wrappers
  import opened Sequences

  type Unit = x: int | 0 <= x < 0x10000 witness 0
  type Byte = x: int | 0 <= x < 0x100 witness 0
  type Scalar = x: int | 0 <= x < 0xD800 || 0xE000 <= x < 0x110000 witness 0

  const REPLACEMENT: Scalar := 0xFFFD

  predicate IsHigh(u: Unit) { 0xD800 <= u < 0xDC00 }

  predicate IsLow(u: Unit) { 0xDC00 <= u < 0xE000 }

  function Combine(high: Unit, low: Unit): (c: Scalar)
    requires IsHigh(high) && IsLow(low)
    ensures c >= 0x10000
  {
    0x10000 + (high - 0xD800) * 0x400 + (low - 0xDC00)
  }

  /** The first character of a nonempty buffer and the units it takes; an unpaired surrogate is replaced. */
  function Head(u: seq<Unit>): (r: (Scalar, nat))
    requires u != []
    ensures r.1 == if |u| >= 2 && IsHigh(u[0]) && IsLow(u[1]) then 2 else 1
    ensures r.1 == 2 <==> r.0 >= 0x10000
  {
    if |u| >= 2 && IsHigh(u[0]) && IsLow(u[1]) then (Combine(u[0], u[1]), 2)
    else if IsHigh(u[0]) || IsLow(u[0]) then (REPLACEMENT, 1)
    else (u[0] as Scalar, 1)
  }

  /** `String::from_utf16_lossy`. */
  function Decode(u: seq<Unit>): (s: seq<Scalar>)
    ensures u == [] <==> s == []
  {
    if u == [] then [] else [Head(u).0] + Decode(u[Head(u).1..])
  }

  function EncodeScalar(c: Scalar): (b: seq<Byte>)
    ensures |b| == if c < 0x80 then 1 else if c < 0x800 then 2 else if c < 0x10000 then 3 else 4
  {
    if c < 0x80 then [c]
    else if c < 0x800 then [0xC0 + c / 0x40, 0x80 + c % 0x40]
    else if c < 0x10000 then [0xE0 + c / 0x1000, 0x80 + c / 0x40 % 0x40, 0x80 + c % 0x40]
    else [0xF0 + c / 0x40000, 0x80 + c / 0x1000 % 0x40, 0x80 + c / 0x40 % 0x40, 0x80 + c % 0x40]
  }

  function FlatMap<A, B>(f: A -> seq<B>, s: seq<A>): seq<B> {
    if s == [] then [] else f(s[0]) + FlatMap(f, s[1..])
  }

  function Encode(s: seq<Scalar>): seq<Byte> {
    FlatMap(EncodeScalar, s)
  }

  /** The UTF-8 text the host reports for a UTF-16 buffer. */
  function Text(u: seq<Unit>): seq<Byte> {
    Encode(Decode(u))
  }

  /** The closure `utf16_to_utf8_offset`: the UTF-8 length of the decoded prefix. */
  function Offset(u: seq<Unit>, i: nat): nat {
    |Text(u[..if i < |u| then i else |u|])|
  }

  /** Index `i` lies between the two halves of a surrogate pair. */
  predicate Splits(u: seq<Unit>, i: int) {
    0 < i < |u| && IsHigh(u[i - 1]) && IsLow(u[i])
  }

  predicate IsContinuation(b: Byte) { 0x80 <= b < 0xC0 }

  /** Position `k` starts a character of `text` or ends it. */
  predicate IsBoundary(text: seq<Byte>, k: nat) {
    k == |text| || (k < |text| && !IsContinuation(text[k]))
  }

  // ----- the two codecs are the standard ones -----

  function Utf16Units(c: Scalar): (u: seq<Unit>)
    ensures |u| == if c < 0x10000 then 1 else 2
  {
    if c < 0x10000 then [c] else [0xD800 + (c - 0x10000) / 0x400, 0xDC00 + (c - 0x10000) % 0x400]
  }

  function EncodeUtf16(s: seq<Scalar>): seq<Unit> {
    FlatMap(Utf16Units, s)
  }

  lemma HeadInvertsUnits(c: Scalar, rest: seq<Unit>)
    ensures Head(Utf16Units(c) + rest) == (c, |Utf16Units(c)|)
  {
    var u := Utf16Units(c) + rest;
    assert u[0] == Utf16Units(c)[0];
    if c >= 0x10000 {
      assert u[1] == Utf16Units(c)[1];
    }
  }

  lemma {:induction false} DecodeInvertsUtf16(s: seq<Scalar>)
    ensures Decode(EncodeUtf16(s)) == s
  {
    if s != [] {
      DecodeInvertsUtf16(s[1..]);
      HeadInvertsUnits(s[0], EncodeUtf16(s[1..]));
      assert EncodeUtf16(s)[|Utf16Units(s[0])|..] == EncodeUtf16(s[1..]);
    }
  }

  /** Every surrogate is half of a pair. */
  ghost predicate Paired(u: seq<Unit>) {
    u != [] ==> (Head(u).1 == 1 ==> !IsHigh(u[0]) && !IsLow(u[0])) && Paired(u[Head(u).1..])
  }

  lemma UnitsOfHead(u: seq<Unit>)
    requires u != []
    ensures Utf16Units(Head(u).0) == u[..Head(u).1] <==> (Head(u).1 == 1 ==> !IsHigh(u[0]) && !IsLow(u[0]))
  {
    if Head(u).1 == 2 {
      var c, high, low := Combine(u[0], u[1]) as int, u[0] as int, u[1] as int;
      assert c - 0x10000 == (high - 0xD800) * 0x400 + (low - 0xDC00);
      assert Utf16Units(Head(u).0) == [u[0], u[1]] == u[..2];
    } else {
      assert u[..1] == [u[0]];
      assert Utf16Units(Head(u).0) == [Head(u).0];
    }
  }

  /** The decoding loses information exactly when a surrogate is unpaired. */
  lemma {:induction false} LosslessIffPaired(u: seq<Unit>)
    ensures EncodeUtf16(Decode(u)) == u <==> Paired(u)
  {
    if u != [] {
      var n := Head(u).1;
      LosslessIffPaired(u[n..]);
      UnitsOfHead(u);
      var first, rest := Utf16Units(Head(u).0), EncodeUtf16(Decode(u[n..]));
      assert Decode(u)[1..] == Decode(u[n..]);
      assert EncodeUtf16(Decode(u)) == first + rest;
      assert u == u[..n] + u[n..];
      assert |first| == n;
      assert (first + rest)[..n] == first && (first + rest)[n..] == rest;
    }
  }

  /** An unpaired surrogate becomes the replacement character; any other unit is its own character. */
  lemma WhatOneUnitDecodesTo(u: Unit, rest: seq<Unit>)
    requires !(0xD800 <= u < 0xDC00 && rest != [] && 0xDC00 <= rest[0] < 0xE000)
    ensures Decode([u] + rest) == [if 0xD800 <= u < 0xE000 then 0xFFFD else u] + Decode(rest)
  {
    assert ([u] + rest)[1..] == rest;
  }

  /** Reading one UTF-8 character back: its length from the lead byte, then six bits per further byte. */
  function Utf8Length(lead: Byte): nat {
    if lead < 0x80 then 1 else if lead < 0xC0 then 0 else if lead < 0xE0 then 2 else if lead < 0xF0 then 3 else 4
  }

  function ReadCharacter(b: seq<Byte>): (c: int)
    requires b != [] && 1 <= Utf8Length(b[0]) <= |b|
  {
    match Utf8Length(b[0])
    case 1 => b[0]
    case 2 => (b[0] as int - 0xC0) * 0x40 + (b[1] as int - 0x80)
    case 3 => (b[0] as int - 0xE0) * 0x1000 + (b[1] as int - 0x80) * 0x40 + (b[2] as int - 0x80)
    case _ =>
      (b[0] as int - 0xF0) * 0x40000 + (b[1] as int - 0x80) * 0x1000 + (b[2] as int - 0x80) * 0x40
      + (b[3] as int - 0x80)
  }

  function DecodeUtf8(b: seq<Byte>): Option<seq<int>>
    decreases |b|
  {
    if b == [] then Some([])
    else if !(1 <= Utf8Length(b[0]) <= |b|) then None
    else
      match DecodeUtf8(b[Utf8Length(b[0])..])
      case None => None
      case Some(rest) => Some([ReadCharacter(b)] + rest)
  }

  lemma CharacterRoundTrip(c: Scalar, rest: seq<Byte>)
    ensures var b := EncodeScalar(c) + rest;
            Utf8Length(b[0]) == |EncodeScalar(c)| && ReadCharacter(b) == c
  {
    var e := EncodeScalar(c);
    var b := e + rest;
    assert forall k :: 0 <= k < |e| ==> b[k] == e[k];
    if c >= 0x10000 {
      assert c as int / 0x40 / 0x40 == c as int / 0x1000 && c as int / 0x1000 / 0x40 == c as int / 0x40000;
    } else if c >= 0x800 {
      assert c as int / 0x40 / 0x40 == c as int / 0x1000;
    }
  }

  lemma {:induction false} Utf8RoundTrip(s: seq<Scalar>)
    ensures DecodeUtf8(Encode(s)) == Some(s)
  {
    if s != [] {
      Utf8RoundTrip(s[1..]);
      CharacterRoundTrip(s[0], Encode(s[1..]));
      assert Encode(s)[|EncodeScalar(s[0])|..] == Encode(s[1..]);
      assert [s[0] as int] + s[1..] == s;
    }
  }

  // ----- offsets -----

  lemma {:induction false} FlatMapConcat<A, B>(f: A -> seq<B>, s: seq<A>, t: seq<A>)
    ensures FlatMap(f, s + t) == FlatMap(f, s) + FlatMap(f, t)
  {
    if s == [] {
      assert s + t == t;
    } else {
      FlatMapConcat(f, s[1..], t);
      assert (s + t)[1..] == s[1..] + t;
      Regroup(f(s[0]), FlatMap(f, s[1..]), FlatMap(f, t));
    }
  }

  lemma {:induction false} DecodeStep(u: seq<Unit>)
    requires u != []
    ensures Decode(u) == [Head(u).0] + Decode(u[Head(u).1..])
  {
  }

  lemma {:induction false} DecodeConcatStep(a: seq<Unit>, b: seq<Unit>, ab: seq<Unit>, n: nat)
    requires a != [] && ab != [] && Head(ab) == Head(a) && n == Head(a).1
    requires Decode(ab[n..]) == Decode(a[n..]) + Decode(b)
    ensures Decode(ab) == Decode(a) + Decode(b)
  {
    DecodeStep(a);
    DecodeStep(ab);
    Regroup([Head(a).0], Decode(a[n..]), Decode(b));
  }

  /** No surrogate pair is cut in two. */
  predicate CleanCut(a: seq<Unit>, b: seq<Unit>) {
    a == [] || b == [] || !IsHigh(a[|a| - 1]) || !IsLow(b[0])
  }

  lemma CleanCutBehind(a: seq<Unit>, b: seq<Unit>, n: nat)
    requires CleanCut(a, b) && n <= |a|
    ensures CleanCut(a[n..], b) && (a + b)[n..] == a[n..] + b
  {
  }

  /** Decoding is a homomorphism except across the middle of a pair. */
  lemma {:induction false} DecodeConcat(a: seq<Unit>, b: seq<Unit>)
    requires CleanCut(a, b)
    ensures Decode(a + b) == Decode(a) + Decode(b)
    decreases |a|
  {
    if a == [] {
      assert a + b == b && Decode(a) == [];
    } else {
      var n := Head(a).1;
      SameHead(a, b);
      CleanCutBehind(a, b, n);
      DecodeConcat(a[n..], b);
      DecodeConcatStep(a, b, a + b, n);
    }
  }

  lemma SameHead(a: seq<Unit>, b: seq<Unit>)
    requires a != [] && (b == [] || !IsHigh(a[|a| - 1]) || !IsLow(b[0]))
    ensures Head(a + b) == Head(a)
  {
    assert (a + b)[0] == a[0];
    if |a| == 1 && b != [] {
      assert (a + b)[1] == b[0];
    } else if |a| >= 2 {
      assert (a + b)[1] == a[1];
    }
  }

  lemma TextAtCut(u: seq<Unit>, i: nat)
    requires i <= |u| && !Splits(u, i)
    ensures Text(u) == Text(u[..i]) + Text(u[i..])
  {
    assert u == u[..i] + u[i..];
    DecodeConcat(u[..i], u[i..]);
    FlatMapConcat(EncodeScalar, Decode(u[..i]), Decode(u[i..]));
  }

  /** What one more unit adds: 1 to 3 bytes, 3 for the first half of a pair and 1 for the second. */
  lemma OffsetStep(u: seq<Unit>, i: nat)
    requires i < |u|
    ensures Offset(u, i + 1) - Offset(u, i) ==
            if Splits(u, i) then 1
            else if u[i] < 0x80 then 1 else if u[i] < 0x800 then 2 else 3
  {
    assert u[..i + 1][..i] == u[..i];
    if Splits(u, i) {
      var j := i - 1;
      assert u[..i][..j] == u[..j] && u[..i + 1][..j] == u[..j];
      TextAtCut(u[..i], j);
      TextAtCut(u[..i + 1], j);
      assert u[..i][j..] == [u[j]] && u[..i + 1][j..] == [u[j], u[i]];
      OneCharacter([u[j]]);
      OneCharacter([u[j], u[i]]);
    } else {
      TextAtCut(u[..i + 1], i);
      assert u[..i + 1][i..] == [u[i]];
      OneCharacter([u[i]]);
    }
  }

  lemma OneCharacter(u: seq<Unit>)
    requires |u| == 1 || (|u| == 2 && IsHigh(u[0]) && IsLow(u[1]))
    ensures |Decode(u)| == 1 && Text(u) == EncodeScalar(Decode(u)[0])
    ensures |Text(u)| == if |u| == 2 then 4 else if u[0] < 0x80 then 1 else if u[0] < 0x800 then 2 else 3
  {
    var c := Head(u).0;
    assert u[Head(u).1..] == [];
    assert Decode(u) == [c];
    assert [c][1..] == [];
    assert Text(u) == EncodeScalar(c) + FlatMap(EncodeScalar, []) == EncodeScalar(c);
  }

  /** The offset map is strictly increasing up to the text's length, for every unit sequence. */
  lemma {:induction false} OffsetIncreases(u: seq<Unit>, i: nat, j: nat)
    requires i < j <= |u|
    ensures Offset(u, i) < Offset(u, j)
    decreases j
  {
    OffsetStep(u, j - 1);
    if i < j - 1 {
      OffsetIncreases(u, i, j - 1);
    }
  }

  lemma OffsetInRange(u: seq<Unit>, i: nat)
    ensures Offset(u, i) <= |Text(u)|
    ensures Offset(u, |u|) == |Text(u)| && Offset(u, 0) == 0
    ensures i >= |u| ==> Offset(u, i) == |Text(u)|
  {
    assert u[..|u|] == u && u[..0] == [];
    if i < |u| {
      OffsetIncreases(u, i, |u|);
    }
  }

  lemma FirstByte(s: seq<Scalar>)
    ensures s == [] <==> Encode(s) == []
    ensures s != [] ==> !IsContinuation(Encode(s)[0])
  {
  }

  /** An offset is a character boundary of the text exactly when its index does not split a surrogate pair. */
  lemma OffsetIsBoundaryIff(u: seq<Unit>, i: nat)
    requires i <= |u|
    ensures IsBoundary(Text(u), Offset(u, i)) <==> !Splits(u, i)
    ensures !Splits(u, i) ==> Text(u[..i]) <= Text(u)
    ensures Splits(u, i) ==> Offset(u, i) + 1 == Offset(u, i + 1)
  {
    if Splits(u, i) {
      OffsetStep(u, i);
      var j := i - 1;
      TextAtCut(u, i + 1);
      var front := u[..i + 1];
      TextAtCut(front, j);
      assert front[j..] == [u[j], u[i]] && front[..j] == u[..j];
      OneCharacter([u[j], u[i]]);
      OffsetStep(u, j);
      var base := Offset(u, j);
      assert Offset(u, i) == base + 3;
      var pair := Text([u[j], u[i]]);
      assert Text(u)[base + 3] == pair[3];
      assert IsContinuation(pair[3]);
    } else {
      TextAtCut(u, i);
      FirstByte(Decode(u[i..]));
      assert Text(u)[Offset(u, i)..] == Text(u[i..]);
    }
  }
}
