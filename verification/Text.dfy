/**
 * Text order. A JavaScript string is a sequence of UTF-16 code units; the seam promises the
 * order of its UTF-8 bytes, and `compareUtf8` (`listing.ts`) decides it without encoding.
 */
module Text {
  import opened Bytes

  type Unit = u: nat | u < 0x1_0000
  type Str = seq<Unit>

  predicate IsHigh(u: Unit) { 0xD800 <= u < 0xDC00 }
  predicate IsLow(u: Unit) { 0xDC00 <= u < 0xE000 }
  predicate IsSurrogate(u: Unit) { 0xD800 <= u < 0xE000 }

  // ------------------------------------------------------------- what the source does

  function CodePointRank(u: Unit): nat { if IsSurrogate(u) then u + 0x1_0000 else u }

  function CompareUnits(a: Str, b: Str): int {
    if a == [] || b == [] then |a| - |b|
    else if a[0] != b[0] then CodePointRank(a[0]) - CodePointRank(b[0])
    else CompareUnits(a[1..], b[1..])
  }

  method CompareUtf8(a: Str, b: Str) returns (c: int)
    ensures c == CompareUnits(a, b)
  {
    var length := if |a| < |b| then |a| else |b|;
    for i := 0 to length
      invariant CompareUnits(a, b) == CompareUnits(a[i..], b[i..])
    {
      if a[i] != b[i] { return CodePointRank(a[i]) - CodePointRank(b[i]); }
      assert a[i..][1..] == a[i + 1..] && b[i..][1..] == b[i + 1..];
    }
    c := |a| - |b|;
  }

  // -------------------------------------------------------------------- what it means

  predicate StartsPair(s: Str) { |s| > 1 && IsHigh(s[0]) && IsLow(s[1]) }

  function PairValue(h: Unit, l: Unit): nat
    requires IsHigh(h) && IsLow(l)
  {
    0x1_0000 + (h - 0xD800) * 0x400 + (l - 0xDC00)
  }

  /** The code points of a string, a lone surrogate read as U+FFFD as `TextEncoder` reads it. */
  function CodePoints(s: Str): seq<nat> {
    if s == [] then []
    else if StartsPair(s) then [PairValue(s[0], s[1])] + CodePoints(s[2..])
    else if IsSurrogate(s[0]) then [0xFFFD] + CodePoints(s[1..])
    else [s[0]] + CodePoints(s[1..])
  }

  /** No surrogate stands alone. */
  predicate WellFormed(s: Str) {
    s == [] || (if StartsPair(s) then WellFormed(s[2..]) else !IsSurrogate(s[0]) && WellFormed(s[1..]))
  }

  /** The UTF-8 encoding of one code point (RFC 3629, section 3). */
  function EncodePoint(c: nat): seq<nat>
    requires c < 0x11_0000
  {
    if c < 0x80 then [c]
    else if c < 0x800 then [0xC0 + c / 0x40, 0x80 + c % 0x40]
    else if c < 0x1_0000 then [0xE0 + c / 0x1000, 0x80 + c / 0x40 % 0x40, 0x80 + c % 0x40]
    else [0xF0 + c / 0x4_0000, 0x80 + c / 0x1000 % 0x40, 0x80 + c / 0x40 % 0x40, 0x80 + c % 0x40]
  }

  predicate AllPoints(cs: seq<nat>) { forall i :: 0 <= i < |cs| ==> cs[i] < 0x11_0000 }

  function EncodePoints(cs: seq<nat>): seq<nat>
    requires AllPoints(cs)
  {
    if cs == [] then [] else EncodePoint(cs[0]) + EncodePoints(cs[1..])
  }

  lemma {:induction false} PointsInRange(s: Str)
    ensures AllPoints(CodePoints(s))
  {
    if s != [] { if StartsPair(s) { PointsInRange(s[2..]); } else { PointsInRange(s[1..]); } }
  }

  function Utf8(s: Str): seq<nat> {
    PointsInRange(s);
    EncodePoints(CodePoints(s))
  }

  // --------------------------------------------------- code units order as code points

  lemma {:induction false} UnitsOrderAsPoints(a: Str, b: Str)
    requires WellFormed(a) && WellFormed(b)
    ensures Sign(CompareUnits(a, b)) == Sign(Compare(CodePoints(a), CodePoints(b)))
    decreases |a|
  {
    if a != [] && b != [] {
      var restA := if StartsPair(a) then a[2..] else a[1..];
      var restB := if StartsPair(b) then b[2..] else b[1..];
      assert CodePoints(a)[1..] == CodePoints(restA) && CodePoints(b)[1..] == CodePoints(restB);
      if StartsPair(a) && StartsPair(b) {
        assert a[1..][1..] == a[2..] && b[1..][1..] == b[2..];
        if a[0] == b[0] && a[1] == b[1] { UnitsOrderAsPoints(restA, restB); }
      } else if !StartsPair(a) && !StartsPair(b) && a[0] == b[0] {
        UnitsOrderAsPoints(restA, restB);
      }
    }
  }

  // -------------------------------------------------- UTF-8 bytes order as code points

  /** The first base-64 digits that differ order two numbers. */
  lemma DigitsOrder(x: nat, y: nat)
    requires x / 0x40 == y / 0x40
    ensures x < y <==> x % 0x40 < y % 0x40
  {
  }

  /** Two code points' encodings differ first at some byte, and that byte orders as they do. */
  lemma PointsDifferAt(x: nat, y: nat) returns (i: nat)
    requires x < y < 0x11_0000
    ensures i < |EncodePoint(x)| && i < |EncodePoint(y)|
    ensures EncodePoint(x)[..i] == EncodePoint(y)[..i] && EncodePoint(x)[i] < EncodePoint(y)[i]
  {
    if |EncodePoint(x)| != |EncodePoint(y)| || y < 0x80 {
      i := 0;
    } else if y < 0x800 {
      i := if x / 0x40 < y / 0x40 then 0 else 1;
    } else if y < 0x1_0000 {
      i := ThreeBytesDifferAt(x, y);
    } else {
      i := FourBytesDifferAt(x, y);
    }
  }

  lemma ThreeBytesDifferAt(x: nat, y: nat) returns (i: nat)
    requires 0x800 <= x < y < 0x1_0000
    ensures i < 3 && EncodePoint(x)[..i] == EncodePoint(y)[..i] && EncodePoint(x)[i] < EncodePoint(y)[i]
  {
    assert x / 0x1000 == x / 0x40 / 0x40 && y / 0x1000 == y / 0x40 / 0x40;
    if x / 0x1000 < y / 0x1000 {
      i := 0;
    } else if x / 0x40 < y / 0x40 {
      DigitsOrder(x / 0x40, y / 0x40);
      i := 1;
    } else {
      DigitsOrder(x, y);
      i := 2;
    }
  }

  lemma FourBytesDifferAt(x: nat, y: nat) returns (i: nat)
    requires 0x1_0000 <= x < y < 0x11_0000
    ensures i < 4 && EncodePoint(x)[..i] == EncodePoint(y)[..i] && EncodePoint(x)[i] < EncodePoint(y)[i]
  {
    assert x / 0x1000 == x / 0x40 / 0x40 && y / 0x1000 == y / 0x40 / 0x40;
    assert x / 0x4_0000 == x / 0x1000 / 0x40 && y / 0x4_0000 == y / 0x1000 / 0x40;
    if x / 0x4_0000 < y / 0x4_0000 {
      i := 0;
    } else if x / 0x1000 < y / 0x1000 {
      DigitsOrder(x / 0x1000, y / 0x1000);
      i := 1;
    } else if x / 0x40 < y / 0x40 {
      DigitsOrder(x / 0x40, y / 0x40);
      i := 2;
    } else {
      DigitsOrder(x, y);
      i := 3;
    }
  }

  lemma EncodingsDiffer(x: nat, y: nat, c: seq<nat>, d: seq<nat>)
    requires x < 0x11_0000 && y < 0x11_0000 && x != y
    ensures Sign(Compare(EncodePoint(x) + c, EncodePoint(y) + d)) == Sign(x - y)
  {
    hide EncodePoint, Compare;
    var i := PointsDifferAt(if x < y then x else y, if x < y then y else x);
    var a, b := EncodePoint(x) + c, EncodePoint(y) + d;
    assert a[..i] == EncodePoint(x)[..i] && b[..i] == EncodePoint(y)[..i];
    FirstDifference(a, b, i);
  }

  lemma {:induction false} BytesOrderAsPoints(cs: seq<nat>, ds: seq<nat>)
    requires AllPoints(cs) && AllPoints(ds)
    ensures Sign(Compare(EncodePoints(cs), EncodePoints(ds))) == Sign(Compare(cs, ds))
  {
    if cs != [] && ds != [] {
      hide EncodePoint;
      var x, y := cs[0], ds[0];
      if x == y {
        SharedPrefix(EncodePoint(x), EncodePoints(cs[1..]), EncodePoints(ds[1..]));
        BytesOrderAsPoints(cs[1..], ds[1..]);
      } else {
        EncodingsDiffer(x, y, EncodePoints(cs[1..]), EncodePoints(ds[1..]));
      }
    }
  }

  /** The string with U+FFFD for each lone surrogate: what `TextEncoder` writes of it, read back. */
  function Repaired(s: Str): Str {
    if s == [] then []
    else if StartsPair(s) then s[..2] + Repaired(s[2..])
    else if IsSurrogate(s[0]) then [0xFFFD] + Repaired(s[1..])
    else [s[0]] + Repaired(s[1..])
  }

  /** It is well-formed, has the code points of `s`, and is `s` exactly if `s` was well-formed. */
  lemma {:induction false} RepairedReads(s: Str)
    ensures WellFormed(Repaired(s)) && CodePoints(Repaired(s)) == CodePoints(s)
    ensures Repaired(s) == s <==> WellFormed(s)
  {
    if s != [] {
      var n := if StartsPair(s) then 2 else 1;
      var r := Repaired(s);
      RepairedReads(s[n..]);
      assert r[n..] == Repaired(s[n..]) && s == s[..n] + s[n..];
      assert r == s <==> r[..n] == s[..n] && r[n..] == s[n..];
    }
  }

  lemma {:induction false} ZeroOnlyOnEquals(a: Str, b: Str)
    ensures CompareUnits(a, b) == 0 <==> a == b
  {
    if a != [] && b != [] {
      ZeroOnlyOnEquals(a[1..], b[1..]);
      assert a == [a[0]] + a[1..] && b == [b[0]] + b[1..];
    }
  }

  lemma Utf8Orders(a: Str, b: Str)
    ensures Sign(Compare(Utf8(a), Utf8(b))) == Sign(Compare(CodePoints(a), CodePoints(b)))
  {
    PointsInRange(a);
    PointsInRange(b);
    BytesOrderAsPoints(CodePoints(a), CodePoints(b));
  }

  /** Two strings have the same UTF-8 bytes exactly when they are repaired to the same string. */
  lemma SameBytesExactly(a: Str, b: Str)
    ensures Compare(Utf8(a), Utf8(b)) == 0 <==> Repaired(a) == Repaired(b)
  {
    Utf8Orders(a, b);
    RepairedReads(a);
    RepairedReads(b);
    UnitsOrderAsPoints(Repaired(a), Repaired(b));
    ZeroOnlyOnEquals(Repaired(a), Repaired(b));
  }

  // ------------------------------------------------------------------------- results

  /** The two orders agree on `a` and `b`. */
  predicate Agree(a: Str, b: Str) { Sign(CompareUnits(a, b)) == Sign(Compare(Utf8(a), Utf8(b))) }

  /** On well-formed text `compareUtf8` is the order of the UTF-8 bytes. */
  lemma CompareUtf8IsByteOrder(a: Str, b: Str)
    requires WellFormed(a) && WellFormed(b)
    ensures Agree(a, b)
  {
    UnitsOrderAsPoints(a, b);
    Utf8Orders(a, b);
  }

  /** A well-formed string that `a`, holding a lone surrogate, compares with in the wrong order. */
  lemma {:induction false} LoneSurrogateMisorders(a: Str) returns (b: Str)
    requires !WellFormed(a)
    ensures WellFormed(b) && CompareUnits(a, b) > 0 && Compare(CodePoints(a), CodePoints(b)) < 0
  {
    if StartsPair(a) {
      var rest := LoneSurrogateMisorders(a[2..]);
      b := a[..2] + rest;
      assert b[2..] == rest && b[1..] == [a[1]] + rest && b[1..][1..] == rest && a[1..][1..] == a[2..];
    } else if IsSurrogate(a[0]) {
      b := [0xFFFE];
    } else {
      var rest := LoneSurrogateMisorders(a[1..]);
      b := [a[0]] + rest;
      assert b[1..] == rest;
      assert !StartsPair(b);
    }
  }

  /** Exactly the well-formed strings order by their UTF-8 bytes against all well-formed text. */
  lemma WellFormedExactly(a: Str)
    ensures WellFormed(a) <==> forall b :: WellFormed(b) ==> Agree(a, b)
  {
    if WellFormed(a) {
      forall b | WellFormed(b) ensures Agree(a, b) { CompareUtf8IsByteOrder(a, b); }
    } else {
      var b := LoneSurrogateMisorders(a);
      Utf8Orders(a, b);
      assert !Agree(a, b);
    }
  }
}
