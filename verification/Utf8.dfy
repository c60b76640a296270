// Strings of bytes that are valid UTF-8 (RFC 3629).
module Utf8 {
  predicate InRange(c: char, lo: int, hi: int) { lo <= c as int <= hi }

  predicate Continues(s: string, i: nat) { i < |s| && InRange(s[i], 0x80, 0xBF) }

  // utf8.ValidString on a string of bytes.
  predicate ValidUtf8(s: string) {
    if s == "" then true
    else if InRange(s[0], 0, 0x7F) then ValidUtf8(s[1..])
    else if InRange(s[0], 0xC2, 0xDF) then Continues(s, 1) && ValidUtf8(s[2..])
    else if InRange(s[0], 0xE0, 0xEF) then
      && Continues(s, 1) && Continues(s, 2)
      && (s[0] as int == 0xE0 ==> InRange(s[1], 0xA0, 0xBF))
      && (s[0] as int == 0xED ==> InRange(s[1], 0x80, 0x9F))
      && ValidUtf8(s[3..])
    else if InRange(s[0], 0xF0, 0xF4) then
      && Continues(s, 1) && Continues(s, 2) && Continues(s, 3)
      && (s[0] as int == 0xF0 ==> InRange(s[1], 0x90, 0xBF))
      && (s[0] as int == 0xF4 ==> InRange(s[1], 0x80, 0x8F))
      && ValidUtf8(s[4..])
    else false
  }

  // A code point that is not a surrogate.
  predicate Scalar(c: int) { 0 <= c < 0xD800 || 0xE000 <= c <= 0x10FFFF }

  function Byte(n: nat): char
    requires n < 256
  {
    n as char
  }

  // The bytes of a code point.
  function Encode(c: int): string
    requires Scalar(c)
  {
    if c < 0x80 then [Byte(c)]
    else if c < 0x800 then [Byte(0xC0 + c / 64), Byte(0x80 + c % 64)]
    else if c < 0x10000 then [Byte(0xE0 + c / 4096), Byte(0x80 + c / 64 % 64), Byte(0x80 + c % 64)]
    else [Byte(0xF0 + c / 262144), Byte(0x80 + c / 4096 % 64), Byte(0x80 + c / 64 % 64), Byte(0x80 + c % 64)]
  }

  function EncodeAll(points: seq<int>): string
    requires forall i | 0 <= i < |points| :: Scalar(points[i])
  {
    if points == [] then "" else Encode(points[0]) + EncodeAll(points[1..])
  }

  lemma {:induction false} EncodedIsValid(c: int, rest: string)
    requires Scalar(c)
    ensures ValidUtf8(Encode(c) + rest) <==> ValidUtf8(rest)
  {
    var s, n := Encode(c) + rest, |Encode(c)|;
    assert s[n..] == rest;
    if c < 0x80 {
    } else if c < 0x800 {
    } else if c < 0x10000 {
      assert c / 64 % 64 == c / 64 - 64 * (c / 4096);
    } else {
      assert c / 4096 % 64 == c / 4096 - 64 * (c / 262144);
    }
  }

  // The first code point of valid bytes, by their number.
  lemma {:induction false} FirstPoint(s: string) returns (c: int)
    requires ValidUtf8(s) && s != ""
    ensures Scalar(c) && |Encode(c)| <= |s| && s == Encode(c) + s[|Encode(c)|..]
  {
    var a := s[0] as int;
    if a < 0x80 {
      c := a;
      assert s == [s[0]] + s[1..];
    } else if a < 0xE0 {
      c := (a - 0xC0) * 64 + (s[1] as int - 0x80);
      assert s == [s[0], s[1]] + s[2..];
    } else if a < 0xF0 {
      c := ThreeBytes(s);
    } else {
      c := FourBytes(s);
    }
  }

  lemma {:induction false} ThreeBytes(s: string) returns (c: int)
    requires |s| >= 3 && InRange(s[0], 0xE0, 0xEF) && Continues(s, 1) && Continues(s, 2)
    requires (s[0] as int == 0xE0 ==> InRange(s[1], 0xA0, 0xBF)) && (s[0] as int == 0xED ==> InRange(s[1], 0x80, 0x9F))
    ensures Scalar(c) && |Encode(c)| <= |s| && s == Encode(c) + s[|Encode(c)|..]
  {
    var x, y, z := s[0] as int - 0xE0, s[1] as int - 0x80, s[2] as int - 0x80;
    c := x * 4096 + y * 64 + z;
    assert c / 64 == x * 64 + y && c % 64 == z && c / 4096 == x && c / 64 % 64 == y;
    assert Encode(c) == [s[0], s[1], s[2]];
    assert s == [s[0], s[1], s[2]] + s[3..];
  }

  lemma {:induction false} FourBytes(s: string) returns (c: int)
    requires |s| >= 4 && InRange(s[0], 0xF0, 0xF4) && Continues(s, 1) && Continues(s, 2) && Continues(s, 3)
    requires (s[0] as int == 0xF0 ==> InRange(s[1], 0x90, 0xBF)) && (s[0] as int == 0xF4 ==> InRange(s[1], 0x80, 0x8F))
    ensures Scalar(c) && |Encode(c)| <= |s| && s == Encode(c) + s[|Encode(c)|..]
  {
    var w, x, y, z := s[0] as int - 0xF0, s[1] as int - 0x80, s[2] as int - 0x80, s[3] as int - 0x80;
    c := FourDigits(w, x, y, z);
    assert Encode(c) == [s[0], s[1], s[2], s[3]];
    assert s == [s[0], s[1], s[2], s[3]] + s[4..];
  }

  lemma FourDigits(w: int, x: int, y: int, z: int) returns (c: int)
    requires 0 <= w && 0 <= x < 64 && 0 <= y < 64 && 0 <= z < 64
    ensures c == w * 262144 + x * 4096 + y * 64 + z
    ensures c / 262144 == w && c / 4096 % 64 == x && c / 64 % 64 == y && c % 64 == z
  {
    c := w * 262144 + x * 4096 + y * 64 + z;
    assert c / 64 == w * 4096 + x * 64 + y && c % 64 == z;
    assert c / 4096 == w * 64 + x;
  }

  predicate AllScalar(points: seq<int>) { forall i | 0 <= i < |points| :: Scalar(points[i]) }

  // The check accepts exactly the encodings of code points.
  lemma {:induction false} ValidExactly(s: string)
    ensures ValidUtf8(s) <==> exists points :: AllScalar(points) && s == EncodeAll(points)
  {
    hide Encode, ValidUtf8, Scalar;
    if ValidUtf8(s) { var points := Decoded(s); }
    if points :| AllScalar(points) && s == EncodeAll(points) { EncodedAreValid(points); }
  }

  lemma {:induction false} EncodedAreValid(points: seq<int>)
    requires AllScalar(points)
    ensures ValidUtf8(EncodeAll(points))
  {
    hide Encode, Scalar;
    if points != [] {
      EncodedAreValid(points[1..]);
      EncodedIsValid(points[0], EncodeAll(points[1..]));
    }
  }

  lemma {:induction false} Decoded(s: string) returns (points: seq<int>)
    requires ValidUtf8(s)
    ensures AllScalar(points) && s == EncodeAll(points)
    decreases |s|
  {
    hide Encode, ValidUtf8, Scalar;
    points := [];
    if s != "" {
      var c := FirstPoint(s);
      var rest := s[|Encode(c)|..];
      EncodedIsValid(c, rest);
      EncodedLength(c);
      var more := Decoded(rest);
      points := [c] + more;
    }
  }

  lemma EncodedLength(c: int)
    requires Scalar(c)
    ensures |Encode(c)| > 0
  {
  }
}
