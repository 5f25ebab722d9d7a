/** Well-formed UTF-8. */
module Utf8 {
  import opened Telemetry

  predicate Continuation(b: Byte) { 0x80 <= b < 0xc0 }

  /** Well-formed UTF-8, as section 4 of RFC 3629 defines it. */
  predicate ValidUtf8(s: seq<Byte>) {
    if s == [] then true
    else if s[0] < 0x80 then ValidUtf8(s[1..])
    else if 0xc2 <= s[0] < 0xe0 then |s| >= 2 && Continuation(s[1]) && ValidUtf8(s[2..])
    else if 0xe0 <= s[0] < 0xf0 then
      && |s| >= 3 && Continuation(s[1]) && Continuation(s[2])
      && (s[0] == 0xe0 ==> s[1] >= 0xa0) && (s[0] == 0xed ==> s[1] < 0xa0)
      && ValidUtf8(s[3..])
    else if 0xf0 <= s[0] < 0xf5 then
      && |s| >= 4 && Continuation(s[1]) && Continuation(s[2]) && Continuation(s[3])
      && (s[0] == 0xf0 ==> s[1] >= 0x90) && (s[0] == 0xf4 ==> s[1] < 0x90)
      && ValidUtf8(s[4..])
    else false
  }

  // ---- exactly the encodings of Unicode text ----

  /** A Unicode scalar value: any code point but the surrogates. */
  predicate Scalar(c: int) { 0 <= c < 0xd800 || 0xe000 <= c < 0x11_0000 }

  /** The table of section 3 of RFC 3629. */
  function EncodeRune(c: int): seq<Byte>
    requires Scalar(c)
  {
    if c < 0x80 then [c]
    else if c < 0x800 then [0xc0 + c / 0x40, 0x80 + c % 0x40]
    else if c < 0x1_0000 then [0xe0 + c / 0x1000, 0x80 + c / 0x40 % 0x40, 0x80 + c % 0x40]
    else [0xf0 + c / 0x4_0000, 0x80 + c / 0x1000 % 0x40, 0x80 + c / 0x40 % 0x40, 0x80 + c % 0x40]
  }

  function EncodeText(text: seq<int>): seq<Byte>
    requires forall i :: 0 <= i < |text| ==> Scalar(text[i])
  {
    if text == [] then [] else EncodeRune(text[0]) + EncodeText(text[1..])
  }

  lemma OneByte(a: Byte, rest: seq<Byte>)
    requires a < 0x80
    ensures ValidUtf8([a] + rest) <==> ValidUtf8(rest)
  {
    assert ([a] + rest)[1..] == rest;
  }

  lemma TwoBytes(a: Byte, b: Byte, rest: seq<Byte>)
    requires 0xc2 <= a < 0xe0 && 0x80 <= b < 0xc0
    ensures ValidUtf8([a, b] + rest) <==> ValidUtf8(rest)
  {
    assert ([a, b] + rest)[2..] == rest;
  }

  lemma ThreeBytes(a: Byte, b: Byte, c: Byte, rest: seq<Byte>)
    requires 0xe0 <= a < 0xf0 && 0x80 <= b < 0xc0 && 0x80 <= c < 0xc0
    requires (a == 0xe0 ==> b >= 0xa0) && (a == 0xed ==> b < 0xa0)
    ensures ValidUtf8([a, b, c] + rest) <==> ValidUtf8(rest)
  {
    assert ([a, b, c] + rest)[3..] == rest;
  }

  lemma FourBytes(a: Byte, b: Byte, c: Byte, d: Byte, rest: seq<Byte>)
    requires 0xf0 <= a < 0xf5 && 0x80 <= b < 0xc0 && 0x80 <= c < 0xc0 && 0x80 <= d < 0xc0
    requires (a == 0xf0 ==> b >= 0x90) && (a == 0xf4 ==> b < 0x90)
    ensures ValidUtf8([a, b, c, d] + rest) <==> ValidUtf8(rest)
  {
    assert ([a, b, c, d] + rest)[4..] == rest;
  }

  lemma RuneIsValid(c: int, rest: seq<Byte>)
    requires Scalar(c)
    ensures ValidUtf8(EncodeRune(c) + rest) <==> ValidUtf8(rest)
  {
    hide ValidUtf8;
    var r := EncodeRune(c);
    if c < 0x80 {
      OneByte(r[0], rest);
    } else if c < 0x800 {
      TwoBytes(r[0], r[1], rest);
    } else if c < 0x1_0000 {
      ThreeBytes(r[0], r[1], r[2], rest);
    } else {
      FourBytes(r[0], r[1], r[2], r[3], rest);
    }
  }

  lemma {:induction false} TextIsValid(text: seq<int>)
    requires forall i :: 0 <= i < |text| ==> Scalar(text[i])
    ensures ValidUtf8(EncodeText(text))
  {
    if text != [] {
      TextIsValid(text[1..]);
      RuneIsValid(text[0], EncodeText(text[1..]));
    }
  }

  lemma RuneOfTwo(a: int, b: int) returns (c: int)
    requires 0xc2 <= a < 0xe0 && 0x80 <= b < 0xc0
    ensures Scalar(c) && EncodeRune(c) == [a, b]
  {
    c := (a - 0xc0) * 0x40 + (b - 0x80);
  }

  lemma RuneOfThree(a: int, b: int, d: int) returns (c: int)
    requires 0xe0 <= a < 0xf0 && 0x80 <= b < 0xc0 && 0x80 <= d < 0xc0
    requires (a == 0xe0 ==> b >= 0xa0) && (a == 0xed ==> b < 0xa0)
    ensures Scalar(c) && EncodeRune(c) == [a, b, d]
  {
    c := (a - 0xe0) * 0x1000 + (b - 0x80) * 0x40 + (d - 0x80);
    assert c / 0x40 == (a - 0xe0) * 0x40 + (b - 0x80);
  }

  lemma RuneOfFour(a: int, b: int, d: int, e: int) returns (c: int)
    requires 0xf0 <= a < 0xf5 && 0x80 <= b < 0xc0 && 0x80 <= d < 0xc0 && 0x80 <= e < 0xc0
    requires (a == 0xf0 ==> b >= 0x90) && (a == 0xf4 ==> b < 0x90)
    ensures Scalar(c) && EncodeRune(c) == [a, b, d, e]
  {
    c := (a - 0xf0) * 0x4_0000 + (b - 0x80) * 0x1000 + (d - 0x80) * 0x40 + (e - 0x80);
    assert c / 0x40 == (a - 0xf0) * 0x1000 + (b - 0x80) * 0x40 + (d - 0x80);
    assert c / 0x1000 == (a - 0xf0) * 0x40 + (b - 0x80);
  }

  /** The scalar value at the front of valid bytes. */
  lemma FirstRune(s: seq<Byte>) returns (c: int, n: nat)
    requires ValidUtf8(s) && s != []
    ensures Scalar(c) && 0 < n <= |s| && EncodeRune(c) == s[..n] && ValidUtf8(s[n..])
  {
    hide EncodeRune, Scalar;
    if s[0] < 0x80 {
      c, n := s[0], 1;
      RuneOfOne(c);
    } else if s[0] < 0xe0 {
      n := 2;
      c := RuneOfTwo(s[0], s[1]);
    } else if s[0] < 0xf0 {
      n := 3;
      c := RuneOfThree(s[0], s[1], s[2]);
    } else {
      n := 4;
      c := RuneOfFour(s[0], s[1], s[2], s[3]);
    }
  }

  lemma RuneOfOne(c: int)
    requires 0 <= c < 0x80
    ensures Scalar(c) && EncodeRune(c) == [c]
  {
  }

  lemma {:induction false} ValidIsText(s: seq<Byte>) returns (text: seq<int>)
    requires ValidUtf8(s)
    ensures forall i :: 0 <= i < |text| ==> Scalar(text[i])
    ensures EncodeText(text) == s
  {
    if s == [] {
      text := [];
    } else {
      var c, n := FirstRune(s);
      var rest := ValidIsText(s[n..]);
      text := [c] + rest;
      assert text[1..] == rest && s == s[..n] + s[n..];
    }
  }

  /** Bytes are well-formed exactly if they are the encoding of some text. */
  lemma ValidIffText(s: seq<Byte>)
    ensures ValidUtf8(s) <==>
            exists text :: (forall i :: 0 <= i < |text| ==> Scalar(text[i])) && EncodeText(text) == s
  {
    if ValidUtf8(s) {
      var text := ValidIsText(s);
    }
    if text :| (forall i :: 0 <= i < |text| ==> Scalar(text[i])) && EncodeText(text) == s {
      TextIsValid(text);
    }
  }
}
