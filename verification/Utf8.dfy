/** UTF-8, with undecodable bytes replaced the way Python's decoder replaces them. */
module Utf8 {

  type byte = x: int | 0 <= x < 256

  const REPLACEMENT := '\U{FFFD}'

  function EncodeChar(c: char): seq<byte> {
    var n := c as int;
    if n < 0x80 then [n]
    else if n < 0x800 then [0xC0 + n / 64, 0x80 + n % 64]
    else if n < 0x1_0000 then [0xE0 + n / 4096, 0x80 + n / 64 % 64, 0x80 + n % 64]
    else [0xF0 + n / 262_144, 0x80 + n / 4096 % 64, 0x80 + n / 64 % 64, 0x80 + n % 64]
  }

  function Encode(s: string): seq<byte> {
    if s == "" then [] else EncodeChar(s[0]) + Encode(s[1..])
  }

  predicate Continues(b: seq<byte>, i: nat) {
    i < |b| && 0x80 <= b[i] < 0xC0
  }

  /** The second byte rules out overlong forms, surrogates and numbers past the last code point. */
  predicate SecondFits(b: seq<byte>) {
    && Continues(b, 1)
    && (b[0] == 0xE0 ==> b[1] >= 0xA0) && (b[0] == 0xED ==> b[1] < 0xA0)
    && (b[0] == 0xF0 ==> b[1] >= 0x90) && (b[0] == 0xF4 ==> b[1] < 0x90)
  }

  /** What a byte carries besides its tag. */
  function Bits(b: byte, tag: int): int {
    b as int - tag
  }

  /** The first character of a non-empty byte string, and how many bytes it takes. */
  function DecodeFirst(b: seq<byte>): (r: (char, nat))
    requires b != []
    ensures 0 < r.1 <= |b|
  {
    var lead := b[0];
    if lead < 0x80 then (lead as char, 1)
    else if !(0xC2 <= lead < 0xF5) || !SecondFits(b) then (REPLACEMENT, 1)
    else if lead < 0xE0 then ((64 * Bits(lead, 0xC0) + Bits(b[1], 0x80)) as char, 2)
    else if !Continues(b, 2) then (REPLACEMENT, 2)
    else if lead < 0xF0 then ((4096 * Bits(lead, 0xE0) + 64 * Bits(b[1], 0x80) + Bits(b[2], 0x80)) as char, 3)
    else if !Continues(b, 3) then (REPLACEMENT, 3)
    else ((262_144 * Bits(lead, 0xF0) + 4096 * Bits(b[1], 0x80) + 64 * Bits(b[2], 0x80) + Bits(b[3], 0x80)) as char, 4)
  }

  function Decode(b: seq<byte>): string
    decreases |b|
  {
    if b == [] then "" else [DecodeFirst(b).0] + Decode(b[DecodeFirst(b).1..])
  }

  lemma DecodeOne(c: char, rest: seq<byte>)
    ensures DecodeFirst(EncodeChar(c) + rest) == (c, |EncodeChar(c)|)
  {
    var n := c as int;
    if n < 0x80 {
      assert (EncodeChar(c) + rest)[0] == n;
    } else if n < 0x800 {
      DecodeTwo(c, rest);
    } else if n < 0x1_0000 {
      DecodeThree(c, rest);
    } else {
      DecodeFour(c, rest);
    }
  }

  lemma DecodeTwo(c: char, rest: seq<byte>)
    requires 0x80 <= c as int < 0x800
    ensures DecodeFirst(EncodeChar(c) + rest) == (c, 2) && |EncodeChar(c)| == 2
  {
    var n := c as int;
    var b := EncodeChar(c) + rest;
    assert b[0] == 0xC0 + n / 64 && b[1] == 0x80 + n % 64;
  }

  lemma DecodeThree(c: char, rest: seq<byte>)
    requires 0x800 <= c as int < 0x1_0000
    ensures DecodeFirst(EncodeChar(c) + rest) == (c, 3) && |EncodeChar(c)| == 3
  {
    var n := c as int;
    var b := EncodeChar(c) + rest;
    assert b[0] == 0xE0 + n / 4096 && b[1] == 0x80 + n / 64 % 64 && b[2] == 0x80 + n % 64;
    assert n == 4096 * (n / 4096) + 64 * (n / 64 % 64) + n % 64;
  }

  lemma DecodeFour(c: char, rest: seq<byte>)
    requires 0x1_0000 <= c as int
    ensures DecodeFirst(EncodeChar(c) + rest) == (c, 4) && |EncodeChar(c)| == 4
  {
    var n := c as int;
    var b := EncodeChar(c) + rest;
    FourDigits(n);
    assert b[0] == 0xF0 + n / 262_144 && b[1] == 0x80 + n / 4096 % 64;
    assert b[2] == 0x80 + n / 64 % 64 && b[3] == 0x80 + n % 64;
    assert SecondFits(b) && Continues(b, 2) && Continues(b, 3);
  }

  lemma FourDigits(n: nat)
    requires 0x1_0000 <= n < 0x11_0000
    ensures n == 262_144 * (n / 262_144) + 4096 * (n / 4096 % 64) + 64 * (n / 64 % 64) + n % 64
    ensures n / 262_144 == 0 ==> n / 4096 % 64 >= 16
    ensures n / 262_144 == 4 ==> n / 4096 % 64 < 16
    ensures n / 262_144 <= 4
  {
    assert n / 4096 == n / 64 / 64 && n / 262_144 == n / 4096 / 64;
  }

  /** Decoding undoes encoding. */
  lemma {:induction false} DecodeUndoesEncode(s: string)
    ensures Decode(Encode(s)) == s
  {
    if s != "" {
      var first, rest := EncodeChar(s[0]), Encode(s[1..]);
      DecodeOne(s[0], rest);
      DecodeUndoesEncode(s[1..]);
      assert (first + rest)[|first|..] == rest;
      hide DecodeFirst, EncodeChar;
    }
  }
}
