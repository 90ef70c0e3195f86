/** UTF-8 encoding of text (strings of Unicode scalar values), and why it loses nothing. */
module Utf8 {
  import opened Integers

  function EncodeChar(c: char): (r: seq<byte>)
    ensures 1 <= |r| <= 4
  {
    var n := c as int;
    if n < 0x80 then [n]
    else if n < 0x800 then [0xC0 + n / 64, 0x80 + n % 64]
    else if n < 0x1_0000 then [0xE0 + n / 64 / 64, 0x80 + n / 64 % 64, 0x80 + n % 64]
    else [0xF0 + n / 64 / 64 / 64, 0x80 + n / 64 / 64 % 64, 0x80 + n / 64 % 64, 0x80 + n % 64]
  }

  function Encode(s: string): seq<byte> {
    if s == [] then [] else EncodeChar(s[0]) + Encode(s[1..])
  }

  /** The code point spelled by the bytes at the front of a text. */
  ghost function DecodeHead(b: seq<byte>): int
    requires |b| >= 1
  {
    var b0: int := b[0];
    if b0 < 0x80 || |b| < 2 then b0
    else if b0 < 0xE0 || |b| < 3 then Join(b0 - 0xC0, b[1])
    else if b0 < 0xF0 || |b| < 4 then Join(Join(b0 - 0xE0, b[1]), b[2])
    else Join(Join(Join(b0 - 0xF0, b[1]), b[2]), b[3])
  }

  /** Appends the six payload bits of a continuation byte. */
  ghost function Join(high: int, b: int): int {
    high * 64 + (b - 0x80)
  }

  lemma HeadDecodes(c: char, rest: seq<byte>)
    ensures DecodeHead(EncodeChar(c) + rest) == c as int
  {
    var e, n := EncodeChar(c), c as int;
    var b := e + rest;
    assert forall i :: 0 <= i < |e| ==> b[i] == e[i];
    if n >= 0x80 {
      assert Join(n / 64, 0x80 + n % 64) == n;
      if n >= 0x800 {
        assert Join(n / 64 / 64, 0x80 + n / 64 % 64) == n / 64;
        if n >= 0x1_0000 {
          assert Join(n / 64 / 64 / 64, 0x80 + n / 64 / 64 % 64) == n / 64 / 64;
        }
      }
    }
  }

  /**
   The well-formed sequences: as many bytes as the code point needs, a lead byte of the class of that
   length, continuation bytes from 0x80 to 0xBF, and together they spell the code point.
   */
  lemma EncodeShape(c: char)
    ensures var e, n := EncodeChar(c), c as int;
            && |e| == (if n < 0x80 then 1 else if n < 0x800 then 2 else if n < 0x1_0000 then 3 else 4)
            && (|e| == 2 ==> 0xC2 <= e[0] <= 0xDF) && (|e| == 3 ==> 0xE0 <= e[0] <= 0xEF)
            && (|e| == 4 ==> 0xF0 <= e[0] <= 0xF4)
            && (forall i :: 1 <= i < |e| ==> 0x80 <= e[i] <= 0xBF)
            && DecodeHead(e) == n
  {
    HeadDecodes(c, []);
    assert EncodeChar(c) + [] == EncodeChar(c);
  }

  lemma {:induction false} EncodeInjective(s: string, t: string)
    requires Encode(s) == Encode(t)
    ensures s == t
  {
    if s == [] || t == [] {
      assert s == t;
    } else {
      HeadDecodes(s[0], Encode(s[1..]));
      HeadDecodes(t[0], Encode(t[1..]));
      assert s[0] == t[0];
      assert Encode(s[1..]) == Encode(s)[|EncodeChar(s[0])|..];
      assert Encode(t[1..]) == Encode(t)[|EncodeChar(t[0])|..];
      EncodeInjective(s[1..], t[1..]);
      assert s == [s[0]] + s[1..] && t == [t[0]] + t[1..];
    }
  }
}
