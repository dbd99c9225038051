/**
 * `bytes.decode(errors='ignore')` with the default UTF-8 codec: every well-formed UTF-8
 * sequence becomes its character, and every byte that does not start one is dropped. CPython
 * drops the longest prefix of a well-formed sequence at once; the bytes after its first one
 * are continuation bytes, which never start a sequence, so dropping one byte at a time drops
 * the same bytes.
 */
module Utf8 {
  newtype byte = b: int | 0 <= b < 0x100

  predicate IsContinuation(b: byte)
  {
    0x80 <= b < 0xC0
  }

  /** Whether `v` is a Unicode scalar value: a code point that is not a surrogate. */
  predicate IsScalar(v: int)
  {
    0 <= v < 0xD800 || 0xE000 <= v < 0x11_0000
  }

  /**
   * The length of the well-formed sequence `s` starts with (table 3-7 of the Unicode
   * standard), or 0 when `s` does not start with one.
   */
  function SequenceLength(s: seq<byte>): (n: nat)
    ensures n <= |s| && n <= 4
    ensures n > 0 ==> forall j :: 0 < j < n ==> IsContinuation(s[j])
  {
    if |s| == 0 then 0
    else if s[0] < 0x80 then 1
    else if 0xC2 <= s[0] <= 0xDF then
      if |s| >= 2 && IsContinuation(s[1]) then 2 else 0
    else if 0xE0 <= s[0] <= 0xEF then
      var lo: byte := if s[0] == 0xE0 then 0xA0 else 0x80;
      var hi: byte := if s[0] == 0xED then 0x9F else 0xBF;
      if |s| >= 3 && lo <= s[1] <= hi && IsContinuation(s[2]) then 3 else 0
    else if 0xF0 <= s[0] <= 0xF4 then
      var lo: byte := if s[0] == 0xF0 then 0x90 else 0x80;
      var hi: byte := if s[0] == 0xF4 then 0x8F else 0xBF;
      if |s| >= 4 && lo <= s[1] <= hi && IsContinuation(s[2]) && IsContinuation(s[3]) then 4 else 0
    else 0
  }

  /** The code point a well-formed sequence of length `n` at the start of `s` encodes. */
  function CodePoint(s: seq<byte>, n: nat): (v: int)
    requires 0 < n == SequenceLength(s)
    ensures IsScalar(v)
    ensures n == 1 <==> v < 0x80
    ensures n == 2 <==> 0x80 <= v < 0x800
    ensures n == 3 <==> 0x800 <= v < 0x1_0000
    ensures n == 4 <==> 0x1_0000 <= v
  {
    var c1 := if n > 1 then s[1] as int - 0x80 else 0;
    var c2 := if n > 2 then s[2] as int - 0x80 else 0;
    var c3 := if n > 3 then s[3] as int - 0x80 else 0;
    if n == 1 then s[0] as int
    else if n == 2 then (s[0] as int - 0xC0) * 0x40 + c1
    else if n == 3 then (s[0] as int - 0xE0) * 0x1000 + c1 * 0x40 + c2
    else (s[0] as int - 0xF0) * 0x4_0000 + c1 * 0x1000 + c2 * 0x40 + c3
  }

  /** `s.decode(errors='ignore')`. */
  function DecodeIgnoring(s: seq<byte>): (r: string)
    ensures |r| <= |s|
    decreases |s|
  {
    if s == [] then ""
    else
      var n := SequenceLength(s);
      if n == 0 then DecodeIgnoring(s[1..])
      else [CodePoint(s, n) as char] + DecodeIgnoring(s[n..])
  }

  /** The UTF-8 encoding of one character. */
  function EncodeChar(c: char): (s: seq<byte>)
    ensures 1 <= |s| <= 4
  {
    var v := c as int;
    if v < 0x80 then [v as byte]
    else if v < 0x800 then [(0xC0 + v / 0x40) as byte, (0x80 + v % 0x40) as byte]
    else if v < 0x1_0000 then
      [(0xE0 + v / 0x40 / 0x40) as byte, (0x80 + v / 0x40 % 0x40) as byte, (0x80 + v % 0x40) as byte]
    else
      [(0xF0 + v / 0x40 / 0x40 / 0x40) as byte, (0x80 + v / 0x40 / 0x40 % 0x40) as byte,
       (0x80 + v / 0x40 % 0x40) as byte, (0x80 + v % 0x40) as byte]
  }

  /** The UTF-8 encoding of a text, `text.encode()`. */
  function Encode(text: string): seq<byte>
  {
    if text == [] then [] else EncodeChar(text[0]) + Encode(text[1..])
  }

  /** Each character's encoding is a well-formed sequence that decodes back to it. */
  lemma EncodeCharIsWellFormed(c: char, rest: seq<byte>)
    ensures SequenceLength(EncodeChar(c) + rest) == |EncodeChar(c)|
    ensures CodePoint(EncodeChar(c) + rest, |EncodeChar(c)|) == c as int
  {
    var v := c as int;
    if v < 0x80 {
      assert (EncodeChar(c) + rest)[0] == v as byte;
    } else if v < 0x800 {
      TwoByteEncoding(c, rest);
    } else if v < 0x1_0000 {
      ThreeByteEncoding(c, rest);
    } else {
      FourByteEncoding(c, rest);
    }
  }

  lemma TwoByteEncoding(c: char, rest: seq<byte>)
    requires 0x80 <= c as int < 0x800
    ensures SequenceLength(EncodeChar(c) + rest) == 2
    ensures CodePoint(EncodeChar(c) + rest, 2) == c as int
  {
    var v := c as int;
    var b0, b1 := v / 0x40, v % 0x40;
    assert v == b0 * 0x40 + b1;
    var s := EncodeChar(c) + rest;
    assert s[0] == (0xC0 + b0) as byte && s[1] == (0x80 + b1) as byte;
  }

  lemma ThreeByteEncoding(c: char, rest: seq<byte>)
    requires 0x800 <= c as int < 0x1_0000
    ensures SequenceLength(EncodeChar(c) + rest) == 3
    ensures CodePoint(EncodeChar(c) + rest, 3) == c as int
  {
    var v := c as int;
    var q := v / 0x40;
    var b0, b1, b2 := q / 0x40, q % 0x40, v % 0x40;
    assert v == q * 0x40 + b2;
    assert q == b0 * 0x40 + b1;
    var s := EncodeChar(c) + rest;
    assert s[0] == (0xE0 + b0) as byte && s[1] == (0x80 + b1) as byte && s[2] == (0x80 + b2) as byte;
  }

  lemma FourByteEncoding(c: char, rest: seq<byte>)
    requires 0x1_0000 <= c as int
    ensures SequenceLength(EncodeChar(c) + rest) == 4
    ensures CodePoint(EncodeChar(c) + rest, 4) == c as int
  {
    var v := c as int;
    var q := v / 0x40;
    var r := q / 0x40;
    var b0, b1, b2, b3 := r / 0x40, r % 0x40, q % 0x40, v % 0x40;
    assert v == q * 0x40 + b3;
    assert q == r * 0x40 + b2;
    assert r == b0 * 0x40 + b1;
    var s := EncodeChar(c) + rest;
    assert s[0] == (0xF0 + b0) as byte && s[1] == (0x80 + b1) as byte;
    assert s[2] == (0x80 + b2) as byte && s[3] == (0x80 + b3) as byte;
  }

  /** Decoding undoes encoding: `text.encode().decode(errors='ignore') == text`. */
  lemma {:induction false} DecodeEncoded(text: string)
    ensures DecodeIgnoring(Encode(text)) == text
  {
    if text != [] {
      var e, rest := EncodeChar(text[0]), Encode(text[1..]);
      EncodeCharIsWellFormed(text[0], rest);
      assert (e + rest)[|e|..] == rest;
      DecodeEncoded(text[1..]);
    }
  }

  /** A byte that starts no well-formed sequence contributes nothing: `b'\xff'` decodes to "". */
  lemma {:induction false} InvalidByteIsDropped(b: byte, rest: seq<byte>)
    requires b == 0xC0 || b == 0xC1 || b >= 0xF5 || IsContinuation(b)
    ensures DecodeIgnoring([b] + rest) == DecodeIgnoring(rest)
  {
    assert ([b] + rest)[1..] == rest;
  }
}
