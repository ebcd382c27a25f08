/**
 * UTF-8 as Foundation's `String(data:encoding: .utf8)` applies it to a TXT
 * value: a byte sequence decodes to a string only when it is well-formed
 * UTF-8 (RFC 3629, section 4); otherwise there is no string.
 */
module Utf8 {
  import opened Wrappers

  type byte = x: int | 0 <= x < 256

  /** The UTF-8 encoding of one Unicode scalar value (RFC 3629, section 3). */
  function EncodeChar(c: char): (r: seq<byte>)
    ensures 1 <= |r| <= 4
  {
    var n := c as int;
    if n < 0x80 then [n]
    else if n < 0x800 then [0xC0 + n / 64, 0x80 + n % 64]
    else if n < 0x1_0000 then [0xE0 + n / 4096, 0x80 + n / 64 % 64, 0x80 + n % 64]
    else [0xF0 + n / 262144, 0x80 + n / 4096 % 64, 0x80 + n / 64 % 64, 0x80 + n % 64]
  }

  /** The UTF-8 encoding of a string, character by character. */
  function Encode(s: string): (r: seq<byte>)
    ensures |s| <= |r| <= 4 * |s|
  {
    if s == [] then [] else EncodeChar(s[0]) + Encode(s[1..])
  }

  /**
   * Decodes the character at the head of a non-empty byte sequence, with the
   * number of bytes it takes; None when the head is not a well-formed
   * sequence (a stray continuation byte, an overlong form, a surrogate, a
   * value above U+10FFFF or a truncated sequence).
   */
  function DecodeFirst(b: seq<byte>): (r: Option<(char, nat)>)
    requires |b| > 0
    ensures r.Some? ==> 1 <= r.value.1 <= |b| && EncodeChar(r.value.0) == b[..r.value.1]
  {
    if b[0] < 0x80 then Some((b[0] as char, 1))
    else if 0xC2 <= b[0] < 0xE0 then DecodeTwoBytes(b)
    else if 0xE0 <= b[0] < 0xF0 then DecodeThreeBytes(b)
    else if 0xF0 <= b[0] < 0xF5 then DecodeFourBytes(b)
    else None
  }

  /** A lead byte C2..DF and one continuation byte. */
  function DecodeTwoBytes(b: seq<byte>): (r: Option<(char, nat)>)
    requires |b| > 0 && 0xC2 <= b[0] < 0xE0
    ensures r.Some? ==> r.value.1 == 2 <= |b| && EncodeChar(r.value.0) == b[..2]
  {
    if |b| >= 2 && 0x80 <= b[1] < 0xC0 then
      var n := (b[0] as int - 0xC0) * 64 + (b[1] as int - 0x80);
      Digits2(b[0] as int - 0xC0, b[1] as int - 0x80);
      Some((n as char, 2))
    else None
  }

  /** A lead byte E0..EF and two continuation bytes, excluding overlong forms and surrogates. */
  function DecodeThreeBytes(b: seq<byte>): (r: Option<(char, nat)>)
    requires |b| > 0 && 0xE0 <= b[0] < 0xF0
    ensures r.Some? ==> r.value.1 == 3 <= |b| && EncodeChar(r.value.0) == b[..3]
  {
    var lo := if b[0] == 0xE0 then 0xA0 else 0x80;
    var hi := if b[0] == 0xED then 0xA0 else 0xC0;
    if |b| >= 3 && lo <= b[1] < hi && 0x80 <= b[2] < 0xC0 then
      var x2, x1, x0 := b[0] as int - 0xE0, b[1] as int - 0x80, b[2] as int - 0x80;
      var n := x2 * 4096 + x1 * 64 + x0;
      Digits3(x2, x1, x0);
      Some((n as char, 3))
    else None
  }

  /** A lead byte F0..F4 and three continuation bytes, excluding overlong forms and values above U+10FFFF. */
  function DecodeFourBytes(b: seq<byte>): (r: Option<(char, nat)>)
    requires |b| > 0 && 0xF0 <= b[0] < 0xF5
    ensures r.Some? ==> r.value.1 == 4 <= |b| && EncodeChar(r.value.0) == b[..4]
  {
    var lo := if b[0] == 0xF0 then 0x90 else 0x80;
    var hi := if b[0] == 0xF4 then 0x90 else 0xC0;
    if |b| >= 4 && lo <= b[1] < hi && 0x80 <= b[2] < 0xC0 && 0x80 <= b[3] < 0xC0 then
      var n := (b[0] as int - 0xF0) * 262144 + (b[1] as int - 0x80) * 4096 + (b[2] as int - 0x80) * 64 + (b[3] as int - 0x80);
      FourBytes(b, lo, hi);
      Some((n as char, 4))
    else None
  }

  /** The value a well-formed four-byte sequence carries lies above U+FFFF, and encodes back to it. */
  lemma FourBytes(b: seq<byte>, lo: int, hi: int)
    requires |b| >= 4 && 0xF0 <= b[0] < 0xF5
    requires lo == (if b[0] == 0xF0 then 0x90 else 0x80) && hi == (if b[0] == 0xF4 then 0x90 else 0xC0)
    requires lo <= b[1] < hi && 0x80 <= b[2] < 0xC0 && 0x80 <= b[3] < 0xC0
    ensures var n := (b[0] as int - 0xF0) * 262144 + (b[1] as int - 0x80) * 4096 + (b[2] as int - 0x80) * 64 + (b[3] as int - 0x80);
      0x1_0000 <= n < 0x11_0000 && EncodeChar(n as char) == b[..4]
  {
    var x3, x2, x1, x0 := b[0] as int - 0xF0, b[1] as int - 0x80, b[2] as int - 0x80, b[3] as int - 0x80;
    var n := x3 * 262144 + x2 * 4096 + x1 * 64 + x0;
    Digits4(x3, x2, x1, x0);
    assert 0x1_0000 <= n < 0x11_0000;
    assert EncodeChar(n as char) == [0xF0 + x3, 0x80 + x2, 0x80 + x1, 0x80 + x0];
    assert b[..4] == [b[0], b[1], b[2], b[3]];
  }

  /** Base-64 digits of a two-digit number. */
  lemma Digits2(x1: int, x0: int)
    requires 0 <= x0 < 64
    ensures (x1 * 64 + x0) / 64 == x1 && (x1 * 64 + x0) % 64 == x0
  {
  }

  /** Base-64 digits of a three-digit number. */
  lemma Digits3(x2: int, x1: int, x0: int)
    requires 0 <= x2 && 0 <= x1 < 64 && 0 <= x0 < 64
    ensures var n := x2 * 4096 + x1 * 64 + x0;
      n / 4096 == x2 && n / 64 % 64 == x1 && n % 64 == x0
  {
    Digits2(x2 * 64 + x1, x0);
    Digits2(x2, x1);
  }

  /** Base-64 digits of a four-digit number. */
  lemma Digits4(x3: int, x2: int, x1: int, x0: int)
    requires 0 <= x3 && 0 <= x2 < 64 && 0 <= x1 < 64 && 0 <= x0 < 64
    ensures var n := x3 * 262144 + x2 * 4096 + x1 * 64 + x0;
      n / 262144 == x3 && n / 4096 % 64 == x2 && n / 64 % 64 == x1 && n % 64 == x0
  {
    Digits2(x3 * 4096 + x2 * 64 + x1, x0);
    Digits3(x3, x2, x1);
    var n := x3 * 262144 + x2 * 4096 + x1 * 64 + x0;
    assert n / 64 == x3 * 4096 + x2 * 64 + x1;
    assert n / 4096 == n / 64 / 64;
  }

  /**
   * Decodes a whole byte sequence; None unless every byte belongs to a
   * well-formed sequence. What it returns is the one string whose encoding
   * is the input.
   */
  function Decode(b: seq<byte>): (r: Option<string>)
    ensures r.Some? ==> Encode(r.value) == b
    decreases |b|
  {
    if b == [] then Some([])
    else match DecodeFirst(b)
      case None => None
      case Some((c, k)) =>
        match Decode(b[k..])
        case None => None
        case Some(s) =>
          EncodeCons(c, s, b, k);
          Some([c] + s)
  }

  /** Encoding a string whose head encodes to a prefix of b and whose tail encodes to the rest. */
  lemma EncodeCons(c: char, s: string, b: seq<byte>, k: nat)
    requires k <= |b| && EncodeChar(c) == b[..k] && Encode(s) == b[k..]
    ensures Encode([c] + s) == b
  {
    assert ([c] + s)[0] == c && ([c] + s)[1..] == s;
    assert b == b[..k] + b[k..];
  }

  /** Decoding undoes the encoding of one character, whatever follows it. */
  lemma DecodeFirstEncodeChar(c: char, rest: seq<byte>)
    ensures DecodeFirst(EncodeChar(c) + rest) == Some((c, |EncodeChar(c)|))
  {
    var n := c as int;
    if n < 0x80 {
    } else if n < 0x800 {
      DecodeTwo(c, rest);
    } else if n < 0x1_0000 {
      DecodeThree(c, rest);
    } else {
      DecodeFour(c, rest);
    }
  }

  /** The two-byte case of DecodeFirstEncodeChar. */
  lemma DecodeTwo(c: char, rest: seq<byte>)
    requires 0x80 <= c as int < 0x800
    ensures DecodeFirst(EncodeChar(c) + rest) == Some((c, 2))
  {
  }

  /** The three-byte case of DecodeFirstEncodeChar. */
  lemma DecodeThree(c: char, rest: seq<byte>)
    requires 0x800 <= c as int < 0x1_0000
    ensures DecodeFirst(EncodeChar(c) + rest) == Some((c, 3))
  {
    var n := c as int;
    assert n / 64 == n / 4096 * 64 + n / 64 % 64;
  }

  /** The four-byte case of DecodeFirstEncodeChar. */
  lemma DecodeFour(c: char, rest: seq<byte>)
    requires 0x1_0000 <= c as int
    ensures DecodeFirst(EncodeChar(c) + rest) == Some((c, 4))
  {
    var n := c as int;
    Split4(n);
    var x3, x2, x1, x0 := n / 262144, n / 4096 % 64, n / 64 % 64, n % 64;
    var b := EncodeChar(c) + rest;
    assert b[0] == 0xF0 + x3 && b[1] == 0x80 + x2 && b[2] == 0x80 + x1 && b[3] == 0x80 + x0;
  }

  /** A number as four base-64 digits. */
  lemma Split4(n: nat)
    ensures n == n / 262144 * 262144 + n / 4096 % 64 * 4096 + n / 64 % 64 * 64 + n % 64
  {
    var q1, r0 := n / 64, n % 64;
    var q2, r1 := q1 / 64, q1 % 64;
    var q3, r2 := q2 / 64, q2 % 64;
    assert n == q3 * 262144 + r2 * 4096 + r1 * 64 + r0;
    Digits4(q3, r2, r1, r0);
  }

  /** Every string survives an encode/decode round trip. */
  lemma {:induction false} DecodeEncode(s: string)
    ensures Decode(Encode(s)) == Some(s)
  {
    if s != [] {
      var b := Encode(s);
      DecodeFirstEncodeChar(s[0], Encode(s[1..]));
      var k := |EncodeChar(s[0])|;
      assert b[k..] == Encode(s[1..]);
      DecodeEncode(s[1..]);
      assert [s[0]] + s[1..] == s;
    }
  }
}
