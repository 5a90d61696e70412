/**
 * Base64 with the standard alphabet and '=' padding (section 4 of RFC 4648),
 * as Python's base64.b64encode produces it and base64.b64decode reads it,
 * together with the UTF-8 encoding of text (section 3 of RFC 3629).
 */
module Base64 {
  import opened Wrappers

  type Byte = b: int | 0 <= b < 256

  /** A six-bit value, the index of one alphabet character. */
  type Sextet = n: int | 0 <= n < 64

  /** The character of the alphabet of section 4 of RFC 4648 for a six-bit value. */
  function SextetChar(n: Sextet): (c: char)
    ensures CharSextet(c) == Some(n)
  {
    if n < 26 then ('A' as int + n) as char
    else if n < 52 then ('a' as int + (n - 26)) as char
    else if n < 62 then ('0' as int + (n - 52)) as char
    else if n == 62 then '+'
    else '/'
  }

  /** The six-bit value of an alphabet character; None for any other character, padding included. */
  function CharSextet(c: char): Option<Sextet> {
    if 'A' <= c <= 'Z' then Some(c as int - 'A' as int)
    else if 'a' <= c <= 'z' then Some(c as int - 'a' as int + 26)
    else if '0' <= c <= '9' then Some(c as int - '0' as int + 52)
    else if c == '+' then Some(62)
    else if c == '/' then Some(63)
    else None
  }

  /** Only the characters of the alphabet have a value, and each is the character of its value. */
  lemma CharSextetInverse(c: char)
    ensures CharSextet(c).Some? ==> SextetChar(CharSextet(c).value) == c
  {
  }

  /** The characters an encoding is made of: the alphabet and the padding character. */
  predicate EncodingChar(c: char) {
    CharSextet(c).Some? || c == '='
  }

  /** The four characters of a full group of three bytes. */
  function EncodeGroup(b0: Byte, b1: Byte, b2: Byte): string {
    [SextetChar(b0 / 4), SextetChar((b0 % 4) * 16 + b1 / 16), SextetChar((b1 % 16) * 4 + b2 / 64), SextetChar(b2 % 64)]
  }

  /** base64.b64encode: each group of three bytes becomes four characters; a final group of one or two bytes is padded with '='. */
  function Encode(data: seq<Byte>): (s: string)
    ensures |s| == 4 * ((|data| + 2) / 3)
    ensures forall i :: 0 <= i < |s| ==> EncodingChar(s[i])
    decreases |data|
  {
    if |data| == 0 then ""
    else if |data| == 1 then [SextetChar(data[0] / 4), SextetChar((data[0] % 4) * 16), '=', '=']
    else if |data| == 2 then
      [SextetChar(data[0] / 4), SextetChar((data[0] % 4) * 16 + data[1] / 16), SextetChar((data[1] % 16) * 4), '=']
    else
      var rest := Encode(data[3..]);
      assert forall i :: 4 <= i < 4 + |rest| ==> (EncodeGroup(data[0], data[1], data[2]) + rest)[i] == rest[i - 4];
      EncodeGroup(data[0], data[1], data[2]) + rest
  }

  /**
   * The bytes of one group of four characters: three for four alphabet
   * characters, and, in the last group only, one for "xx==" or two for
   * "xxx=". Bits left over after the last byte are ignored, as Python does.
   */
  function DecodeGroup(q: string, last: bool): Option<seq<Byte>>
    requires |q| == 4
  {
    var s0, s1, s2, s3 := CharSextet(q[0]), CharSextet(q[1]), CharSextet(q[2]), CharSextet(q[3]);
    if s0.None? || s1.None? then None
    else if last && q[2] == '=' && q[3] == '=' then
      Some([s0.value * 4 + s1.value / 16])
    else if s2.None? then None
    else if last && q[3] == '=' then
      Some([s0.value * 4 + s1.value / 16, (s1.value % 16) * 16 + s2.value / 4])
    else if s3.None? then None
    else
      Some([s0.value * 4 + s1.value / 16, (s1.value % 16) * 16 + s2.value / 4, (s2.value % 4) * 64 + s3.value])
  }

  /**
   * base64.b64decode on well-formed input: groups of four characters, padding
   * only in the last group. Any other input is refused (Python raises
   * binascii.Error for a length that is not a multiple of four).
   */
  function Decode(s: string): (r: Option<seq<Byte>>)
    ensures r.Some? ==> |s| % 4 == 0
    decreases |s|
  {
    if |s| == 0 then Some([])
    else if |s| < 4 then None
    else
      match DecodeGroup(s[..4], |s| == 4)
      case None => None
      case Some(head) =>
        match Decode(s[4..])
        case None => None
        case Some(tail) => Some(head + tail)
  }

  lemma GroupRoundTrip(b0: Byte, b1: Byte, b2: Byte, last: bool)
    ensures DecodeGroup(EncodeGroup(b0, b1, b2), last) == Some([b0, b1, b2])
  {
    var s1, s2 := (b0 % 4) * 16 + b1 / 16, (b1 % 16) * 4 + b2 / 64;
    assert s1 / 16 == b0 % 4 && s1 % 16 == b1 / 16 && s2 / 4 == b1 % 16 && s2 % 4 == b2 / 64;
  }

  lemma OneByteGroup(b0: Byte)
    ensures DecodeGroup(Encode([b0]), true) == Some([b0])
  {
    var q := Encode([b0]);
    assert q[2] == '=' && q[3] == '=';
    assert CharSextet(q[0]) == Some(b0 / 4) && CharSextet(q[1]) == Some((b0 % 4) * 16);
    assert (b0 / 4) * 4 + ((b0 % 4) * 16) / 16 == b0;
  }

  lemma TwoByteGroup(b0: Byte, b1: Byte)
    ensures DecodeGroup(Encode([b0, b1]), true) == Some([b0, b1])
  {
    var q := Encode([b0, b1]);
    var s0, s1, s2 := b0 / 4, (b0 % 4) * 16 + b1 / 16, (b1 % 16) * 4;
    assert q[2] != '=' && q[3] == '=';
    assert CharSextet(q[0]) == Some(s0) && CharSextet(q[1]) == Some(s1) && CharSextet(q[2]) == Some(s2);
    assert s1 / 16 == b0 % 4 && s1 % 16 == b1 / 16 && s2 / 4 == b1 % 16;
  }

  /** A single group of four characters is decoded as the last group. */
  lemma DecodeLastGroup(s: string)
    requires |s| == 4
    ensures Decode(s) == DecodeGroup(s, true)
  {
    assert s[..4] == s && s[4..] == "";
    assert Decode(s[4..]) == Some([]);
    if DecodeGroup(s, true).Some? {
      var head := DecodeGroup(s, true).value;
      assert head + [] == head;
    }
  }

  /** The last group of an encoding, of one or two bytes, decodes back. */
  lemma DecodeEncodeShort(data: seq<Byte>)
    requires 1 <= |data| <= 2
    ensures Decode(Encode(data)) == Some(data)
  {
    if |data| == 1 {
      assert data == [data[0]];
      DecodeEncodeOne(data[0]);
    } else {
      assert data == [data[0], data[1]];
      DecodeEncodeTwo(data[0], data[1]);
    }
  }

  lemma DecodeEncodeOne(b0: Byte)
    ensures Decode(Encode([b0])) == Some([b0])
  {
    DecodeLastGroup(Encode([b0]));
    OneByteGroup(b0);
  }

  lemma DecodeEncodeTwo(b0: Byte, b1: Byte)
    ensures Decode(Encode([b0, b1])) == Some([b0, b1])
  {
    DecodeLastGroup(Encode([b0, b1]));
    TwoByteGroup(b0, b1);
  }

  /** Decoding an encoding gives back the bytes. */
  lemma {:induction false} DecodeEncode(data: seq<Byte>)
    ensures Decode(Encode(data)) == Some(data)
    decreases |data|
  {
    if 1 <= |data| <= 2 {
      DecodeEncodeShort(data);
    } else if |data| > 2 {
      var s := Encode(data);
      var rest := Encode(data[3..]);
      assert s == EncodeGroup(data[0], data[1], data[2]) + rest;
      assert s[..4] == EncodeGroup(data[0], data[1], data[2]) && s[4..] == rest;
      GroupRoundTrip(data[0], data[1], data[2], |s| == 4);
      DecodeEncode(data[3..]);
      assert [data[0], data[1], data[2]] + data[3..] == data;
    }
  }

  /** A 32-byte value, an AES-256 key, is written in 44 characters. */
  lemma KeyEncodingLength(key: seq<Byte>)
    requires |key| == 32
    ensures |Encode(key)| == 44
  {
  }

  // ---------------------------------------------------------------------
  // UTF-8

  /** Continuation byte carrying six bits. */
  function Cont(n: int): Byte
    requires 0 <= n
  {
    0x80 + n % 64
  }

  /** The UTF-8 bytes of one Unicode scalar value (section 3 of RFC 3629). */
  function EncodeChar(c: char): (r: seq<Byte>)
    ensures 1 <= |r| <= 4
  {
    var n := c as int;
    if n < 0x80 then [n]
    else if n < 0x800 then [0xC0 + n / 64, Cont(n)]
    else if n < 0x10000 then [0xE0 + n / 4096, Cont(n / 64), Cont(n)]
    else [0xF0 + n / 262144, Cont(n / 4096), Cont(n / 64), Cont(n)]
  }

  /** str.encode('utf-8'). */
  function Utf8Encode(s: string): (r: seq<Byte>)
    ensures |r| >= |s|
  {
    if |s| == 0 then [] else EncodeChar(s[0]) + Utf8Encode(s[1..])
  }

  predicate IsCont(b: Byte) {
    0x80 <= b < 0xC0
  }

  /** The six payload bits of a continuation byte. */
  function Low(b: Byte): int {
    b as int - 0x80
  }

  /** A decoded code point that is a Unicode scalar value, in the range its byte count allows (no overlong form). */
  function ScalarIn(n: int, lo: int): Option<char>
    requires 0 <= lo
  {
    if lo <= n <= 0x10FFFF && !(0xD800 <= n < 0xE000) then Some(n as char) else None
  }

  /**
   * The first character of b and its byte count, refusing what a strict
   * decoder refuses: a stray continuation byte, a truncated sequence, an
   * overlong form, a surrogate or a value past U+10FFFF.
   */
  function DecodeChar(b: seq<Byte>): (r: Option<(char, nat)>)
    requires |b| > 0
    ensures r.Some? ==> 1 <= r.value.1 <= |b| && r.value.1 <= 4
  {
    var b0 := b[0];
    if b0 < 0x80 then Some((b0 as char, 1))
    else if 0xC0 <= b0 < 0xE0 && |b| >= 2 && IsCont(b[1]) then
      match ScalarIn((b0 as int - 0xC0) * 64 + Low(b[1]), 0x80)
      case Some(c) => Some((c, 2))
      case None => None
    else if 0xE0 <= b0 < 0xF0 && |b| >= 3 && IsCont(b[1]) && IsCont(b[2]) then
      match ScalarIn((b0 as int - 0xE0) * 4096 + Low(b[1]) * 64 + Low(b[2]), 0x800)
      case Some(c) => Some((c, 3))
      case None => None
    else if 0xF0 <= b0 < 0xF8 && |b| >= 4 && IsCont(b[1]) && IsCont(b[2]) && IsCont(b[3]) then
      match ScalarIn((b0 as int - 0xF0) * 262144 + Low(b[1]) * 4096 + Low(b[2]) * 64 + Low(b[3]), 0x10000)
      case Some(c) => Some((c, 4))
      case None => None
    else None
  }

  /** bytes.decode('utf-8'): None where Python raises UnicodeDecodeError. */
  function Utf8Decode(b: seq<Byte>): Option<string>
    decreases |b|
  {
    if |b| == 0 then Some("")
    else
      match DecodeChar(b)
      case None => None
      case Some((c, k)) =>
        match Utf8Decode(b[k..])
        case None => None
        case Some(rest) => Some([c] + rest)
  }

  /** The base-64 digits of a number, as the continuation bytes carry them. */
  lemma Radix64(n: nat)
    ensures n == (n / 64) * 64 + n % 64
    ensures n / 64 / 64 == n / 4096 && n / 4096 / 64 == n / 262144
  {
  }

  lemma TwoByteRoundTrip(c: char, tail: seq<Byte>)
    requires 0x80 <= c as int < 0x800
    ensures DecodeChar(EncodeChar(c) + tail) == Some((c, 2))
  {
    var n := c as int;
    var b := EncodeChar(c) + tail;
    assert b[0] == 0xC0 + n / 64 && Low(b[1]) == n % 64;
    Radix64(n);
    assert (b[0] as int - 0xC0) * 64 + Low(b[1]) == n;
  }

  lemma ThreeByteRoundTrip(c: char, tail: seq<Byte>)
    requires 0x800 <= c as int < 0x10000
    ensures DecodeChar(EncodeChar(c) + tail) == Some((c, 3))
  {
    var n := c as int;
    var b := EncodeChar(c) + tail;
    Radix64(n);
    Radix64(n / 64);
    assert b[0] == 0xE0 + n / 4096 && Low(b[1]) == (n / 64) % 64 && Low(b[2]) == n % 64;
    assert (b[0] as int - 0xE0) * 4096 + Low(b[1]) * 64 == (n / 64) * 64;
  }

  lemma FourByteRoundTrip(c: char, tail: seq<Byte>)
    requires 0x10000 <= c as int
    ensures DecodeChar(EncodeChar(c) + tail) == Some((c, 4))
  {
    var n := c as int;
    var b := EncodeChar(c) + tail;
    Radix64(n);
    Radix64(n / 64);
    Radix64(n / 4096);
    assert b[0] == 0xF0 + n / 262144 && Low(b[1]) == (n / 4096) % 64 && Low(b[2]) == (n / 64) % 64 && Low(b[3]) == n % 64;
    assert (b[0] as int - 0xF0) * 64 + Low(b[1]) == n / 4096;
    assert ((b[0] as int - 0xF0) * 64 + Low(b[1])) * 64 + Low(b[2]) == n / 64;
    assert (b[0] as int - 0xF0) * 262144 + Low(b[1]) * 4096 + Low(b[2]) * 64 + Low(b[3]) == n;
  }

  /** The first character of an encoding decodes back, with its byte count. */
  lemma CharRoundTrip(c: char, tail: seq<Byte>)
    ensures var e := EncodeChar(c); DecodeChar(e + tail) == Some((c, |e|))
  {
    var n := c as int;
    if 0x80 <= n < 0x800 {
      TwoByteRoundTrip(c, tail);
    } else if 0x800 <= n < 0x10000 {
      ThreeByteRoundTrip(c, tail);
    } else if 0x10000 <= n {
      FourByteRoundTrip(c, tail);
    }
  }

  /** Decoding the UTF-8 bytes of a text gives the text back. */
  lemma {:induction false} Utf8RoundTrip(s: string)
    ensures Utf8Decode(Utf8Encode(s)) == Some(s)
    decreases |s|
  {
    if |s| > 0 {
      var e := EncodeChar(s[0]);
      var rest := Utf8Encode(s[1..]);
      CharRoundTrip(s[0], rest);
      assert (e + rest)[|e|..] == rest;
      Utf8RoundTrip(s[1..]);
      assert [s[0]] + s[1..] == s;
    }
  }

  /** Text of ASCII characters takes one byte per character. */
  lemma {:induction false} AsciiLength(s: string)
    requires forall i :: 0 <= i < |s| ==> s[i] as int < 0x80
    ensures |Utf8Encode(s)| == |s|
    decreases |s|
  {
    if |s| > 0 {
      AsciiLength(s[1..]);
    }
  }
}
