/**
 * `encodeURIComponent` and `decodeURIComponent` (section 19.2.6 of
 * ECMA-262): characters outside the unreserved set travel as the
 * percent-escaped bytes of their UTF-8 encoding, with upper-case hex digits.
 */
module Uri {
  import opened Results
  import opened JsString
  import opened JsValue

  /** The characters `encodeURIComponent` leaves alone. */
  predicate IsUriUnreserved(c: char)
  {
    IsAsciiAlnum(c) || c in "-_.!~*'()"
  }

  function HexDigit(n: int): (c: char)
    requires 0 <= n < 16
    ensures IsAsciiDigit(c) || 'A' <= c <= 'F'
  {
    "0123456789ABCDEF"[n]
  }

  /** The value of a hex digit of either case. */
  function HexValue(c: char): Option<int>
  {
    if '0' <= c <= '9' then Some(c as int - '0' as int)
    else if 'A' <= c <= 'F' then Some(c as int - 'A' as int + 10)
    else if 'a' <= c <= 'f' then Some(c as int - 'a' as int + 10)
    else None
  }

  lemma HexValueOfDigit(n: int)
    requires 0 <= n < 16
    ensures HexValue(HexDigit(n)) == Some(n)
  {
  }

  /** `%XX` for one byte. */
  function PercentByte(b: Byte): (s: string)
    ensures |s| == 3 && s[0] == '%'
  {
    ['%', HexDigit(b / 16), HexDigit(b % 16)]
  }

  /** The UTF-8 encoding of one Unicode scalar value. */
  function Utf8(c: char): (bytes: seq<Byte>)
    ensures |bytes| == if c as int < 0x80 then 1 else if c as int < 0x800 then 2 else if c as int < 0x10000 then 3 else 4
  {
    var cp := c as int;
    if cp < 0x80 then [cp]
    else if cp < 0x800 then [0xC0 + cp / 64, 0x80 + cp % 64]
    else if cp < 0x10000 then [0xE0 + cp / 4096, 0x80 + (cp / 64) % 64, 0x80 + cp % 64]
    else [0xF0 + cp / 262144, 0x80 + (cp / 4096) % 64, 0x80 + (cp / 64) % 64, 0x80 + cp % 64]
  }

  function PercentBytes(bytes: seq<Byte>): (s: string)
    ensures |s| == 3 * |bytes|
  {
    if |bytes| == 0 then "" else PercentByte(bytes[0]) + PercentBytes(bytes[1..])
  }

  /** The escape of one character: `%` followed by upper-case hex digits, three per byte. */
  function PercentEncode(c: char): (s: string)
    ensures |s| >= 3 && s[0] == '%'
    ensures forall i :: 0 <= i < |s| ==> s[i] == '%' || IsAsciiDigit(s[i]) || 'A' <= s[i] <= 'F'
  {
    PercentBytesShape(Utf8(c));
    PercentBytes(Utf8(c))
  }

  lemma {:induction false} PercentBytesShape(bytes: seq<Byte>)
    ensures forall i :: 0 <= i < |PercentBytes(bytes)| ==>
      PercentBytes(bytes)[i] == '%' || IsAsciiDigit(PercentBytes(bytes)[i]) || 'A' <= PercentBytes(bytes)[i] <= 'F'
  {
    if |bytes| > 0 {
      PercentBytesShape(bytes[1..]);
    }
  }

  function EncodeChar(c: char): string
  {
    if IsUriUnreserved(c) then [c] else PercentEncode(c)
  }

  /** `encodeURIComponent(s)`. */
  function EncodeURIComponent(s: string): (r: string)
    ensures |r| >= |s|
    ensures forall c :: c in r ==> IsUriUnreserved(c) || c == '%' || IsAsciiDigit(c) || 'A' <= c <= 'F'
  {
    if |s| == 0 then "" else EncodeChar(s[0]) + EncodeURIComponent(s[1..])
  }

  lemma {:induction false} EncodeURIComponentConcat(a: string, b: string)
    ensures EncodeURIComponent(a + b) == EncodeURIComponent(a) + EncodeURIComponent(b)
  {
    if |a| > 0 {
      var ab := a + b;
      assert ab[0] == a[0] && ab[1..] == a[1..] + b;
      EncodeURIComponentConcat(a[1..], b);
      assert EncodeURIComponent(ab) == EncodeChar(a[0]) + EncodeURIComponent(a[1..] + b);
      assert EncodeURIComponent(a) == EncodeChar(a[0]) + EncodeURIComponent(a[1..]);
      ConcatAssociative(EncodeChar(a[0]), EncodeURIComponent(a[1..]), EncodeURIComponent(b));
    } else {
      assert a + b == b;
    }
  }

  lemma ConcatAssociative(x: string, y: string, z: string)
    ensures x + (y + z) == (x + y) + z
  {
  }

  /** The two hex digits at `s[i+1..i+3]` after a `%` at `s[i]`, as a byte. */
  function EscapedByte(s: string, i: nat): Option<Byte>
  {
    if i + 3 <= |s| && s[i] == '%' && HexValue(s[i + 1]).Some? && HexValue(s[i + 2]).Some?
    then Some(HexValue(s[i + 1]).value * 16 + HexValue(s[i + 2]).value)
    else None
  }

  predicate IsContinuation(b: Option<Byte>)
  {
    b.Some? && 0x80 <= b.value < 0xC0
  }

  /** How many bytes a UTF-8 sequence with this leading byte has (0: not a leading byte). */
  function SequenceLength(b: Byte): nat
  {
    if b < 0x80 then 1
    else if 0xC0 <= b < 0xE0 then 2
    else if 0xE0 <= b < 0xF0 then 3
    else if 0xF0 <= b < 0xF8 then 4
    else 0
  }

  /**
   * The scalar value of the escaped UTF-8 sequence starting at `s[i]`, if it
   * is a well-formed, shortest-form encoding of a scalar value.
   */
  function DecodeSequence(s: string, i: nat): (r: Option<(char, nat)>)
    ensures r.Some? ==> r.value.1 >= 3 && i + r.value.1 <= |s|
  {
    match EscapedByte(s, i)
    case None => None
    case Some(b0) =>
      var n := SequenceLength(b0);
      if n == 1 then Some((b0 as char, 3))
      else if n == 0 then None
      else if !IsContinuation(EscapedByte(s, i + 3)) then None
      else
        var b1 := EscapedByte(s, i + 3).value - 0x80;
        if n == 2 then
          var cp := (b0 - 0xC0) * 64 + b1;
          if cp < 0x80 then None else Some((cp as char, 6))
        else if !IsContinuation(EscapedByte(s, i + 6)) then None
        else
          var b2 := EscapedByte(s, i + 6).value - 0x80;
          if n == 3 then
            var cp := (b0 - 0xE0) * 4096 + b1 * 64 + b2;
            if cp < 0x800 || (0xD800 <= cp < 0xE000) then None else Some((cp as char, 9))
          else if !IsContinuation(EscapedByte(s, i + 9)) then None
          else
            var b3 := EscapedByte(s, i + 9).value - 0x80;
            var cp := (b0 - 0xF0) * 262144 + b1 * 4096 + b2 * 64 + b3;
            if cp < 0x10000 || cp > 0x10FFFF then None else Some((cp as char, 12))
  }

  /** `decodeURIComponent(s)`: a malformed escape or UTF-8 sequence throws a URIError. */
  function DecodeURIComponent(s: string): (r: Result<string, Exception>)
    ensures '%' !in s ==> r == Ok(s)
    decreases |s|
  {
    if |s| == 0 then Ok("")
    else if s[0] != '%' then
      assert '%' !in s ==> '%' !in s[1..] && s == [s[0]] + s[1..];
      match DecodeURIComponent(s[1..])
      case Ok(t) => Ok([s[0]] + t)
      case Err(e) => Err(e)
    else
      match DecodeSequence(s, 0)
      case None => Err(URIError)
      case Some((c, len)) =>
        match DecodeURIComponent(s[len..])
        case Ok(t) => Ok([c] + t)
        case Err(e) => Err(e)
  }

  /** An escape is read from its three characters alone. */
  lemma EscapedByteSame(s: string, i: nat, t: string)
    requires |t| == 3 && i + 3 <= |s|
    requires s[i] == t[0] && s[i + 1] == t[1] && s[i + 2] == t[2]
    ensures EscapedByte(s, i) == EscapedByte(t, 0)
  {
  }

  lemma PercentByteValue(b: Byte)
    ensures EscapedByte(PercentByte(b), 0) == Some(b)
  {
    HexValueOfDigit(b / 16);
    HexValueOfDigit(b % 16);
  }

  /** An escape inside `p` reads the same whatever follows `p`. */
  lemma EscapedInPrefix(p: string, rest: string, i: nat)
    requires i + 3 <= |p|
    ensures EscapedByte(p + rest, i) == EscapedByte(p[i..i + 3], 0)
  {
    var s := p + rest;
    assert s[i] == p[i] && s[i + 1] == p[i + 1] && s[i + 2] == p[i + 2];
    EscapedByteSame(s, i, p[i..i + 3]);
  }

  lemma EscapedAt(bytes: seq<Byte>, rest: string, k: nat)
    requires k < |bytes|
    ensures EscapedByte(PercentBytes(bytes) + rest, 3 * k) == Some(bytes[k])
  {
    PercentBytesAt(bytes, k);
    EscapedInPrefix(PercentBytes(bytes), rest, 3 * k);
    PercentByteValue(bytes[k]);
  }

  /** The escaped UTF-8 encoding of `c` decodes back to `c`, whatever follows it. */
  lemma Utf8Decodes(c: char, rest: string)
    ensures DecodeSequence(PercentBytes(Utf8(c)) + rest, 0) == Some((c, 3 * |Utf8(c)|))
  {
    var cp := c as int;
    if cp < 0x80 {
      Utf8DecodesOneByte(c, rest);
    } else if cp < 0x800 {
      Utf8DecodesTwoBytes(c, rest);
    } else if cp < 0x10000 {
      Utf8DecodesThreeBytes(c, rest);
    } else {
      Utf8DecodesFourBytes(c, rest);
    }
  }

  lemma Utf8DecodesOneByte(c: char, rest: string)
    requires c as int < 0x80
    ensures DecodeSequence(PercentBytes(Utf8(c)) + rest, 0) == Some((c, 3))
  {
    var bytes := Utf8(c);
    var s := PercentBytes(bytes) + rest;
    assert bytes == [c as int];
    EscapedAt(bytes, rest, 0);
    DecodeOne(s, c);
  }

  lemma Utf8DecodesTwoBytes(c: char, rest: string)
    requires 0x80 <= c as int < 0x800
    ensures DecodeSequence(PercentBytes(Utf8(c)) + rest, 0) == Some((c, 6))
  {
    var bytes := Utf8(c);
    var s := PercentBytes(bytes) + rest;
    assert |bytes| == 2;
    EscapedAt(bytes, rest, 0);
    EscapedAt(bytes, rest, 1);
    Utf8Decodes2(c, bytes[0], bytes[1]);
    DecodeTwo(s, c, bytes[0], bytes[1]);
  }

  lemma Utf8DecodesThreeBytes(c: char, rest: string)
    requires 0x800 <= c as int < 0x10000
    ensures DecodeSequence(PercentBytes(Utf8(c)) + rest, 0) == Some((c, 9))
  {
    var bytes := Utf8(c);
    var s := PercentBytes(bytes) + rest;
    assert |bytes| == 3;
    EscapedAt(bytes, rest, 0);
    EscapedAt(bytes, rest, 1);
    EscapedAt(bytes, rest, 2);
    Utf8Decodes3(c, bytes[0], bytes[1], bytes[2]);
    DecodeThree(s, c, bytes[0], bytes[1], bytes[2]);
  }

  lemma Utf8DecodesFourBytes(c: char, rest: string)
    requires 0x10000 <= c as int
    ensures DecodeSequence(PercentBytes(Utf8(c)) + rest, 0) == Some((c, 12))
  {
    var bytes := Utf8(c);
    var s := PercentBytes(bytes) + rest;
    assert |bytes| == 4;
    EscapedAt(bytes, rest, 0);
    EscapedAt(bytes, rest, 1);
    EscapedAt(bytes, rest, 2);
    EscapedAt(bytes, rest, 3);
    Utf8Decodes4(c, bytes[0], bytes[1], bytes[2], bytes[3]);
    DecodeFour(s, c, bytes[0], bytes[1], bytes[2], bytes[3]);
  }

  lemma DecodeOne(s: string, c: char)
    requires c as int < 0x80 && EscapedByte(s, 0) == Some(c as int)
    ensures DecodeSequence(s, 0) == Some((c, 3))
  {
  }

  lemma DecodeTwo(s: string, c: char, b0: Byte, b1: Byte)
    requires 0x80 <= c as int
    requires EscapedByte(s, 0) == Some(b0) && EscapedByte(s, 3) == Some(b1)
    requires SequenceLength(b0) == 2 && 0x80 <= b1 < 0xC0
    requires (b0 as int - 0xC0) * 64 + (b1 as int - 0x80) == c as int
    ensures DecodeSequence(s, 0) == Some((c, 6))
  {
  }

  lemma DecodeThree(s: string, c: char, b0: Byte, b1: Byte, b2: Byte)
    requires 0x800 <= c as int < 0x10000
    requires EscapedByte(s, 0) == Some(b0) && EscapedByte(s, 3) == Some(b1) && EscapedByte(s, 6) == Some(b2)
    requires SequenceLength(b0) == 3 && 0x80 <= b1 < 0xC0 && 0x80 <= b2 < 0xC0
    requires (b0 as int - 0xE0) * 4096 + (b1 as int - 0x80) * 64 + (b2 as int - 0x80) == c as int
    ensures DecodeSequence(s, 0) == Some((c, 9))
  {
  }

  lemma DecodeFour(s: string, c: char, b0: Byte, b1: Byte, b2: Byte, b3: Byte)
    requires 0x10000 <= c as int
    requires EscapedByte(s, 0) == Some(b0) && EscapedByte(s, 3) == Some(b1)
    requires EscapedByte(s, 6) == Some(b2) && EscapedByte(s, 9) == Some(b3)
    requires SequenceLength(b0) == 4 && 0x80 <= b1 < 0xC0 && 0x80 <= b2 < 0xC0 && 0x80 <= b3 < 0xC0
    requires (b0 as int - 0xF0) * 262144 + (b1 as int - 0x80) * 4096 + (b2 as int - 0x80) * 64 + (b3 as int - 0x80) == c as int
    ensures DecodeSequence(s, 0) == Some((c, 12))
  {
  }

  lemma Utf8Decodes2(c: char, b0: Byte, b1: Byte)
    requires 0x80 <= c as int < 0x800 && Utf8(c) == [b0, b1]
    ensures SequenceLength(b0) == 2 && 0x80 <= b1 < 0xC0
    ensures (b0 as int - 0xC0) * 64 + (b1 as int - 0x80) == c as int
  {
  }

  lemma Utf8Decodes3(c: char, b0: Byte, b1: Byte, b2: Byte)
    requires 0x800 <= c as int < 0x10000 && Utf8(c) == [b0, b1, b2]
    ensures SequenceLength(b0) == 3 && 0x80 <= b1 < 0xC0 && 0x80 <= b2 < 0xC0
    ensures (b0 as int - 0xE0) * 4096 + (b1 as int - 0x80) * 64 + (b2 as int - 0x80) == c as int
  {
  }

  lemma Utf8Decodes4(c: char, b0: Byte, b1: Byte, b2: Byte, b3: Byte)
    requires 0x10000 <= c as int && Utf8(c) == [b0, b1, b2, b3]
    ensures SequenceLength(b0) == 4 && 0x80 <= b1 < 0xC0 && 0x80 <= b2 < 0xC0 && 0x80 <= b3 < 0xC0
    ensures (b0 as int - 0xF0) * 262144 + (b1 as int - 0x80) * 4096 + (b2 as int - 0x80) * 64 + (b3 as int - 0x80) == c as int
  {
    var cp := c as int;
    SixBitGroups(cp);
    assert b0 == 0xF0 + cp / 262144 && b1 == 0x80 + (cp / 4096) % 64;
    assert b2 == 0x80 + (cp / 64) % 64 && b3 == 0x80 + cp % 64;
  }

  /** A number splits into six-bit groups: `n = 64 * (n / 64) + n % 64`, and so on upwards. */
  lemma SixBitGroups(n: int)
    requires n >= 0
    ensures n == 64 * (n / 64) + n % 64
    ensures n / 64 == 64 * (n / 4096) + (n / 64) % 64
    ensures n / 4096 == 64 * (n / 262144) + (n / 4096) % 64
  {
  }

  lemma {:induction false} PercentBytesAt(bytes: seq<Byte>, k: nat)
    requires k < |bytes|
    ensures PercentBytes(bytes)[3 * k..3 * k + 3] == PercentByte(bytes[k])
  {
    if k > 0 {
      PercentBytesAt(bytes[1..], k - 1);
      assert PercentBytes(bytes) == PercentByte(bytes[0]) + PercentBytes(bytes[1..]);
    }
  }

  lemma DecodePlainStep(e: string)
    requires |e| > 0 && e[0] != '%' && DecodeURIComponent(e[1..]).Ok?
    ensures DecodeURIComponent(e) == Ok([e[0]] + DecodeURIComponent(e[1..]).value)
  {
  }

  lemma DecodeEscapeStep(e: string, c: char, len: nat)
    requires |e| > 0 && e[0] == '%' && DecodeSequence(e, 0) == Some((c, len))
    requires DecodeURIComponent(e[len..]).Ok?
    ensures DecodeURIComponent(e) == Ok([c] + DecodeURIComponent(e[len..]).value)
  {
  }

  /** An unreserved character in front of an encoded tail decodes to itself. */
  lemma DecodeUnreservedStep(c: char, tail: string, t: string)
    requires IsUriUnreserved(c) && DecodeURIComponent(tail) == Ok(t)
    ensures DecodeURIComponent(EncodeChar(c) + tail) == Ok([c] + t)
  {
    var e := EncodeChar(c) + tail;
    assert e[0] == c && c != '%' && e[1..] == tail;
    DecodePlainStep(e);
  }

  /** An escaped character in front of an encoded tail decodes to itself. */
  lemma DecodeEscapedStep(c: char, tail: string, t: string)
    requires !IsUriUnreserved(c) && DecodeURIComponent(tail) == Ok(t)
    ensures DecodeURIComponent(EncodeChar(c) + tail) == Ok([c] + t)
  {
    var p := PercentBytes(Utf8(c));
    var e := p + tail;
    assert EncodeChar(c) == p;
    Utf8Decodes(c, tail);
    assert e[0] == '%' && e[|p|..] == tail;
    DecodeEscapeStep(e, c, |p|);
  }

  /** Decoding undoes encoding, for every string. */
  lemma {:induction false} DecodeEncode(s: string)
    ensures DecodeURIComponent(EncodeURIComponent(s)) == Ok(s)
    decreases |s|
  {
    if |s| > 0 {
      var tail := EncodeURIComponent(s[1..]);
      assert EncodeURIComponent(s) == EncodeChar(s[0]) + tail;
      assert s == [s[0]] + s[1..];
      DecodeEncode(s[1..]);
      if IsUriUnreserved(s[0]) {
        DecodeUnreservedStep(s[0], tail, s[1..]);
      } else {
        DecodeEscapedStep(s[0], tail, s[1..]);
      }
    }
  }
}
