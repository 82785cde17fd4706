/**
 * Random identifiers and tokens. The bytes `crypto.randomBytes` would return
 * are a parameter; what the model states is how sizes are checked and how
 * bytes become characters.
 */
module CryptoUtils {
  import opened Results
  import opened JsString
  import opened JsValue

  /** The 62-character alphabet of object ids and nonces: `A`-`Z`, `a`-`z`, `0`-`9`, in that order. */
  const Alphabet: string := "ABCDEFGHIJKLMNOPQRSTUVWXYZ" + "abcdefghijklmnopqrstuvwxyz" + "0123456789"

  /** `n` consecutive ASCII characters from `first` on. */
  function AsciiRun(first: char, n: nat): (s: string)
    requires first as int + n <= 128
    ensures |s| == n
    decreases n
  {
    if n == 0 then "" else [first] + AsciiRun((first as int + 1) as char, n - 1)
  }

  lemma {:induction false} AsciiRunAt(first: char, n: nat)
    requires first as int + n <= 128
    ensures forall i :: 0 <= i < n ==> AsciiRun(first, n)[i] as int == first as int + i
    decreases n
  {
    if n > 0 {
      AsciiRunAt((first as int + 1) as char, n - 1);
    }
  }

  /** A run splits into its first `a` characters and the `b` after them. */
  lemma {:induction false} RunSplit(first: char, a: nat, b: nat)
    requires first as int + a + b <= 128
    ensures AsciiRun(first, a + b) == AsciiRun(first, a) + AsciiRun((first as int + a) as char, b)
    decreases a
  {
    if a > 0 {
      RunSplit((first as int + 1) as char, a - 1, b);
    }
  }

  /** A 26-letter run, spelled out nine letters at a time. */
  lemma LetterRun(first: char, chunks: seq<string>, word: string)
    requires first as int + 26 <= 128 && |chunks| == 3
    requires AsciiRun(first, 9) == chunks[0]
    requires AsciiRun((first as int + 9) as char, 9) == chunks[1]
    requires AsciiRun((first as int + 18) as char, 8) == chunks[2]
    requires chunks[0] + (chunks[1] + chunks[2]) == word
    ensures AsciiRun(first, 26) == word
  {
    var second := (first as int + 9) as char;
    RunSplit(first, 9, 17);
    RunSplit(second, 9, 8);
    assert (second as int + 9) as char == (first as int + 18) as char;
  }

  lemma UpperFirst() ensures AsciiRun('A', 9) == "ABCDEFGHI" { }
  lemma UpperSecond() ensures AsciiRun('J', 9) == "JKLMNOPQR" { }
  lemma UpperThird() ensures AsciiRun('S', 8) == "STUVWXYZ" { }

  lemma UpperRun()
    ensures AsciiRun('A', 26) == "ABCDEFGHIJKLMNOPQRSTUVWXYZ"
  {
    UpperFirst();
    UpperSecond();
    UpperThird();
    LetterRun('A', ["ABCDEFGHI", "JKLMNOPQR", "STUVWXYZ"], "ABCDEFGHIJKLMNOPQRSTUVWXYZ");
  }

  lemma LowerFirst() ensures AsciiRun('a', 9) == "abcdefghi" { }
  lemma LowerSecond() ensures AsciiRun('j', 9) == "jklmnopqr" { }
  lemma LowerThird() ensures AsciiRun('s', 8) == "stuvwxyz" { }

  lemma LowerRun()
    ensures AsciiRun('a', 26) == "abcdefghijklmnopqrstuvwxyz"
  {
    LowerFirst();
    LowerSecond();
    LowerThird();
    LetterRun('a', ["abcdefghi", "jklmnopqr", "stuvwxyz"], "abcdefghijklmnopqrstuvwxyz");
  }

  /** The alphabet is the three ASCII runs `A`-`Z`, `a`-`z` and `0`-`9`. */
  lemma AlphabetRuns()
    ensures Alphabet == AsciiRun('A', 26) + AsciiRun('a', 26) + AsciiRun('0', 10)
  {
    UpperRun();
    LowerRun();
    assert AsciiRun('0', 10) == "0123456789";
  }

  /** So all 62 characters are letters or digits, `A` first. */
  lemma AlphabetIsAlnum()
    ensures |Alphabet| == 62 && Alphabet[0] == 'A'
    ensures forall i :: 0 <= i < 62 ==> IsAsciiAlnum(Alphabet[i])
  {
    AlphabetRuns();
    AsciiRunAt('A', 26);
    AsciiRunAt('a', 26);
    AsciiRunAt('0', 10);
  }

  function LowerHexDigit(n: int): char
    requires 0 <= n < 16
  {
    if n < 10 then ('0' as int + n) as char else ('a' as int + n - 10) as char
  }

  predicate IsLowerHexDigit(c: char) { IsAsciiDigit(c) || 'a' <= c <= 'f' }

  /** `buffer.toString('hex')`: two lower-case hex digits per byte. */
  function HexEncode(bytes: seq<Byte>): (s: string)
    ensures |s| == 2 * |bytes|
    ensures forall i :: 0 <= i < |s| ==> IsLowerHexDigit(s[i])
  {
    if |bytes| == 0 then ""
    else [LowerHexDigit(bytes[0] / 16), LowerHexDigit(bytes[0] % 16)] + HexEncode(bytes[1..])
  }

  function LowerHexValue(c: char): int
    requires IsLowerHexDigit(c)
  {
    if IsAsciiDigit(c) then c as int - '0' as int else c as int - 'a' as int + 10
  }

  /** The bytes a hex string spells, two digits per byte. */
  function HexDecode(s: string): seq<Byte>
    requires |s| % 2 == 0 && forall i :: 0 <= i < |s| ==> IsLowerHexDigit(s[i])
  {
    if |s| == 0 then []
    else [LowerHexValue(s[0]) * 16 + LowerHexValue(s[1])] + HexDecode(s[2..])
  }

  /** The two digits of a byte read back as the byte. */
  lemma HexByteRoundTrip(b: Byte)
    ensures LowerHexValue(LowerHexDigit(b / 16)) * 16 + LowerHexValue(LowerHexDigit(b % 16)) == b
  {
    assert LowerHexValue(LowerHexDigit(b / 16)) == b / 16;
    assert LowerHexValue(LowerHexDigit(b % 16)) == b % 16;
  }

  /** Decoding reads the first two digits as one byte, then the rest. */
  lemma HexDecodeCons(hi: char, lo: char, t: string)
    requires IsLowerHexDigit(hi) && IsLowerHexDigit(lo)
    requires |t| % 2 == 0 && forall i :: 0 <= i < |t| ==> IsLowerHexDigit(t[i])
    ensures HexDecode([hi, lo] + t) == [LowerHexValue(hi) * 16 + LowerHexValue(lo)] + HexDecode(t)
  {
    var s := [hi, lo] + t;
    assert s[0] == hi && s[1] == lo && s[2..] == t;
  }

  /** The hex text determines the bytes: nothing is lost in the encoding. */
  lemma {:induction false} HexRoundTrip(bytes: seq<Byte>)
    ensures HexDecode(HexEncode(bytes)) == bytes
  {
    if |bytes| > 0 {
      var b := bytes[0];
      var hi, lo := LowerHexDigit(b / 16), LowerHexDigit(b % 16);
      var t := HexEncode(bytes[1..]);
      assert HexEncode(bytes) == [hi, lo] + t;
      HexDecodeCons(hi, lo, t);
      HexRoundTrip(bytes[1..]);
      HexByteRoundTrip(b);
      assert bytes == [b] + bytes[1..];
    }
  }

  /**
   * `randomHexString(size)`: size 0 and odd sizes throw; a negative size is
   * refused by `randomBytes`. `randomBytes` stands for the `size / 2` bytes
   * drawn.
   */
  function RandomHexString(size: int, randomBytes: seq<Byte>): (r: Result<string, Exception>)
    requires size > 0 && size % 2 == 0 ==> |randomBytes| == size / 2
    ensures size == 0 ==> r == Err(Error("Zero-length randomHexString is useless"))
    ensures size != 0 && JsRemainder(size, 2) != 0 ==> r == Err(Error("randomHexString size must be divisible by 2."))
    ensures r.Ok? <==> size > 0 && size % 2 == 0
    ensures r.Ok? ==> |r.value| == size && (forall i :: 0 <= i < size ==> IsLowerHexDigit(r.value[i]))
    ensures r.Ok? ==> HexDecode(r.value) == randomBytes
  {
    if size == 0 then Err(Error("Zero-length randomHexString is useless"))
    else if JsRemainder(size, 2) != 0 then Err(Error("randomHexString size must be divisible by 2."))
    else if size < 0 then Err(RangeError("The value of \"size\" is out of range."))
    else
      HexRoundTrip(randomBytes);
      Ok(HexEncode(randomBytes))
  }

  /** `newToken()`: 32 hex digits from 16 random bytes. */
  function NewToken(randomBytes: seq<Byte>): (r: Result<string, Exception>)
    requires |randomBytes| == 16
    ensures r.Ok? && |r.value| == 32 && (forall i :: 0 <= i < 32 ==> IsLowerHexDigit(r.value[i]))
    ensures HexDecode(r.value) == randomBytes
  {
    RandomHexString(32, randomBytes)
  }

  /**
   * The text one byte adds in `randomString`: `chars[bytes.readInt8(i) % 62]`.
   * `readInt8` is signed, so a byte of 128 or more gives a negative index:
   * `undefined`, which the concatenation spells out, or `-0`, which reads `A`.
   */
  function Piece(b: Byte): string
  {
    var signed := if b < 128 then b else b - 256;
    var index := JsRemainder(signed, 62);
    if 0 <= index then [Alphabet[index]] else "undefined"
  }

  lemma PieceSpec(b: Byte)
    ensures b < 128 ==> Piece(b) == [Alphabet[b % 62]]
    ensures b >= 128 ==> Piece(b) == if (256 - b) % 62 == 0 then "A" else "undefined"
  {
    if b >= 128 {
      assert JsRemainder(b - 256, 62) == -((256 - b) % 62);
      AlphabetIsAlnum();
    }
  }

  function Pieces(bytes: seq<Byte>): string
  {
    if |bytes| == 0 then "" else Pieces(bytes[..|bytes| - 1]) + Piece(bytes[|bytes| - 1])
  }

  /**
   * `randomString(size)` as written: size 0 throws, a negative size is
   * refused by `randomBytes`, and each of the `size` bytes adds its `Piece`.
   */
  method RandomString(size: int, randomBytes: seq<Byte>) returns (r: Result<string, Exception>)
    requires size > 0 ==> |randomBytes| == size
    ensures size == 0 ==> r == Err(Error("Zero-length randomString is useless"))
    ensures size < 0 ==> r.Err? && r.error.RangeError?
    ensures size > 0 ==> r == Ok(Pieces(randomBytes))
  {
    if size == 0 {
      return Err(Error("Zero-length randomString is useless"));
    }
    if size < 0 {
      return Err(RangeError("The value of \"size\" is out of range."));
    }
    var objectId := "";
    var i := 0;
    while i < |randomBytes|
      invariant 0 <= i <= |randomBytes|
      invariant objectId == Pieces(randomBytes[..i])
    {
      assert randomBytes[..i + 1][..i] == randomBytes[..i];
      objectId := objectId + Piece(randomBytes[i]);
      i := i + 1;
    }
    assert randomBytes[..i] == randomBytes;
    return Ok(objectId);
  }

  /** As written, one byte of 128 turns a one-character id into the nine letters `undefined`. */
  lemma RandomStringHighByte()
    ensures Pieces([128]) == "undefined" && |Pieces([128])| != 1
  {
    assert [128 as Byte][..0] == [];
  }

  /** The character one byte gives when read unsigned, as `readUInt8` would. */
  function UnsignedPiece(b: Byte): char
  {
    Alphabet[b % 62]
  }

  /** `randomString` with the byte read unsigned: a pure function of the bytes. */
  function RandomAlphanumeric(size: int, randomBytes: seq<Byte>): (r: Result<string, Exception>)
    requires size > 0 ==> |randomBytes| == size
    ensures size == 0 ==> r == Err(Error("Zero-length randomString is useless"))
    ensures size < 0 ==> r.Err? && r.error.RangeError?
    ensures size > 0 ==> r.Ok? && |r.value| == size
    ensures r.Ok? ==> forall i :: 0 <= i < |r.value| ==> r.value[i] == UnsignedPiece(randomBytes[i])
  {
    if size == 0 then Err(Error("Zero-length randomString is useless"))
    else if size < 0 then Err(RangeError("The value of \"size\" is out of range."))
    else Ok(seq(|randomBytes|, i requires 0 <= i < |randomBytes| => UnsignedPiece(randomBytes[i])))
  }

  /** The corrected `randomString` keeps its promise: `size` alphanumeric characters. */
  lemma RandomAlphanumericPromise(size: int, randomBytes: seq<Byte>)
    requires size > 0 && |randomBytes| == size
    ensures var r := RandomAlphanumeric(size, randomBytes);
      r.Ok? && |r.value| == size && forall i :: 0 <= i < size ==> IsAsciiAlnum(r.value[i])
  {
    AlphabetIsAlnum();
  }

  /** For bytes below 128 the two readings agree. */
  lemma {:induction false} LowBytesAgree(bytes: seq<Byte>)
    requires forall i :: 0 <= i < |bytes| ==> bytes[i] < 128
    ensures Pieces(bytes) == seq(|bytes|, i requires 0 <= i < |bytes| => UnsignedPiece(bytes[i]))
  {
    if |bytes| > 0 {
      var init := bytes[..|bytes| - 1];
      LowBytesAgree(init);
      PieceSpec(bytes[|bytes| - 1]);
    }
  }

  /**
   * `newObjectId(size = 10)`: `randomString(size)` as written. Only when every
   * drawn byte is below 128 is the id `size` alphanumeric characters.
   */
  method NewObjectId(randomBytes: seq<Byte>, size: int := 10) returns (r: Result<string, Exception>)
    requires size > 0 ==> |randomBytes| == size
    ensures size == 0 ==> r == Err(Error("Zero-length randomString is useless"))
    ensures size < 0 ==> r.Err? && r.error.RangeError?
    ensures size > 0 ==> r == Ok(Pieces(randomBytes))
    ensures size > 0 && (forall i :: 0 <= i < size ==> randomBytes[i] < 128) ==>
      r.Ok? && |r.value| == size && forall i :: 0 <= i < size ==> r.value[i] == UnsignedPiece(randomBytes[i])
  {
    r := RandomString(size, randomBytes);
    if size > 0 && forall i :: 0 <= i < size ==> randomBytes[i] < 128 {
      LowBytesAgree(randomBytes);
    }
  }
}
