/** Finding out how a byte stream is encoded, and decoding it (section 5.2 of YAML 1.2.2). */
module Encodings {
  import opened Bytes
  import opened Wrappers
  import Codec = Utf8

  datatype Encoding = Utf8 | Utf16Le | Utf16Be | Utf32Le | Utf32Be

  datatype EncodingError =
    | InvalidBytes
    | InvalidCodepoint(codepoint: nat)
    | TruncatedUtf16
    | TruncatedUtf32

  datatype Endian = Little | Big

  type Unit = u: int | 0 <= u < 0x1_0000
  type Word = w: int | 0 <= w < 0x1_0000_0000

  // ----- Detection -----

  predicate StartsWith(bytes: seq<Byte>, prefix: seq<Byte>) {
    |prefix| <= |bytes| && bytes[..|prefix|] == prefix
  }

  /** Marks before guesses, and four bytes before two, because the longer patterns contain the shorter. */
  function DetectEncoding(bytes: seq<Byte>): Encoding {
    if StartsWith(bytes, [0x00, 0x00, 0xFE, 0xFF]) then Utf32Be
    else if StartsWith(bytes, [0xFF, 0xFE, 0x00, 0x00]) then Utf32Le
    else if StartsWith(bytes, [0xFE, 0xFF]) then Utf16Be
    else if StartsWith(bytes, [0xFF, 0xFE]) then Utf16Le
    else if |bytes| >= 4 && bytes[0] == 0 && bytes[1] == 0 && bytes[2] == 0 && bytes[3] != 0 then Utf32Be
    else if |bytes| >= 4 && bytes[0] != 0 && bytes[1] == 0 && bytes[2] == 0 && bytes[3] == 0 then Utf32Le
    else if |bytes| >= 4 && bytes[0] != 0 && bytes[1] == 0 && bytes[2] != 0 && bytes[3] == 0 then Utf16Le
    else if |bytes| >= 4 && bytes[0] == 0 && bytes[1] != 0 && bytes[2] == 0 && bytes[3] != 0 then Utf16Be
    else if |bytes| >= 2 && bytes[0] != 0 && bytes[1] == 0 then Utf16Le
    else if |bytes| >= 2 && bytes[0] == 0 && bytes[1] != 0 then Utf16Be
    else Utf8
  }

  // ----- Code units -----

  function UnitBytes(u: Unit, endian: Endian): seq<Byte> {
    if endian.Little? then [u % 0x100, u / 0x100] else [u / 0x100, u % 0x100]
  }

  function UnitOf(a: Byte, b: Byte, endian: Endian): Unit {
    if endian.Little? then a + 0x100 * b as int else 0x100 * a as int + b
  }

  /** The code units of an even number of bytes. */
  function UnitsOf(bytes: seq<Byte>, endian: Endian): seq<Unit> {
    if |bytes| < 2 then [] else [UnitOf(bytes[0], bytes[1], endian)] + UnitsOf(bytes[2..], endian)
  }

  function UnitsToBytes(units: seq<Unit>, endian: Endian): seq<Byte> {
    if units == [] then [] else UnitBytes(units[0], endian) + UnitsToBytes(units[1..], endian)
  }

  function WordBytes(w: Word, endian: Endian): seq<Byte> {
    var low, high := w % 0x1_0000, w / 0x1_0000;
    if endian.Little? then UnitBytes(low, endian) + UnitBytes(high, endian)
    else UnitBytes(high, endian) + UnitBytes(low, endian)
  }

  function WordOf(a: Byte, b: Byte, c: Byte, d: Byte, endian: Endian): Word {
    var first, second := UnitOf(a, b, endian), UnitOf(c, d, endian);
    if endian.Little? then first + 0x1_0000 * second as int else 0x1_0000 * first as int + second
  }

  function WordsOf(bytes: seq<Byte>, endian: Endian): seq<Word> {
    if |bytes| < 4 then []
    else [WordOf(bytes[0], bytes[1], bytes[2], bytes[3], endian)] + WordsOf(bytes[4..], endian)
  }

  function WordsToBytes(words: seq<Word>, endian: Endian): seq<Byte> {
    if words == [] then [] else WordBytes(words[0], endian) + WordsToBytes(words[1..], endian)
  }

  // ----- Decoding -----

  function Prepend(c: Scalar, rest: Result<seq<Scalar>, EncodingError>): Result<seq<Scalar>, EncodingError> {
    if rest.Err? then rest else Ok([c] + rest.value)
  }

  predicate IsHigh(u: Unit) { 0xD800 <= u < 0xDC00 }

  predicate IsLow(u: Unit) { 0xDC00 <= u < 0xE000 }

  /** Surrogates pair up; the first that does not is the error. */
  function FromUnits(units: seq<Unit>): Result<seq<Scalar>, EncodingError> {
    if units == [] then Ok([])
    else if !IsHigh(units[0]) && !IsLow(units[0]) then Prepend(units[0], FromUnits(units[1..]))
    else if IsLow(units[0]) || |units| == 1 || !IsLow(units[1]) then Err(InvalidCodepoint(units[0]))
    else
      Prepend(0x1_0000 + (units[0] as int - 0xD800) * 0x400 + (units[1] as int - 0xDC00), FromUnits(units[2..]))
  }

  function FromWords(words: seq<Word>): Result<seq<Scalar>, EncodingError> {
    if words == [] then Ok([])
    else if words[0] < 0xD800 || 0xE000 <= words[0] < 0x11_0000 then Prepend(words[0], FromWords(words[1..]))
    else Err(InvalidCodepoint(words[0]))
  }

  function WithoutMark<T(==)>(units: seq<T>, mark: T): seq<T> {
    if units != [] && units[0] == mark then units[1..] else units
  }

  function FromUtf8(bytes: seq<Byte>): Result<seq<Scalar>, EncodingError> {
    var cs := Codec.Decode(bytes);
    if cs.None? then Err(InvalidBytes) else Ok(WithoutMark(cs.value, BOM))
  }

  function FromUtf16(bytes: seq<Byte>, endian: Endian): Result<seq<Scalar>, EncodingError> {
    if |bytes| % 2 != 0 then Err(TruncatedUtf16)
    else FromUnits(WithoutMark(UnitsOf(bytes, endian), BOM))
  }

  function FromUtf32(bytes: seq<Byte>, endian: Endian): Result<seq<Scalar>, EncodingError> {
    if |bytes| % 4 != 0 then Err(TruncatedUtf32)
    else FromWords(WithoutMark(WordsOf(bytes, endian), BOM))
  }

  function DecodeAs(bytes: seq<Byte>, encoding: Encoding): Result<seq<Scalar>, EncodingError> {
    match encoding
    case Utf8 => FromUtf8(bytes)
    case Utf16Le => FromUtf16(bytes, Little)
    case Utf16Be => FromUtf16(bytes, Big)
    case Utf32Le => FromUtf32(bytes, Little)
    case Utf32Be => FromUtf32(bytes, Big)
  }

  function Decoded(bytes: seq<Byte>): Result<seq<Scalar>, EncodingError> {
    DecodeAs(bytes, DetectEncoding(bytes))
  }

  /** The UTF-32 loop: a mark is skipped only in front of everything else. */
  method DecodeUtf32(bytes: seq<Byte>, endian: Endian) returns (r: Result<seq<Scalar>, EncodingError>)
    ensures r == FromUtf32(bytes, endian)
  {
    hide FromWords;
    hide WordOf;
    hide WordsOf;
    hide Continue;
    if |bytes| % 4 != 0 {
      return Err(TruncatedUtf32);
    }
    var out: seq<Scalar> := [];
    var skipBom := true;
    ghost var words := WithoutMark(WordsOf(bytes, endian), BOM);
    var i := 0;
    ContinueNothing(words);
    assert bytes[0..] == bytes;
    while i < |bytes|
      invariant i % 4 == 0 && i <= |bytes|
      invariant skipBom == (i == 0)
      invariant skipBom ==> out == []
      invariant FromWords(words) == Continue(out, if skipBom then words else WordsOf(bytes[i..], endian))
    {
      var cp := WordOf(bytes[i], bytes[i + 1], bytes[i + 2], bytes[i + 3], endian);
      NextWord(bytes, i, endian);
      ContinueOne(out, cp, WordsOf(bytes[i + 4..], endian));
      i := i + 4;
      if skipBom && cp == BOM {
        skipBom := false;
        continue;
      }
      skipBom := false;
      if !(cp < 0xD800 || 0xE000 <= cp < 0x11_0000) {
        return Err(InvalidCodepoint(cp));
      }
      out := out + [cp];
    }
    ContinueEnds(out, bytes, endian);
    return Ok(out);
  }

  lemma NextWord(bytes: seq<Byte>, i: nat, endian: Endian)
    requires i + 4 <= |bytes|
    ensures WordsOf(bytes[i..], endian) ==
            [WordOf(bytes[i], bytes[i + 1], bytes[i + 2], bytes[i + 3], endian)] + WordsOf(bytes[i + 4..], endian)
  {
    hide WordOf;
    assert bytes[i..][4..] == bytes[i + 4..];
  }

  lemma ContinueNothing(words: seq<Word>)
    ensures Continue([], words) == FromWords(words)
  {
    hide FromWords;
    assert FromWords(words).Ok? ==> [] + FromWords(words).value == FromWords(words).value;
  }

  lemma ContinueOne(out: seq<Scalar>, cp: Word, rest: seq<Word>)
    ensures Continue(out, [cp] + rest) ==
            if cp < 0xD800 || 0xE000 <= cp < 0x11_0000 then Continue(out + [cp], rest) else Err(InvalidCodepoint(cp))
  {
    var more := FromWords(rest);
    assert ([cp] + rest)[1..] == rest;
    if more.Ok? && (cp < 0xD800 || 0xE000 <= cp < 0x11_0000) {
      assert out + ([cp] + more.value) == out + [cp] + more.value;
    }
  }

  lemma ContinueEnds(out: seq<Scalar>, bytes: seq<Byte>, endian: Endian)
    ensures Continue(out, WordsOf(bytes[|bytes|..], endian)) == Ok(out)
    ensures bytes == [] ==> Continue(out, WithoutMark(WordsOf(bytes, endian), BOM)) == Ok(out)
  {
    assert out + [] == out;
    assert WordsOf([], endian) == [];
  }

  /** What was decoded so far, then the rest. */
  function Continue(out: seq<Scalar>, words: seq<Word>): Result<seq<Scalar>, EncodingError> {
    var rest := FromWords(words);
    if rest.Err? then rest else Ok(out + rest.value)
  }

  method Decode(bytes: seq<Byte>) returns (r: Result<seq<Scalar>, EncodingError>)
    ensures r == Decoded(bytes)
  {
    match DetectEncoding(bytes)
    case Utf8 => r := FromUtf8(bytes);
    case Utf16Le => r := FromUtf16(bytes, Little);
    case Utf16Be => r := FromUtf16(bytes, Big);
    case Utf32Le => r := DecodeUtf32(bytes, Little);
    case Utf32Be => r := DecodeUtf32(bytes, Big);
  }
}
