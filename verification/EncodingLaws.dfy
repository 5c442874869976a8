/** Encoders, and what decoding makes of their output. */
module EncodingLaws {
  import opened Bytes
  import opened Wrappers
  import opened Encodings
  import Codec = Utf8

  function UnitsOfChar(c: Scalar): seq<Unit> {
    if c < 0x1_0000 then [c] else [0xD800 + (c - 0x1_0000) / 0x400, 0xDC00 + (c - 0x1_0000) % 0x400]
  }

  function ToUnits(cs: seq<Scalar>): seq<Unit> {
    if cs == [] then [] else UnitsOfChar(cs[0]) + ToUnits(cs[1..])
  }

  function ToWords(cs: seq<Scalar>): seq<Word> {
    if cs == [] then [] else [cs[0]] + ToWords(cs[1..])
  }

  function EncodeAs(cs: seq<Scalar>, encoding: Encoding): seq<Byte> {
    match encoding
    case Utf8 => Codec.Encode(cs)
    case Utf16Le => UnitsToBytes(ToUnits(cs), Little)
    case Utf16Be => UnitsToBytes(ToUnits(cs), Big)
    case Utf32Le => WordsToBytes(ToWords(cs), Little)
    case Utf32Be => WordsToBytes(ToWords(cs), Big)
  }

  // ----- Code units and bytes -----

  lemma {:induction false} UnitsThroughBytes(units: seq<Unit>, endian: Endian)
    ensures |UnitsToBytes(units, endian)| == 2 * |units|
    ensures UnitsOf(UnitsToBytes(units, endian), endian) == units
  {
    if units != [] {
      var bytes := UnitsToBytes(units, endian);
      UnitsThroughBytes(units[1..], endian);
      assert bytes[2..] == UnitsToBytes(units[1..], endian);
    }
  }

  lemma {:induction false} BytesThroughUnits(bytes: seq<Byte>, endian: Endian)
    requires |bytes| % 2 == 0
    ensures UnitsToBytes(UnitsOf(bytes, endian), endian) == bytes
  {
    if bytes != [] {
      var units := UnitsOf(bytes, endian);
      BytesThroughUnits(bytes[2..], endian);
      assert units[1..] == UnitsOf(bytes[2..], endian);
      assert UnitBytes(units[0], endian) == bytes[..2];
    }
  }

  lemma WordThroughBytes(w: Word, endian: Endian)
    ensures var b := WordBytes(w, endian); |b| == 4 && WordOf(b[0], b[1], b[2], b[3], endian) == w
  {
  }

  lemma {:induction false} WordsThroughBytes(words: seq<Word>, endian: Endian)
    ensures |WordsToBytes(words, endian)| == 4 * |words|
    ensures WordsOf(WordsToBytes(words, endian), endian) == words
  {
    hide WordBytes;
    hide WordOf;
    if words != [] {
      var bytes := WordsToBytes(words, endian);
      WordThroughBytes(words[0], endian);
      WordsThroughBytes(words[1..], endian);
      assert bytes[4..] == WordsToBytes(words[1..], endian);
    }
  }

  lemma BytesThroughWord(a: Byte, b: Byte, c: Byte, d: Byte, endian: Endian)
    ensures WordBytes(WordOf(a, b, c, d, endian), endian) == [a, b, c, d]
  {
    BytesThroughUnit(a, b, endian);
    BytesThroughUnit(c, d, endian);
    hide UnitOf;
    hide UnitBytes;
    var first, second := UnitOf(a, b, endian), UnitOf(c, d, endian);
    var w := WordOf(a, b, c, d, endian);
    if endian.Little? {
      assert w % 0x1_0000 == first && w / 0x1_0000 == second;
    } else {
      assert w / 0x1_0000 == first && w % 0x1_0000 == second;
    }
  }

  lemma BytesThroughUnit(a: Byte, b: Byte, endian: Endian)
    ensures UnitBytes(UnitOf(a, b, endian), endian) == [a, b]
  {
    var u := UnitOf(a, b, endian);
    if endian.Little? {
      assert u % 0x100 == a && u / 0x100 == b;
    } else {
      assert u / 0x100 == a && u % 0x100 == b;
    }
  }

  lemma {:induction false} BytesThroughWords(bytes: seq<Byte>, endian: Endian)
    requires |bytes| % 4 == 0
    ensures WordsToBytes(WordsOf(bytes, endian), endian) == bytes
  {
    hide WordBytes;
    hide WordOf;
    if bytes != [] {
      var words := WordsOf(bytes, endian);
      BytesThroughWord(bytes[0], bytes[1], bytes[2], bytes[3], endian);
      BytesThroughWords(bytes[4..], endian);
      assert words[1..] == WordsOf(bytes[4..], endian);
      assert bytes[..4] == [bytes[0], bytes[1], bytes[2], bytes[3]];
    }
  }

  // ----- Characters and code units -----

  lemma {:induction false} FromUnitsUndoesToUnits(cs: seq<Scalar>)
    ensures FromUnits(ToUnits(cs)) == Ok(cs)
  {
    if cs != [] {
      var units := ToUnits(cs);
      var n := |UnitsOfChar(cs[0])|;
      FromUnitsUndoesToUnits(cs[1..]);
      assert units[n..] == ToUnits(cs[1..]);
      assert [cs[0]] + cs[1..] == cs;
    }
  }

  lemma {:induction false} ToUnitsUndoesFromUnits(units: seq<Unit>)
    requires FromUnits(units).Ok?
    ensures ToUnits(FromUnits(units).value) == units
  {
    if units != [] {
      var cs := FromUnits(units).value;
      if !IsHigh(units[0]) {
        ToUnitsUndoesFromUnits(units[1..]);
        assert cs[1..] == FromUnits(units[1..]).value;
      } else {
        ToUnitsUndoesFromUnits(units[2..]);
        assert cs[1..] == FromUnits(units[2..]).value;
        assert units == [units[0], units[1]] + units[2..];
      }
    }
  }

  lemma {:induction false} FromWordsUndoesToWords(cs: seq<Scalar>)
    ensures FromWords(ToWords(cs)) == Ok(cs)
    ensures |ToWords(cs)| == |cs|
  {
    if cs != [] {
      FromWordsUndoesToWords(cs[1..]);
      assert ToWords(cs)[1..] == ToWords(cs[1..]);
      assert [cs[0]] + cs[1..] == cs;
    }
  }

  lemma {:induction false} ToWordsUndoesFromWords(words: seq<Word>)
    requires FromWords(words).Ok?
    ensures ToWords(FromWords(words).value) == words
    ensures |FromWords(words).value| == |words|
  {
    if words != [] {
      ToWordsUndoesFromWords(words[1..]);
      assert FromWords(words).value[1..] == FromWords(words[1..]).value;
    }
  }

  lemma {:induction false} UnitCount(cs: seq<Scalar>)
    ensures |cs| <= |ToUnits(cs)| <= 2 * |cs|
  {
    if cs != [] {
      UnitCount(cs[1..]);
    }
  }

  // ----- Decoding in the right encoding -----

  function Marked(cs: seq<Scalar>): seq<Scalar> {
    [BOM] + cs
  }

  /** In the encoding it was written in, a marked text decodes to itself. */
  lemma DecodeMarked(cs: seq<Scalar>, encoding: Encoding)
    ensures DecodeAs(EncodeAs(Marked(cs), encoding), encoding) == Ok(cs)
  {
    hide UnitsToBytes;
    hide UnitsOf;
    hide WordsToBytes;
    hide WordsOf;
    hide Codec.Encode;
    hide Codec.Decode;
    var marked := Marked(cs);
    assert marked[1..] == cs;
    if encoding.Utf8? {
      Codec.DecodeUndoesEncode(marked);
    } else if encoding.Utf16Le? || encoding.Utf16Be? {
      UnitsThroughBytes(ToUnits(marked), if encoding.Utf16Le? then Little else Big);
      assert ToUnits(marked) == [BOM] + ToUnits(cs);
      FromUnitsUndoesToUnits(cs);
    } else {
      WordsThroughBytes(ToWords(marked), if encoding.Utf32Le? then Little else Big);
      assert ToWords(marked) == [BOM] + ToWords(cs);
      FromWordsUndoesToWords(cs);
    }
  }

  /** So does an unmarked text that does not itself start with a mark. */
  lemma DecodeUnmarked(cs: seq<Scalar>, encoding: Encoding)
    requires cs == [] || cs[0] != BOM
    ensures DecodeAs(EncodeAs(cs, encoding), encoding) == Ok(cs)
  {
    hide UnitsToBytes;
    hide UnitsOf;
    hide WordsToBytes;
    hide WordsOf;
    hide Codec.Encode;
    hide Codec.Decode;
    if encoding.Utf8? {
      Codec.DecodeUndoesEncode(cs);
    } else if encoding.Utf16Le? || encoding.Utf16Be? {
      UnitsThroughBytes(ToUnits(cs), if encoding.Utf16Le? then Little else Big);
      FromUnitsUndoesToUnits(cs);
    } else {
      WordsThroughBytes(ToWords(cs), if encoding.Utf32Le? then Little else Big);
      FromWordsUndoesToWords(cs);
    }
  }

  /**
   Decoding is faithful on every input: what it returns, written back in the
   detected encoding with or without a mark, is the input.
   */
  lemma DecodedIsFaithful(bytes: seq<Byte>)
    requires Decoded(bytes).Ok?
    ensures var cs, encoding := Decoded(bytes).value, DetectEncoding(bytes);
            bytes == EncodeAs(cs, encoding) || bytes == EncodeAs(Marked(cs), encoding)
  {
    DecodeAsIsFaithful(bytes, DetectEncoding(bytes));
  }

  lemma DecodeAsIsFaithful(bytes: seq<Byte>, encoding: Encoding)
    requires DecodeAs(bytes, encoding).Ok?
    ensures var cs := DecodeAs(bytes, encoding).value;
            bytes == EncodeAs(cs, encoding) || bytes == EncodeAs(Marked(cs), encoding)
  {
    hide UnitsToBytes;
    hide UnitsOf;
    hide WordsToBytes;
    hide WordsOf;
    hide Codec.Encode;
    hide Codec.Decode;
    var cs := DecodeAs(bytes, encoding).value;
    assert Marked(cs)[1..] == cs;
    if encoding.Utf8? {
      Codec.OnlyEncodingsDecode(bytes);
      var all := Codec.Decode(bytes).value;
      assert all == cs || all == Marked(cs);
    } else if encoding.Utf16Le? || encoding.Utf16Be? {
      var endian := if encoding.Utf16Le? then Little else Big;
      var units := UnitsOf(bytes, endian);
      BytesThroughUnits(bytes, endian);
      ToUnitsUndoesFromUnits(WithoutMark(units, BOM));
      assert units == ToUnits(cs) || units == [BOM] + ToUnits(cs);
      assert ToUnits(Marked(cs)) == [BOM] + ToUnits(cs);
    } else {
      var endian := if encoding.Utf32Le? then Little else Big;
      var words := WordsOf(bytes, endian);
      BytesThroughWords(bytes, endian);
      ToWordsUndoesFromWords(WithoutMark(words, BOM));
      assert words == ToWords(cs) || words == [BOM] + ToWords(cs);
      assert ToWords(Marked(cs)) == [BOM] + ToWords(cs);
    }
  }

  // ----- Detecting the right encoding -----

  /** The first bytes of a text in UTF-16: its first two code units. */
  lemma FirstUnits(cs: seq<Scalar>, endian: Endian)
    requires cs != []
    ensures var units, bytes := ToUnits(cs), UnitsToBytes(ToUnits(cs), endian);
            && 2 * |units| == |bytes|
            && bytes[..2] == UnitBytes(units[0], endian)
            && (|units| >= 2 ==> bytes[2..4] == UnitBytes(units[1], endian))
            && (units[0] == 0 <==> cs[0] == 0)
            && (cs[0] < 0x1_0000 ==> units[0] == cs[0] && units[1..] == ToUnits(cs[1..]))
  {
    var units := ToUnits(cs);
    UnitsThroughBytes(units, endian);
    if |units| >= 2 {
      var rest := UnitsToBytes(units[1..], endian);
      assert UnitsToBytes(units, endian) == UnitBytes(units[0], endian) + rest;
      assert rest == UnitBytes(units[1], endian) + UnitsToBytes(units[1..][1..], endian);
    }
  }

  /** The first bytes of a text in UTF-32: its first character. */
  lemma FirstWord(cs: seq<Scalar>, endian: Endian)
    requires cs != []
    ensures var bytes := WordsToBytes(ToWords(cs), endian); |bytes| >= 4 && bytes[..4] == WordBytes(cs[0], endian)
  {
    hide WordBytes;
    WordThroughBytes(cs[0], endian);
  }

  /**
   A marked text is taken for what it is, with one exception: a UTF-16LE text
   that begins with NUL, whose mark and NUL together read as the UTF-32LE mark.
   */
  lemma MarkedIsDetected(cs: seq<Scalar>, encoding: Encoding)
    ensures DetectEncoding(EncodeAs(Marked(cs), encoding)) ==
            if encoding.Utf16Le? && cs != [] && cs[0] == 0 then Utf32Le else encoding
  {
    hide UnitsToBytes;
    hide WordsToBytes;
    hide ToWords;
    var marked := Marked(cs);
    var bytes := EncodeAs(marked, encoding);
    assert marked[1..] == cs;
    if encoding.Utf8? {
      assert bytes == Codec.EncodeChar(BOM) + Codec.Encode(cs);
      assert bytes[0] == 0xEF && bytes[1] == 0xBB;
    } else if encoding.Utf16Le? || encoding.Utf16Be? {
      var endian := if encoding.Utf16Le? then Little else Big;
      FirstUnits(marked, endian);
      assert bytes[..2] == if encoding.Utf16Le? then [0xFF, 0xFE] else [0xFE, 0xFF];
      assert bytes[0] == bytes[..2][0] && bytes[1] == bytes[..2][1];
      if cs != [] {
        SecondUnit(cs, endian);
        assert bytes[2] == bytes[2..4][0] && bytes[3] == bytes[2..4][1];
        assert bytes[..4] == bytes[..2] + bytes[2..4];
      }
    } else {
      FirstWord(marked, if encoding.Utf32Le? then Little else Big);
      assert bytes[..4] == if encoding.Utf32Le? then [0xFF, 0xFE, 0x00, 0x00] else [0x00, 0x00, 0xFE, 0xFF];
    }
  }

  /** A code unit is two NUL bytes exactly when it is NUL. */
  lemma SecondUnit(cs: seq<Scalar>, endian: Endian)
    requires cs != []
    ensures ToUnits(cs) != [] && (ToUnits(cs)[0] == 0 <==> cs[0] == 0)
    ensures UnitBytes(ToUnits(cs)[0], endian) == [0, 0] <==> cs[0] == 0
  {
  }

  /**
   An unmarked text that begins with an ASCII character other than NUL is taken
   for what it is unless its second character is NUL and the encoding is UTF-8
   or UTF-16LE: then it is taken for UTF-32LE or UTF-16LE.
   */
  lemma UnmarkedIsDetected(cs: seq<Scalar>, encoding: Encoding)
    requires cs != [] && 0 < cs[0] < 0x80
    ensures DetectEncoding(EncodeAs(cs, encoding)) == encoding <==> !HidesEncoding(cs, encoding)
    ensures HidesEncoding(cs, encoding) ==> DetectEncoding(EncodeAs(cs, encoding)) == TakenFor(cs, encoding)
  {
    hide UnitsToBytes;
    hide WordsToBytes;
    hide ToWords;
    var bytes := EncodeAs(cs, encoding);
    if encoding.Utf8? {
      Utf8IsDetected(cs);
    } else if encoding.Utf16Le? || encoding.Utf16Be? {
      var endian := if encoding.Utf16Le? then Little else Big;
      FirstUnits(cs, endian);
      assert bytes[0] == bytes[..2][0] && bytes[1] == bytes[..2][1];
      if |cs| >= 2 {
        SecondUnit(cs[1..], endian);
        assert ToUnits(cs)[1] == ToUnits(cs[1..])[0];
        assert bytes[2] == bytes[2..4][0] && bytes[3] == bytes[2..4][1];
      }
    } else {
      FirstWord(cs, if encoding.Utf32Le? then Little else Big);
      assert bytes[0] == bytes[..4][0] && bytes[1] == bytes[..4][1] && bytes[2] == bytes[..4][2]
        && bytes[3] == bytes[..4][3];
    }
  }

  /** What a text whose second character is NUL is taken for. */
  function TakenFor(cs: seq<Scalar>, encoding: Encoding): Encoding {
    if encoding.Utf16Le? || (|cs| >= 4 && cs[2] == 0 && cs[3] == 0) then Utf32Le else Utf16Le
  }

  predicate HidesEncoding(cs: seq<Scalar>, encoding: Encoding) {
    (encoding.Utf8? || encoding.Utf16Le?) && |cs| >= 2 && cs[1] == 0
  }

  lemma Utf8IsDetected(cs: seq<Scalar>)
    requires cs != [] && 0 < cs[0] < 0x80
    ensures var detected := DetectEncoding(Codec.Encode(cs));
            if HidesEncoding(cs, Utf8) then detected == TakenFor(cs, Utf8) else detected.Utf8?
  {
    hide Codec.Encode;
    FirstBytes(cs);
    AsciiFirst(Codec.Encode(cs));
    if HidesEncoding(cs, Utf8) {
      NextBytes(cs);
    }
  }

  /** An encoded text begins with NUL if and only if the text does, and goes on behind an ASCII character. */
  lemma BeginsAlike(cs: seq<Scalar>)
    ensures Codec.Encode(cs) == [] <==> cs == []
    ensures cs != [] ==> (Codec.Encode(cs)[0] == 0 <==> cs[0] == 0)
    ensures cs != [] && cs[0] < 0x80 ==> Codec.Encode(cs)[0] == cs[0] && Codec.Encode(cs)[1..] == Codec.Encode(cs[1..])
  {
    hide Codec.EncodeChar;
    if cs != [] {
      FirstByte(cs[0]);
    }
  }

  lemma FirstBytes(cs: seq<Scalar>)
    requires cs != [] && 0 < cs[0] < 0x80
    ensures var bytes := Codec.Encode(cs);
            && bytes != [] && bytes[0] == cs[0]
            && (|bytes| >= 2 && bytes[1] == 0 <==> |cs| >= 2 && cs[1] == 0)
  {
    hide Codec.Encode;
    BeginsAlike(cs);
    BeginsAlike(cs[1..]);
    var bytes := Codec.Encode(cs);
    assert |bytes| >= 2 ==> bytes[1] == bytes[1..][0];
  }

  lemma NextBytes(cs: seq<Scalar>)
    requires |cs| >= 2 && 0 < cs[0] < 0x80 && cs[1] == 0
    ensures var bytes := Codec.Encode(cs);
            |bytes| >= 4 && bytes[2] == 0 && bytes[3] == 0 <==> |cs| >= 4 && cs[2] == 0 && cs[3] == 0
  {
    hide Codec.Encode;
    var bytes := Codec.Encode(cs);
    BeginsAlike(cs);
    BeginsAlike(cs[1..]);
    assert bytes[2..] == bytes[1..][1..] && cs[1..][1..] == cs[2..];
    BeginsAlike(cs[2..]);
    assert |bytes| >= 3 ==> bytes[2] == bytes[2..][0];
    if |cs| >= 3 && cs[2] == 0 {
      assert bytes[3..] == bytes[2..][1..] && cs[2..][1..] == cs[3..];
      BeginsAlike(cs[3..]);
      assert |bytes| >= 4 ==> bytes[3] == bytes[3..][0];
    }
  }

  lemma AsciiFirst(bytes: seq<Byte>)
    requires bytes != [] && 0 < bytes[0] < 0x80
    ensures DetectEncoding(bytes) ==
            if |bytes| < 2 || bytes[1] != 0 then Utf8
            else if |bytes| >= 4 && bytes[2] == 0 && bytes[3] == 0 then Utf32Le
            else Utf16Le
  {
    NoMark(bytes, [0x00, 0x00, 0xFE, 0xFF]);
    NoMark(bytes, [0xFF, 0xFE, 0x00, 0x00]);
    NoMark(bytes, [0xFE, 0xFF]);
    NoMark(bytes, [0xFF, 0xFE]);
    hide StartsWith;
  }

  lemma NoMark(bytes: seq<Byte>, mark: seq<Byte>)
    requires bytes != [] && mark != [] && bytes[0] != mark[0]
    ensures !StartsWith(bytes, mark)
  {
    if |mark| <= |bytes| {
      assert bytes[..|mark|][0] == bytes[0];
    }
  }

  lemma FirstByte(c: Scalar)
    ensures c < 0x80 ==> Codec.EncodeChar(c) == [c]
    ensures Codec.EncodeChar(c)[0] == 0 <==> c == 0
  {
  }

  // ----- Round trips -----

  /** Taken for UTF-32LE, a UTF-16LE text can only decode to fewer characters. */
  lemma TooFewWords(bytes: seq<Byte>, cs: seq<Scalar>)
    requires |bytes| < 4 * |cs|
    ensures DecodeAs(bytes, Utf32Le) != Ok(cs)
  {
    if DecodeAs(bytes, Utf32Le).Ok? {
      var words := WordsOf(bytes, Little);
      BytesThroughWords(bytes, Little);
      WordsThroughBytes(words, Little);
      ToWordsUndoesFromWords(WithoutMark(words, BOM));
    }
  }

  /**
   Decode undoes encode: with a mark, for every text and every encoding, but
   for a UTF-16LE text that begins with NUL, which never comes back.
   */
  lemma MarkedRoundTrip(cs: seq<Scalar>, encoding: Encoding)
    ensures Decoded(EncodeAs(Marked(cs), encoding)) == Ok(cs) <==> !(encoding.Utf16Le? && cs != [] && cs[0] == 0)
  {
    hide DecodeAs;
    hide EncodeAs;
    hide DetectEncoding;
    MarkedIsDetected(cs, encoding);
    DecodeMarked(cs, encoding);
    if encoding.Utf16Le? && cs != [] && cs[0] == 0 {
      NulAfterMarkIsLost(cs);
    }
  }

  lemma NulAfterMarkIsLost(cs: seq<Scalar>)
    requires cs != [] && cs[0] == 0
    ensures DecodeAs(EncodeAs(Marked(cs), Utf16Le), Utf32Le) != Ok(cs)
  {
    var bytes := EncodeAs(Marked(cs), Utf16Le);
    assert Marked(cs)[1..] == cs;
    assert ToUnits(Marked(cs)) == [BOM] + ToUnits(cs);
    UnitsThroughBytes(ToUnits(Marked(cs)), Little);
    UnitCount(cs[1..]);
    assert |bytes| <= 2 * (2 + 2 * (|cs| - 1)) == 4 * |cs|;
    FirstWordIsTheMark(cs);
    if DecodeAs(bytes, Utf32Le).Ok? {
      var words := WordsOf(bytes, Little);
      BytesThroughWords(bytes, Little);
      WordsThroughBytes(words, Little);
      ToWordsUndoesFromWords(words[1..]);
    }
  }

  lemma FirstWordIsTheMark(cs: seq<Scalar>)
    requires cs != [] && cs[0] == 0
    ensures var words := WordsOf(EncodeAs(Marked(cs), Utf16Le), Little); words != [] && words[0] == BOM
  {
    var bytes := EncodeAs(Marked(cs), Utf16Le);
    assert Marked(cs)[1..] == cs;
    FirstUnits(Marked(cs), Little);
    assert bytes[0] == bytes[..2][0] && bytes[1] == bytes[..2][1];
    assert bytes[2] == bytes[2..4][0] && bytes[3] == bytes[2..4][1];
  }

  /**
   Without a mark, decode undoes encode for the empty text and for every text
   that begins with an ASCII character other than NUL, exactly when no NUL
   follows that character in UTF-8 or UTF-16LE.
   */
  lemma UnmarkedRoundTrip(cs: seq<Scalar>, encoding: Encoding)
    requires cs != [] ==> 0 < cs[0] < 0x80
    ensures Decoded(EncodeAs(cs, encoding)) == Ok(cs) <==> !HidesEncoding(cs, encoding)
  {
    if cs == [] {
      assert EncodeAs(cs, encoding) == [];
    } else {
      hide DecodeAs;
      hide EncodeAs;
      hide DetectEncoding;
      UnmarkedIsDetected(cs, encoding);
      DecodeUnmarked(cs, encoding);
      if HidesEncoding(cs, encoding) {
        HiddenIsLost(cs, encoding);
      }
    }
  }

  /** A text that begins with a character beyond ASCII begins with two bytes that are not NUL, and no mark. */
  lemma LeadIsNoPattern(c: Scalar)
    requires c >= 0x80
    ensures var bytes := Codec.EncodeChar(c); |bytes| >= 2 && 0xC2 <= bytes[0] < 0xF5 && 0x80 <= bytes[1] < 0xC0
  {
  }

  lemma BeyondAsciiIsUtf8(bytes: seq<Byte>)
    requires |bytes| >= 2 && 0xC2 <= bytes[0] < 0xF5 && 0x80 <= bytes[1] < 0xC0
    ensures DetectEncoding(bytes).Utf8?
  {
    NoMark(bytes, [0x00, 0x00, 0xFE, 0xFF]);
    NoMark(bytes, [0xFF, 0xFE, 0x00, 0x00]);
    NoMark(bytes, [0xFE, 0xFF]);
    NoMark(bytes, [0xFF, 0xFE]);
    hide StartsWith;
  }

  /**
   In UTF-8 every text comes back that begins with neither NUL nor the mark, in
   whatever script, unless its first character is ASCII and the second is NUL.
   */
  lemma UnmarkedUtf8RoundTrip(cs: seq<Scalar>)
    requires cs != [] ==> cs[0] != 0 && cs[0] != BOM
    ensures Decoded(EncodeAs(cs, Utf8)) == Ok(cs) <==> !(|cs| >= 2 && cs[0] < 0x80 && cs[1] == 0)
  {
    if cs == [] || cs[0] < 0x80 {
      hide *;
      UnmarkedRoundTrip(cs, Utf8);
      HidesInUtf8(cs);
    } else {
      hide DecodeAs;
      hide DetectEncoding;
      DecodeUnmarked(cs, Utf8);
      LeadIsNoPattern(cs[0]);
      hide Codec.EncodeChar;
      var bytes := Codec.Encode(cs);
      assert bytes == Codec.EncodeChar(cs[0]) + Codec.Encode(cs[1..]);
      BeyondAsciiIsUtf8(bytes);
    }
  }

  lemma HidesInUtf8(cs: seq<Scalar>)
    ensures HidesEncoding(cs, Utf8) <==> |cs| >= 2 && cs[1] == 0
  {
  }

  // ----- What cannot be decoded -----

  predicate IsUnpaired(u: Unit, rest: seq<Unit>) {
    IsLow(u) || (IsHigh(u) && (rest == [] || !IsLow(rest[0])))
  }

  /** UTF-16 fails at the first unpaired surrogate, and with it. */
  lemma {:induction false} FromUnitsFails(units: seq<Unit>) returns (cs: seq<Scalar>, u: Unit, rest: seq<Unit>)
    requires FromUnits(units).Err?
    ensures units == ToUnits(cs) + ([u] + rest) && IsUnpaired(u, rest) && FromUnits(units) == Err(InvalidCodepoint(u))
  {
    if IsHigh(units[0]) || IsLow(units[0]) {
      if IsUnpaired(units[0], units[1..]) {
        cs, u, rest := [], units[0], units[1..];
        return;
      }
    }
    var n := if IsHigh(units[0]) then 2 else 1;
    var more;
    more, u, rest := FromUnitsFails(units[n..]);
    var c := if n == 1 then units[0]
             else 0x1_0000 + (units[0] as int - 0xD800) * 0x400 + (units[1] as int - 0xDC00);
    cs := [c] + more;
    assert cs[1..] == more && UnitsOfChar(c) == units[..n];
  }

  /** UTF-32 fails at the first word that is no character, and with it. */
  lemma {:induction false} FromWordsFails(words: seq<Word>) returns (cs: seq<Scalar>, w: Word, rest: seq<Word>)
    requires FromWords(words).Err?
    ensures words == ToWords(cs) + ([w] + rest) && (0xD800 <= w < 0xE000 || w >= 0x11_0000)
    ensures FromWords(words) == Err(InvalidCodepoint(w))
  {
    if words[0] < 0xD800 || 0xE000 <= words[0] < 0x11_0000 {
      var more;
      more, w, rest := FromWordsFails(words[1..]);
      cs := [words[0]] + more;
      assert cs[1..] == more;
    } else {
      cs, w, rest := [], words[0], words[1..];
    }
  }

  /**
   The errors: bytes that are no UTF-8, a code unit that is cut off, or else a
   code unit that stands for no character.
   */
  lemma DecodingFails(bytes: seq<Byte>)
    ensures var r, encoding := Decoded(bytes), DetectEncoding(bytes);
            && (encoding.Utf8? ==> (r.Err? <==> r == Err(InvalidBytes)))
            && (encoding.Utf16Le? || encoding.Utf16Be? ==>
                  && (|bytes| % 2 != 0 <==> r == Err(TruncatedUtf16))
                  && (r.Err? && |bytes| % 2 == 0 ==> r.error.InvalidCodepoint?))
            && (encoding.Utf32Le? || encoding.Utf32Be? ==>
                  && (|bytes| % 4 != 0 <==> r == Err(TruncatedUtf32))
                  && (r.Err? && |bytes| % 4 == 0 ==> r.error.InvalidCodepoint?))
  {
    hide DetectEncoding;
    hide UnitsOf;
    hide WordsOf;
    hide Codec.Decode;
    var endian := if DetectEncoding(bytes).Utf16Le? || DetectEncoding(bytes).Utf32Le? then Little else Big;
    var units, words := WithoutMark(UnitsOf(bytes, endian), BOM), WithoutMark(WordsOf(bytes, endian), BOM);
    if FromUnits(units).Err? {
      var _, _, _ := FromUnitsFails(units);
    }
    if FromWords(words).Err? {
      var _, _, _ := FromWordsFails(words);
    }
  }

  lemma HiddenIsLost(cs: seq<Scalar>, encoding: Encoding)
    requires cs != [] && 0 < cs[0] < 0x80 && HidesEncoding(cs, encoding)
    ensures Decoded(EncodeAs(cs, encoding)) != Ok(cs)
  {
    hide UnitsToBytes;
    var bytes := EncodeAs(cs, encoding);
    UnmarkedIsDetected(cs, encoding);
    if encoding.Utf16Le? {
      FirstUnits(cs, Little);
      UnitCount(cs[2..]);
      assert cs[1..][1..] == cs[2..];
      TooFewWords(bytes, cs);
    } else {
      assert cs[1..][1..] == cs[2..];
      assert bytes == Codec.EncodeChar(cs[0]) + Codec.Encode(cs[1..]);
      assert Codec.Encode(cs[1..]) == Codec.EncodeChar(cs[1]) + Codec.Encode(cs[1..][1..]);
      Codec.EncodedLength(cs[2..]);
      TooFewWords(bytes, cs);
      if DetectEncoding(bytes).Utf16Le? {
        NoNulSecond(bytes, cs);
      }
    }
  }

  /** Taken for UTF-16LE, two ASCII bytes read as one character, and NUL cannot come next. */
  lemma NoNulSecond(bytes: seq<Byte>, cs: seq<Scalar>)
    requires |bytes| >= 2 && 0 < bytes[0] < 0x80 && bytes[1] == 0 && DetectEncoding(bytes).Utf16Le?
    requires |cs| >= 2 && cs[1] == 0
    ensures DecodeAs(bytes, Utf16Le) != Ok(cs)
  {
    if DecodeAs(bytes, Utf16Le).Ok? && |DecodeAs(bytes, Utf16Le).value| >= 2 {
      SecondCharIsNotNul(bytes);
    }
  }

  lemma SecondCharIsNotNul(bytes: seq<Byte>)
    requires |bytes| >= 2 && 0 < bytes[0] < 0x80 && bytes[1] == 0 && DetectEncoding(bytes).Utf16Le?
    requires DecodeAs(bytes, Utf16Le).Ok? && |DecodeAs(bytes, Utf16Le).value| >= 2
    ensures DecodeAs(bytes, Utf16Le).value[1] != 0
  {
    hide FromUnits;
    var units := UnitsOf(bytes, Little);
    assert units[0] == bytes[0];
    assert units[1..] == UnitsOf(bytes[2..], Little);
    if |units| >= 2 {
      assert units[1] == UnitOf(bytes[2], bytes[3], Little);
    }
    SecondDecoded(units);
  }

  lemma SecondDecoded(units: seq<Unit>)
    requires units != [] && 0 < units[0] < 0x80 && (|units| >= 2 ==> units[1] != 0)
    requires FromUnits(units).Ok? && |FromUnits(units).value| >= 2
    ensures FromUnits(units).value[1] != 0
  {
    assert FromUnits(units) == Prepend(units[0], FromUnits(units[1..]));
  }
}
