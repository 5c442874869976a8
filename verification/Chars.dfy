/** The character classes the scanners enforce, checked byte by byte. */
module Chars {
  import opened Bytes
  import opened Wrappers
  import Utf8

  // ----- Section 5.1 of YAML 1.2.2 -----

  predicate IsCPrintable(c: Scalar) {
    || c == 0x09 || c == 0x0A || c == 0x0D
    || 0x20 <= c <= 0x7E
    || c == 0x85
    || 0xA0 <= c <= 0xD7FF
    || 0xE000 <= c <= 0xFFFD
    || 0x1_0000 <= c <= 0x10_FFFF
  }

  predicate IsNbJson(c: Scalar) {
    c == 0x09 || 0x20 <= c <= 0x10_FFFF
  }

  /** Line content is printable and has no break: the line splitter took those out. */
  predicate IsLineContent(c: Scalar) {
    IsCPrintable(c) && c != LF && c != CR
  }

  /** `found` is the byte offset and the value of the first character of `cs` that is not allowed. */
  ghost predicate IsFirstBad(cs: seq<Scalar>, allowed: Scalar -> bool, found: Option<(nat, Scalar)>) {
    if found.None? then forall j :: 0 <= j < |cs| ==> allowed(cs[j])
    else exists k :: IsBadAt(cs, allowed, found.value, k)
  }

  ghost predicate IsBadAt(cs: seq<Scalar>, allowed: Scalar -> bool, found: (nat, Scalar), k: nat) {
    && k < |cs|
    && found == (|Utf8.Encode(cs[..k])|, cs[k])
    && !allowed(cs[k])
    && forall j :: 0 <= j < k ==> allowed(cs[j])
  }

  // ----- Where the scan stands -----

  /** The scan is at character `k` and has passed only allowed ones. */
  ghost predicate At(bytes: seq<Byte>, cs: seq<Scalar>, allowed: Scalar -> bool, i: nat, k: nat) {
    && k <= |cs|
    && i <= |bytes|
    && i == |Utf8.Encode(cs[..k])|
    && bytes[i..] == Utf8.Encode(cs[k..])
    && forall j :: 0 <= j < k ==> allowed(cs[j])
  }

  lemma Begins(bytes: seq<Byte>, cs: seq<Scalar>, allowed: Scalar -> bool)
    requires bytes == Utf8.Encode(cs)
    ensures At(bytes, cs, allowed, 0, 0)
  {
    assert cs[0..] == cs;
  }

  /** The next character is what the bytes at the scan position spell. */
  lemma NextIs(bytes: seq<Byte>, cs: seq<Scalar>, allowed: Scalar -> bool, i: nat, k: nat)
    requires At(bytes, cs, allowed, i, k) && i < |bytes|
    ensures k < |cs|
    ensures i + Utf8.Width(cs[k]) <= |bytes|
    ensures forall j :: 0 <= j < Utf8.Width(cs[k]) ==> bytes[i + j] == Utf8.EncodeChar(cs[k])[j]
    ensures Utf8.Head(bytes[i..]) == Some(cs[k])
    ensures allowed(cs[k]) ==> At(bytes, cs, allowed, i + Utf8.Width(cs[k]), k + 1)
    ensures !allowed(cs[k]) ==> IsFirstBad(cs, allowed, Some((i, cs[k])))
  {
    hide Utf8.EncodeChar;
    hide Utf8.Assembled;
    var c, rest := cs[k], Utf8.Encode(cs[k + 1..]);
    assert cs[k..][1..] == cs[k + 1..];
    assert bytes[i..] == Utf8.EncodeChar(c) + rest;
    Utf8.HeadOfEncoded(c, rest);
    assert bytes[i + Utf8.Width(c)..] == rest;
    assert forall j :: 0 <= j < Utf8.Width(c) ==> bytes[i + j] == bytes[i..][j];
    assert cs[..k + 1] == cs[..k] + [c];
    Utf8.EncodeAppend(cs[..k], [c]);
    assert Utf8.Encode([c]) == Utf8.EncodeChar(c) + Utf8.Encode([c][1..]) == Utf8.EncodeChar(c);
    if !allowed(c) {
      assert IsBadAt(cs, allowed, (i, c), k);
    }
  }

  /** What the first bytes of a character say about it. */
  lemma LeadByte(c: Scalar)
    ensures var bytes := Utf8.EncodeChar(c);
            && (bytes[0] < 0x80 <==> c < 0x80)
            && (c < 0x80 ==> bytes[0] == c)
            && (bytes[0] == 0xC2 <==> 0x80 <= c < 0xC0)
            && (bytes[0] == 0xC2 ==> |bytes| == 2 && bytes[1] == c)
            && (bytes[0] == 0xEF <==> 0xF000 <= c < 0x1_0000)
            && (bytes[0] == 0xEF ==> |bytes| == 3)
            && (bytes[0] == 0xEF && bytes[1] == 0xBF && bytes[2] == 0xBE <==> c == 0xFFFE)
            && (bytes[0] == 0xEF && bytes[1] == 0xBF && bytes[2] == 0xBF <==> c == 0xFFFF)
  {
    var q1 := c / 0x40;
    var q2 := q1 / 0x40;
    assert c == q1 * 0x40 + c % 0x40;
    assert q1 == q2 * 0x40 + q1 % 0x40;
  }

  /** Byte offset and value of the first character that may not stand in line content. */
  method FindNonCPrintable(bytes: seq<Byte>) returns (found: Option<(nat, Scalar)>)
    requires Utf8.Decode(bytes).Some?
    ensures IsFirstBad(Utf8.Decode(bytes).value, IsLineContent, found)
  {
    hide Utf8.EncodeChar;
    hide Utf8.Encode;
    hide Utf8.Head;
    ghost var cs := Utf8.Decode(bytes).value;
    Utf8.OnlyEncodingsDecode(bytes);
    hide Utf8.Decode;
    Begins(bytes, cs, IsLineContent);
    var i := 0;
    ghost var k := 0;
    while i < |bytes|
      invariant At(bytes, cs, IsLineContent, i, k)
      decreases |bytes| - i
    {
      NextIs(bytes, cs, IsLineContent, i, k);
      LeadByte(cs[k]);
      hide At;
      hide IsFirstBad;
      var b := bytes[i];
      if b < 0x20 {
        if b != 0x09 {
          return Some((i, b));
        }
        i := i + 1;
      } else if b == 0x7F {
        return Some((i, 0x7F));
      } else if b == 0xC2 && i + 1 < |bytes| {
        var b2 := bytes[i + 1];
        if 0x80 <= b2 <= 0x9F && b2 != 0x85 {
          return Some((i, b2 % 0x40 + 0x80));
        }
        i := i + 2;
      } else if b == 0xEF && i + 2 < |bytes| {
        var b2, b3 := bytes[i + 1], bytes[i + 2];
        if b2 == 0xBF && (b3 == 0xBE || b3 == 0xBF) {
          return Some((i, if b3 == 0xBE then 0xFFFE else 0xFFFF));
        }
        i := i + 3;
      } else if b >= 0x80 {
        var c := Utf8.Head(bytes[i..]).value;
        i := i + Utf8.Width(c);
      } else {
        i := i + 1;
      }
      k := k + 1;
    }
    Ends(bytes, cs, IsLineContent, i, k);
    return None;
  }

  lemma Ends(bytes: seq<Byte>, cs: seq<Scalar>, allowed: Scalar -> bool, i: nat, k: nat)
    requires At(bytes, cs, allowed, i, k) && i == |bytes|
    ensures IsFirstBad(cs, allowed, None)
  {
    assert bytes[i..] == [];
    assert k == |cs|;
  }

  /** Byte offset and value of the first character that may not stand in a quoted scalar. */
  method FindNonNbJson(bytes: seq<Byte>) returns (found: Option<(nat, Scalar)>)
    requires Utf8.Decode(bytes).Some?
    ensures IsFirstBad(Utf8.Decode(bytes).value, IsNbJson, found)
  {
    hide Utf8.EncodeChar;
    hide Utf8.Encode;
    hide Utf8.Head;
    ghost var cs := Utf8.Decode(bytes).value;
    Utf8.OnlyEncodingsDecode(bytes);
    hide Utf8.Decode;
    Begins(bytes, cs, IsNbJson);
    var i := 0;
    ghost var k := 0;
    while i < |bytes|
      invariant At(bytes, cs, IsNbJson, i, k)
      decreases |bytes| - i
    {
      NextIs(bytes, cs, IsNbJson, i, k);
      LeadByte(cs[k]);
      hide At;
      hide IsFirstBad;
      var b := bytes[i];
      if b < 0x20 && b != 0x09 {
        return Some((i, b));
      }
      if b >= 0x80 {
        var c := Utf8.Head(bytes[i..]).value;
        i := i + Utf8.Width(c);
      } else {
        i := i + 1;
      }
      k := k + 1;
    }
    Ends(bytes, cs, IsNbJson, i, k);
    return None;
  }

  // ----- Section 5.7 of YAML 1.2.2: escapes in double-quoted scalars -----

  predicate IsHexDigit(b: Byte) {
    '0' as int <= b <= '9' as int || 'a' as int <= b <= 'f' as int || 'A' as int <= b <= 'F' as int
  }

  function HexValue(b: Byte): (v: nat)
    requires IsHexDigit(b)
    ensures v < 16
  {
    if b <= '9' as int then b - '0' as int
    else if b <= 'F' as int then b - 'A' as int + 10
    else b - 'a' as int + 10
  }

  function HexNumber(digits: seq<Byte>): (n: nat)
    requires forall i :: 0 <= i < |digits| ==> IsHexDigit(digits[i])
  {
    if digits == [] then 0
    else HexNumber(digits[..|digits| - 1]) * 16 + HexValue(digits[|digits| - 1])
  }

  /** The escaped character and how many bytes of `input`, which starts after the backslash, it takes. */
  function DecodeEscape(input: seq<Byte>): Option<(Scalar, nat)> {
    if input == [] then None
    else
      var code := input[0];
      if code >= 0x80 then None
      else
        match code as char
        case '0' => Some((0x00, 1))
        case 'a' => Some((0x07, 1))
        case 'b' => Some((0x08, 1))
        case 't' => Some((0x09, 1))
        case '\t' => Some((0x09, 1))
        case 'n' => Some((0x0A, 1))
        case 'v' => Some((0x0B, 1))
        case 'f' => Some((0x0C, 1))
        case 'r' => Some((0x0D, 1))
        case 'e' => Some((0x1B, 1))
        case ' ' => Some((0x20, 1))
        case '"' => Some((0x22, 1))
        case '/' => Some((0x2F, 1))
        case '\\' => Some((0x5C, 1))
        case 'N' => Some((0x85, 1))
        case '_' => Some((0xA0, 1))
        case 'L' => Some((0x2028, 1))
        case 'P' => Some((0x2029, 1))
        case 'x' => DecodeHexEscape(input, 2)
        case 'u' => DecodeHexEscape(input, 4)
        case 'U' => DecodeHexEscape(input, 8)
        case _ => None
  }

  function DecodeHexEscape(input: seq<Byte>, digitCount: nat): Option<(Scalar, nat)>
    requires input != []
  {
    var rest := input[1..];
    if |rest| < digitCount then None
    else if exists i :: 0 <= i < digitCount && !IsHexDigit(rest[i]) then None
    else
      var n := HexNumber(rest[..digitCount]);
      if n < 0xD800 || 0xE000 <= n < 0x11_0000 then Some((n, 1 + digitCount)) else None
  }

  /** The letter that escapes a character by section 5.7 of YAML 1.2.2, if there is one. */
  function LetterOf(c: Scalar): Option<char> {
    match c as int
    case 0x0 => Some('0')
    case 0x7 => Some('a')
    case 0x8 => Some('b')
    case 0x9 => Some('t')
    case 0xa => Some('n')
    case 0xb => Some('v')
    case 0xc => Some('f')
    case 0xd => Some('r')
    case 0x1b => Some('e')
    case 0x20 => Some(' ')
    case 0x22 => Some('"')
    case 0x2f => Some('/')
    case 0x5c => Some('\\')
    case 0x85 => Some('N')
    case 0xa0 => Some('_')
    case 0x2028 => Some('L')
    case 0x2029 => Some('P')
    case _ => None
  }

  function Power(base: nat, exponent: nat): nat {
    if exponent == 0 then 1 else base * Power(base, exponent - 1)
  }

  function HexDigit(v: nat, upper: bool): (b: Byte)
    requires v < 16
    ensures IsHexDigit(b) && HexValue(b) == v
  {
    if v < 10 then '0' as int + v else if upper then 'A' as int + (v - 10) else 'a' as int + (v - 10)
  }

  function HexDigits(n: nat, count: nat, upper: bool): (digits: seq<Byte>)
    ensures |digits| == count && forall i :: 0 <= i < count ==> IsHexDigit(digits[i])
  {
    if count == 0 then [] else HexDigits(n / 16, count - 1, upper) + [HexDigit(n % 16, upper)]
  }

  lemma {:induction false} HexNumberUndoesHexDigits(n: nat, count: nat, upper: bool)
    requires n < Power(16, count)
    ensures HexNumber(HexDigits(n, count, upper)) == n
  {
    if count > 0 {
      HexNumberUndoesHexDigits(n / 16, count - 1, upper);
      var digits := HexDigits(n, count, upper);
      assert digits[..|digits| - 1] == HexDigits(n / 16, count - 1, upper);
    }
  }

  /** Every character has a hexadecimal escape, and it decodes to that character whatever follows. */
  lemma HexEscapeRoundTrip(c: Scalar, upper: bool, rest: seq<Byte>)
    ensures c < 0x100 ==> DecodeEscape(['x' as int] + HexDigits(c, 2, upper) + rest) == Some((c, 3))
    ensures c < 0x1_0000 ==> DecodeEscape(['u' as int] + HexDigits(c, 4, upper) + rest) == Some((c, 5))
    ensures DecodeEscape(['U' as int] + HexDigits(c, 8, upper) + rest) == Some((c, 9))
  {
    if c < 0x100 {
      HexEscapeDecodes('x' as int, c, 2, upper, rest);
    }
    if c < 0x1_0000 {
      HexEscapeDecodes('u' as int, c, 4, upper, rest);
    }
    HexEscapeDecodes('U' as int, c, 8, upper, rest);
  }

  lemma HexEscapeDecodes(code: Byte, c: Scalar, count: nat, upper: bool, rest: seq<Byte>)
    requires (count == 2 && c < 0x100) || (count == 4 && c < 0x1_0000) || count == 8
    ensures DecodeHexEscape([code] + HexDigits(c, count, upper) + rest, count) == Some((c, 1 + count))
  {
    var input := [code] + HexDigits(c, count, upper) + rest;
    assert input[1..][..count] == HexDigits(c, count, upper);
    assert forall i :: 0 <= i < count ==> input[1..][i] == HexDigits(c, count, upper)[i];
    PowersOf16();
    HexNumberUndoesHexDigits(c, count, upper);
  }

  lemma PowersOf16()
    ensures Power(16, 2) == 0x100 && Power(16, 4) == 0x1_0000 && Power(16, 8) == 0x1_0000_0000
  {
    assert Power(16, 4) == 16 * 16 * Power(16, 2);
    assert Power(16, 8) == 16 * 16 * 16 * 16 * Power(16, 4);
  }

  /**
   A character with a letter comes back from it, whatever follows; and what one
   letter decodes to is what it stands for.  A tab stands for itself too.
   */
  lemma LetterEscapeRoundTrip(c: Scalar, input: seq<Byte>)
    requires input != []
    ensures DecodeEscape(input) == Some((c, 1)) <==>
              (LetterOf(c).Some? && input[0] == LetterOf(c).value as int) || (c == 0x09 && input[0] == 0x09)
  {
  }

  /** Decoding looks at no byte after the ones it consumes. */
  lemma EscapeIsAPrefix(input: seq<Byte>, other: seq<Byte>)
    requires DecodeEscape(input).Some?
    ensures var n := DecodeEscape(input).value.1;
            1 <= n <= |input| && DecodeEscape(input[..n] + other) == DecodeEscape(input)
  {
    var n := DecodeEscape(input).value.1;
    var again := input[..n] + other;
    assert again[0] == input[0];
    if n > 1 {
      assert again[1..][..n - 1] == input[1..][..n - 1];
      assert forall i :: 0 <= i < n - 1 ==> again[1..][i] == input[1..][i];
    }
  }
}
