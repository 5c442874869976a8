/** Bytes and the characters they spell. */
module Bytes {
  type Byte = b: int | 0 <= b < 256

  /** A Unicode scalar value: a code point that is not a surrogate. */
  type Scalar = c: int | 0 <= c < 0xD800 || 0xE000 <= c < 0x11_0000

  const LF := 0x0A
  const CR := 0x0D
  const TAB := 0x09
  const SPACE := 0x20
  const BOM: Scalar := 0xFEFF
}

/** UTF-8: one to four bytes a character, the shortest that will do. */
module Utf8 {
  import opened Bytes
  import opened Wrappers

  function Width(c: Scalar): (n: nat)
    ensures 1 <= n <= 4
  {
    if c < 0x80 then 1 else if c < 0x800 then 2 else if c < 0x1_0000 then 3 else 4
  }

  function EncodeChar(c: Scalar): (bytes: seq<Byte>)
    ensures |bytes| == Width(c)
  {
    if c < 0x80 then [c]
    else if c < 0x800 then [0xC0 + c / 0x40, Low(c)]
    else if c < 0x1_0000 then [0xE0 + c / 0x40 / 0x40, Low(c / 0x40), Low(c)]
    else [0xF0 + c / 0x40 / 0x40 / 0x40, Low(c / 0x40 / 0x40), Low(c / 0x40), Low(c)]
  }

  /** A continuation byte: the six low bits. */
  function Low(n: nat): Byte {
    0x80 + n % 0x40
  }

  function Encode(cs: seq<Scalar>): seq<Byte> {
    if cs == [] then [] else EncodeChar(cs[0]) + Encode(cs[1..])
  }

  /** The bytes after the first of a character, and only those. */
  predicate IsContinuation(b: Byte) {
    0x80 <= b < 0xC0
  }

  /** The first character, when the bytes start with a well-formed one. */
  function Head(bytes: seq<Byte>): (c: Option<Scalar>)
    ensures c.Some? ==> Width(c.value) <= |bytes| && bytes[..Width(c.value)] == EncodeChar(c.value)
  {
    if bytes == [] then None
    else
      var n := if bytes[0] < 0x80 then 1 else if bytes[0] < 0xE0 then 2 else if bytes[0] < 0xF0 then 3 else 4;
      if |bytes| < n then None
      else
        var c := Assembled(bytes[..n]);
        if (0 <= c < 0xD800 || 0xE000 <= c < 0x11_0000) && EncodeChar(c) == bytes[..n] then Some(c) else None
  }

  /** The bits of a character of one to four bytes, put together. */
  function Assembled(bytes: seq<Byte>): int
    requires 1 <= |bytes| <= 4
  {
    var b: seq<int> := bytes;
    match |b|
    case 1 => b[0]
    case 2 => (b[0] - 0xC0) * 0x40 + (b[1] - 0x80)
    case 3 => ((b[0] - 0xE0) * 0x40 + (b[1] - 0x80)) * 0x40 + (b[2] - 0x80)
    case _ => (((b[0] - 0xF0) * 0x40 + (b[1] - 0x80)) * 0x40 + (b[2] - 0x80)) * 0x40 + (b[3] - 0x80)
  }

  function Decode(bytes: seq<Byte>): Option<seq<Scalar>> {
    if bytes == [] then Some([])
    else
      var head := Head(bytes);
      if head.None? then None
      else
        var tail := Decode(bytes[Width(head.value)..]);
        if tail.None? then None else Some([head.value] + tail.value)
  }

  lemma AssembledUndoesEncodeChar(c: Scalar)
    ensures Assembled(EncodeChar(c)) == c
  {
    var q1 := c / 0x40;
    var q2 := q1 / 0x40;
    var q3 := q2 / 0x40;
    assert c == q1 * 0x40 + c % 0x40;
    assert q1 == q2 * 0x40 + q1 % 0x40;
    assert q2 == q3 * 0x40 + q2 % 0x40;
  }

  lemma HeadOfEncoded(c: Scalar, rest: seq<Byte>)
    ensures Head(EncodeChar(c) + rest) == Some(c)
  {
    var bytes := EncodeChar(c) + rest;
    assert bytes[..Width(c)] == EncodeChar(c);
    AssembledUndoesEncodeChar(c);
  }

  /** Decoding undoes encoding, for every text. */
  lemma {:induction false} DecodeUndoesEncode(cs: seq<Scalar>)
    ensures Decode(Encode(cs)) == Some(cs)
  {
    hide EncodeChar;
    if cs != [] {
      HeadOfEncoded(cs[0], Encode(cs[1..]));
      assert Encode(cs)[Width(cs[0])..] == Encode(cs[1..]);
      DecodeUndoesEncode(cs[1..]);
      assert [cs[0]] + cs[1..] == cs;
    }
  }

  /** Only encodings decode: no overlong form, no surrogate, nothing cut off. */
  lemma {:induction false} OnlyEncodingsDecode(bytes: seq<Byte>)
    requires Decode(bytes).Some?
    ensures Encode(Decode(bytes).value) == bytes
  {
    hide EncodeChar;
    hide Assembled;
    if bytes != [] {
      var c := Head(bytes).value;
      var tail := Decode(bytes[Width(c)..]).value;
      OnlyEncodingsDecode(bytes[Width(c)..]);
      assert Decode(bytes).value[1..] == tail;
    }
  }

  lemma {:induction false} EncodeAppend(a: seq<Scalar>, b: seq<Scalar>)
    ensures Encode(a + b) == Encode(a) + Encode(b)
  {
    if a == [] {
      assert a + b == b;
    } else {
      assert (a + b)[1..] == a[1..] + b;
      EncodeAppend(a[1..], b);
    }
  }

  lemma {:induction false} EncodedLength(cs: seq<Scalar>)
    ensures |cs| <= |Encode(cs)| <= 4 * |cs|
  {
    if cs != [] {
      EncodedLength(cs[1..]);
    }
  }

  /** How many characters the bytes spell: every byte that is not a continuation starts one. */
  function CharCount(bytes: seq<Byte>): nat {
    if bytes == [] then 0 else (if IsContinuation(bytes[0]) then 0 else 1) + CharCount(bytes[1..])
  }

  lemma {:induction false} CharCountAppend(a: seq<Byte>, b: seq<Byte>)
    ensures CharCount(a + b) == CharCount(a) + CharCount(b)
  {
    if a == [] {
      assert a + b == b;
    } else {
      assert (a + b)[1..] == a[1..] + b;
      CharCountAppend(a[1..], b);
    }
  }

  lemma CharCountOfChar(c: Scalar)
    ensures CharCount(EncodeChar(c)) == 1
  {
    var bytes := EncodeChar(c);
    assert !IsContinuation(bytes[0]);
    OnlyContinuations(bytes[1..]);
  }

  lemma {:induction false} OnlyContinuations(bytes: seq<Byte>)
    requires forall i :: 0 <= i < |bytes| ==> IsContinuation(bytes[i])
    ensures CharCount(bytes) == 0
  {
    if bytes != [] {
      OnlyContinuations(bytes[1..]);
    }
  }

  /** Counting the bytes that start a character counts the characters. */
  lemma {:induction false} CharCountCounts(cs: seq<Scalar>)
    ensures CharCount(Encode(cs)) == |cs|
  {
    if cs != [] {
      CharCountOfChar(cs[0]);
      CharCountCounts(cs[1..]);
      CharCountAppend(EncodeChar(cs[0]), Encode(cs[1..]));
    }
  }
}
