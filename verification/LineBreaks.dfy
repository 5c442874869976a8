/** Normalising line breaks, and the three ways to split a text into lines. */
module LineBreaks {
  import opened Bytes
  import opened Positions
  import opened Lines
  import opened LineIndexes
  import Utf8

  /** Every break as one LF.  Works on characters and on bytes alike: breaks are ASCII. */
  function Normalised(s: seq<int>): (r: seq<int>)
    ensures forall x :: x in r ==> x in s || x == LF
    ensures CR !in r
  {
    if s == [] then []
    else if s[0] == CR then [LF] + Normalised(if |s| >= 2 && s[1] == LF then s[2..] else s[1..])
    else [s[0]] + Normalised(s[1..])
  }

  /** The normalised text, as a text again. */
  function NormalisedText(cs: seq<Scalar>): (normalised: seq<Scalar>)
    ensures normalised == Normalised(cs)
  {
    var r := Normalised(cs);
    assert forall i :: 0 <= i < |r| ==> r[i] in r;
    r
  }

  lemma NormalisedStep(s: seq<int>, i: nat)
    requires i < |s|
    ensures var n := if s[i] == CR && i + 1 < |s| && s[i + 1] == LF then 2 else 1;
            Normalised(s[i..]) == [if s[i] == CR then LF else s[i]] + Normalised(s[i + n..])
  {
    assert s[i..][1..] == s[i + 1..];
    if i + 1 < |s| {
      assert s[i..][2..] == s[i + 2..];
    }
  }

  /**
   One pass over the characters; a text without CR is returned as it is.  No CR is
   left, so a second pass changes nothing.
   */
  method NormaliseLineBreaks(s: seq<Scalar>) returns (out: seq<Scalar>)
    ensures out == Normalised(s)
    ensures CR !in out && Normalised(out) == out
    ensures out == s <==> CR !in s
  {
    hide Normalised;
    if CR !in s {
      NothingToNormalise(s);
      return s;
    }
    out := [];
    var i := 0;
    assert s[0..] == s;
    while i < |s|
      invariant i <= |s|
      invariant Normalised(s) == out + Normalised(s[i..])
      decreases |s| - i
    {
      var ch := s[i];
      NormalisedStep(s, i);
      i := i + 1;
      if ch == CR {
        if i < |s| && s[i] == LF {
          i := i + 1;
        }
        out := out + [LF];
      } else {
        out := out + [ch];
      }
    }
    NothingToNormalise(s[i..]);
    NothingToNormalise(out);
  }

  lemma {:induction false} NothingToNormalise(s: seq<int>)
    requires CR !in s
    ensures Normalised(s) == s
  {
    if s != [] {
      assert s[0] in s;
      NothingToNormalise(s[1..]);
    }
  }

  // ----- The contents of the lines -----

  /** How many elements stand before the first break. */
  function FirstBreak(s: seq<int>): (n: nat)
    ensures n <= |s|
  {
    if s == [] || s[0] == LF || s[0] == CR then 0 else 1 + FirstBreak(s[1..])
  }

  /** What is left behind the first break. */
  function BehindFirstBreak(s: seq<int>): (rest: seq<int>)
    ensures s != [] ==> |rest| < |s|
  {
    var n := FirstBreak(s);
    if n == |s| then []
    else if s[n] == CR && n + 1 < |s| && s[n + 1] == LF then s[n + 2..]
    else s[n + 1..]
  }

  /** The contents of the lines, without their breaks. */
  function Contents(s: seq<int>): seq<seq<int>>
    decreases |s|
  {
    if s == [] then [] else [s[..FirstBreak(s)]] + Contents(BehindFirstBreak(s))
  }

  lemma {:induction false} NormaliseFirstLine(s: seq<int>)
    requires s != []
    ensures Normalised(s) != []
    ensures FirstBreak(Normalised(s)) == FirstBreak(s)
    ensures Normalised(s)[..FirstBreak(s)] == s[..FirstBreak(s)]
    ensures BehindFirstBreak(Normalised(s)) == Normalised(BehindFirstBreak(s))
  {
    if s[0] == LF || s[0] == CR {
      NormaliseBreak(s);
    } else if |s| == 1 {
      assert Normalised(s) == s;
    } else {
      NormaliseFirstLine(s[1..]);
      NormaliseOneMore(s);
    }
  }

  lemma NormaliseBreak(s: seq<int>)
    requires s != [] && (s[0] == LF || s[0] == CR)
    ensures Normalised(s) == [LF] + Normalised(BehindFirstBreak(s))
    ensures FirstBreak(Normalised(s)) == FirstBreak(s) == 0
    ensures BehindFirstBreak(Normalised(s)) == Normalised(BehindFirstBreak(s))
  {
    NormalisedStep(s, 0);
    assert s[0..] == s;
  }

  lemma NormaliseOneMore(s: seq<int>)
    requires |s| > 1 && s[0] != LF && s[0] != CR
    requires FirstBreak(Normalised(s[1..])) == FirstBreak(s[1..]) <= |Normalised(s[1..])|
    requires Normalised(s[1..])[..FirstBreak(s[1..])] == s[1..][..FirstBreak(s[1..])]
    requires BehindFirstBreak(Normalised(s[1..])) == Normalised(BehindFirstBreak(s[1..]))
    ensures Normalised(s) != []
    ensures FirstBreak(Normalised(s)) == FirstBreak(s)
    ensures Normalised(s)[..FirstBreak(s)] == s[..FirstBreak(s)]
    ensures BehindFirstBreak(Normalised(s)) == Normalised(BehindFirstBreak(s))
  {
    var t := Normalised(s);
    NormalisedStep(s, 0);
    assert s[0..] == s;
    assert t[1..] == Normalised(s[1..]);
    BehindOneMore(s);
    BehindOneMore(t);
    hide *;
  }

  lemma BehindOneMore(s: seq<int>)
    requires s != [] && s[0] != LF && s[0] != CR
    ensures FirstBreak(s) == 1 + FirstBreak(s[1..])
    ensures s[..FirstBreak(s)] == [s[0]] + s[1..][..FirstBreak(s[1..])]
    ensures BehindFirstBreak(s) == BehindFirstBreak(s[1..])
  {
  }

  /** Normalising changes no line, only what ends it. */
  lemma {:induction false} NormaliseKeepsContents(s: seq<int>)
    ensures Contents(Normalised(s)) == Contents(s)
    decreases |s|
  {
    if s != [] {
      hide Normalised;
      hide FirstBreak;
      NormaliseFirstLine(s);
      NormaliseKeepsContents(BehindFirstBreak(s));
    }
  }

  /** The splitter of the parser gives the same contents. */
  lemma {:induction false} SplitLinesHasContents(s: seq<Byte>, pos: Pos)
    ensures ContentsOf(SplitLines(s, pos)) == Contents(s)
    decreases |s|
  {
    hide PosAfterLine;
    hide ScanLine;
    hide FirstBreak;
    hide BehindFirstBreak;
    if s != [] {
      var (line, rest) := ScanLine(s, pos).value;
      ScanLineIsFirst(s, pos);
      SplitLinesHasContents(rest, PosAfterLine(line));
    }
  }

  function ContentsOf(lines: seq<Line>): seq<seq<int>> {
    seq(|lines|, i requires 0 <= i < |lines| => lines[i].content)
  }

  lemma ScanLineIsFirst(s: seq<Byte>, pos: Pos)
    requires s != []
    ensures var (line, rest) := ScanLine(s, pos).value;
            line.content == s[..FirstBreak(s)] && rest == BehindFirstBreak(s)
  {
    hide LineEnd;
    hide FirstBreak;
    hide BehindFirstBreak;
    hide DetectBreak;
    LineEndIsFirstBreak(s);
    BehindIsRest(s);
  }

  lemma {:induction false} LineEndIsFirstBreak(s: seq<Byte>)
    ensures LineEnd(s) == FirstBreak(s)
  {
    if s != [] && s[0] != LF && s[0] != CR {
      LineEndIsFirstBreak(s[1..]);
    }
  }

  lemma BehindIsRest(s: seq<Byte>)
    requires LineEnd(s) == FirstBreak(s)
    ensures DetectBreak(s[LineEnd(s)..]).1 == BehindFirstBreak(s)
  {
  }

  // ----- Bytes and characters -----

  /** Normalising the characters or the bytes of a text comes to the same. */
  lemma {:induction false} NormaliseCommutesWithEncoding(cs: seq<Scalar>)
    ensures Utf8.Encode(NormalisedText(cs)) == Normalised(Utf8.Encode(cs))
    decreases |cs|
  {
    if cs != [] {
      var bytes := Utf8.Encode(cs);
      var normalised := NormalisedText(cs);
      if cs[0] == CR {
        var n := if |cs| >= 2 && cs[1] == LF then 2 else 1;
        NormaliseCommutesWithEncoding(cs[n..]);
        EncodedBreak(cs, n);
        assert normalised[1..] == NormalisedText(cs[n..]);
      } else {
        NormaliseCommutesWithEncoding(cs[1..]);
        NoCrInChar(cs[0]);
        NormalisedBehind(Utf8.EncodeChar(cs[0]), Utf8.Encode(cs[1..]));
        assert normalised[1..] == NormalisedText(cs[1..]);
      }
    }
  }

  lemma NoCrInChar(c: Scalar)
    requires c != CR
    ensures CR !in Utf8.EncodeChar(c)
  {
  }

  /** Behind an ASCII character the encoding goes on, with LF if and only if the text does. */
  lemma EncodedBehind(cs: seq<Scalar>)
    requires cs != [] && cs[0] < 0x80
    ensures var bytes, rest := Utf8.Encode(cs), Utf8.Encode(cs[1..]);
            bytes != [] && bytes[0] == cs[0] && bytes[1..] == rest
    ensures |Utf8.Encode(cs)| >= 2 && Utf8.Encode(cs)[1] == LF <==> |cs| >= 2 && cs[1] == LF
  {
    hide Utf8.EncodeChar;
    AsciiIsItself(cs[0]);
    var bytes, rest := Utf8.Encode(cs), Utf8.Encode(cs[1..]);
    assert bytes == [cs[0]] + rest;
    if |cs| >= 2 {
      LeadIsLf(cs[1]);
      assert rest == Utf8.EncodeChar(cs[1]) + Utf8.Encode(cs[1..][1..]);
    }
  }

  lemma AsciiIsItself(c: Scalar)
    ensures c < 0x80 ==> Utf8.EncodeChar(c) == [c]
  {
  }

  lemma EncodedBreak(cs: seq<Scalar>, n: nat)
    requires cs != [] && cs[0] == CR && n == if |cs| >= 2 && cs[1] == LF then 2 else 1
    ensures Normalised(Utf8.Encode(cs)) == [LF] + Normalised(Utf8.Encode(cs[n..]))
  {
    hide Utf8.Encode;
    var bytes := Utf8.Encode(cs);
    EncodedBehind(cs);
    if n == 2 {
      EncodedBehind(cs[1..]);
      assert cs[1..][1..] == cs[2..] && bytes[1..][1..] == bytes[2..];
    }
    NormalisedStep(bytes, 0);
    assert bytes[0..] == bytes;
    hide Normalised;
  }

  lemma LeadIsLf(c: Scalar)
    ensures Utf8.EncodeChar(c)[0] == LF <==> c == LF
    ensures Utf8.EncodeChar(LF) == [LF]
  {
  }

  lemma {:induction false} NormalisedBehind(front: seq<int>, rest: seq<int>)
    requires CR !in front
    ensures Normalised(front + rest) == front + Normalised(rest)
  {
    if front == [] {
      assert front + rest == rest;
    } else {
      assert (front + rest)[1..] == front[1..] + rest;
      assert front[0] in front;
      NormalisedBehind(front[1..], rest);
    }
  }

  // ----- The splitters agree -----

  /**
   The line buffer, the line index and the normaliser agree on every text:
   every line of the buffer starts where the index says column 0 of that line
   is, and the buffer reads the same contents from the normalised text.
   */
  lemma SplittersAgree(cs: seq<Scalar>, index: LineIndex)
    requires index.Valid() && index.source == Utf8.Encode(cs)
    ensures var lines := SplitLines(Utf8.Encode(cs), ORIGIN);
            forall i :: 0 <= i < |lines| ==> index.LineColumn(lines[i].offset) == (lines[i].pos.line, 0)
    ensures ContentsOf(SplitLines(Utf8.Encode(NormalisedText(cs)), ORIGIN)) ==
            ContentsOf(SplitLines(Utf8.Encode(cs), ORIGIN))
  {
    hide *;
    var src := Utf8.Encode(cs);
    LinesMatchIndex(cs, index);
    var normalised := NormalisedText(cs);
    NormaliseCommutesWithEncoding(cs);
    NormaliseKeepsContents(src);
    SplitLinesHasContents(src, ORIGIN);
    SplitLinesHasContents(Utf8.Encode(normalised), ORIGIN);
  }

  lemma LinesMatchIndex(cs: seq<Scalar>, index: LineIndex)
    requires index.Valid() && index.source == Utf8.Encode(cs)
    ensures var lines := SplitLines(Utf8.Encode(cs), ORIGIN);
            forall i :: 0 <= i < |lines| ==> index.LineColumn(lines[i].offset) == (lines[i].pos.line, 0)
  {
    hide SplitLines;
    hide ScanTo;
    hide PartitionPoint;
    var src := Utf8.Encode(cs);
    assert src[0..] == src;
    StartOfTextIsOrigin(src);
    LinesStandWhereScanned(src, 0);
    var lines := SplitLines(src, ORIGIN);
    assert SplitLines(src[0..], ScanTo(src, 0)) == lines;
    forall i | 0 <= i < |lines|
      ensures index.LineColumn(lines[i].offset) == (lines[i].pos.line, 0)
    {
      assert StandsWhereScanned(src, lines[i]);
      LineMatchesIndex(cs, index, lines[i]);
    }
  }

  lemma StartOfTextIsOrigin(src: seq<Byte>)
    ensures ScanTo(src, 0) == ORIGIN && StartsLine(src, 0)
  {
  }

  lemma LineMatchesIndex(cs: seq<Scalar>, index: LineIndex, line: Line)
    requires index.Valid() && index.source == Utf8.Encode(cs) && StandsWhereScanned(index.source, line)
    ensures index.LineColumn(line.offset) == (line.pos.line, 0)
  {
    hide ScanTo;
    hide PartitionPoint;
    if line.offset > 0 {
      BoundaryAfterAscii(cs, line.offset - 1);
    }
    LineColumnIsScan(index, line.offset);
  }
}
