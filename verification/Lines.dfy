/** Lines of a text and their positions. */
module Lines {
  import opened Bytes
  import opened Wrappers
  import opened Positions
  import Utf8

  datatype BreakType = Lf | Cr | CrLf | Eof {

    function ByteLen(): nat {
      |Bytes()|
    }

    /** The terminator itself. */
    function Bytes(): seq<Byte> {
      match this
      case Lf => [LF]
      case Cr => [CR]
      case CrLf => [CR, LF]
      case Eof => []
    }

    function Advance(pos: Pos): Pos {
      match this
      case Lf => pos.Advance(LF)
      case CrLf => Pos(pos.byteOffset + 1, pos.line, pos.column).Advance(LF)
      case Cr => Pos(pos.byteOffset + 1, pos.line + 1, 0)
      case Eof => pos
    }
  }

  datatype Line = Line(content: seq<Byte>, offset: nat, indent: nat, breakType: BreakType, pos: Pos)

  /** The length of the line that `s` starts with, up to the first LF or CR. */
  function LineEnd(s: seq<Byte>): (n: nat)
    ensures n <= |s|
    ensures forall i :: 0 <= i < n ==> s[i] != LF && s[i] != CR
    ensures n < |s| ==> s[n] == LF || s[n] == CR
  {
    if s == [] || s[0] == LF || s[0] == CR then 0 else 1 + LineEnd(s[1..])
  }

  /** CR LF is looked for first, so the pair is taken as one. */
  function DetectBreak(s: seq<Byte>): (r: (BreakType, seq<Byte>))
    ensures r.0.Bytes() + r.1 == s
    ensures r.0.Eof? && s != [] ==> s[0] != LF && s[0] != CR
    ensures r.0.Cr? ==> r.1 == [] || r.1[0] != LF
  {
    if |s| >= 2 && s[0] == CR && s[1] == LF then (CrLf, s[2..])
    else if |s| >= 1 && s[0] == CR then (Cr, s[1..])
    else if |s| >= 1 && s[0] == LF then (Lf, s[1..])
    else (Eof, s)
  }

  function LeadingSpaces(content: seq<Byte>): (n: nat)
    ensures n <= |content|
  {
    if content == [] || content[0] != SPACE then 0 else 1 + LeadingSpaces(content[1..])
  }

  function ScanLine(remaining: seq<Byte>, pos: Pos): (r: Option<(Line, seq<Byte>)>)
    ensures r.None? <==> remaining == []
    ensures r.Some? ==> |r.value.1| < |remaining|
  {
    if remaining == [] then None
    else
      var end := LineEnd(remaining);
      var content := remaining[..end];
      var (breakType, rest) := DetectBreak(remaining[end..]);
      Some((Line(content, pos.byteOffset, LeadingSpaces(content), breakType, pos), rest))
  }

  function PosAfterLine(line: Line): Pos {
    var byteOffset := line.offset + |line.content| + line.breakType.ByteLen();
    if line.breakType.Eof? then
      Pos(byteOffset, line.pos.line, line.pos.column + ColumnAt(line.content, |line.content|))
    else Pos(byteOffset, line.pos.line + 1, 0)
  }

  /** All the lines of `s`, the first of them at `pos`. */
  function SplitLines(s: seq<Byte>, pos: Pos): seq<Line>
    decreases |s|
  {
    if s == [] then []
    else
      var (line, rest) := ScanLine(s, pos).value;
      [line] + SplitLines(rest, PosAfterLine(line))
  }

  // ----- Lines tile the text -----

  /** The text of the lines, terminators included. */
  function Joined(lines: seq<Line>): seq<Byte> {
    if lines == [] then [] else lines[0].content + lines[0].breakType.Bytes() + Joined(lines[1..])
  }

  /** The first line, and what is left: nothing of the text is lost between them. */
  lemma FirstLine(s: seq<Byte>, pos: Pos)
    requires s != []
    ensures var (line, rest) := ScanLine(s, pos).value;
            && SplitLines(s, pos) == [line] + SplitLines(rest, PosAfterLine(line))
            && s == line.content + line.breakType.Bytes() + rest
            && WellFormed(line)
            && line.pos == pos
            && (line.breakType.Eof? ==> rest == [] && line.content != [])
  {
    hide PosAfterLine;
    FirstLineIs(s, pos);
    hide ScanLine;
  }

  lemma FirstLineIs(s: seq<Byte>, pos: Pos)
    requires s != []
    ensures var (line, rest) := ScanLine(s, pos).value;
            && s == line.content + line.breakType.Bytes() + rest
            && WellFormed(line)
            && line.pos == pos
            && (line.breakType.Eof? ==> rest == [] && line.content != [])
  {
    hide PosAfterLine;
    hide SplitLines;
    hide LineEnd;
    hide DetectBreak;
    hide BreakType.Bytes;
    hide LeadingSpaces;
    var end := LineEnd(s);
    var (breakType, rest) := DetectBreak(s[end..]);
    assert s == s[..end] + s[end..];
    assert s[..end] + (breakType.Bytes() + rest) == s[..end] + breakType.Bytes() + rest;
    if breakType.Eof? {
      NothingBehindEof(s[end..]);
    }
    assert end < |s| ==> s[end..][0] == s[end];
  }

  lemma NothingBehindEof(s: seq<Byte>)
    ensures DetectBreak(s).0.Eof? ==> DetectBreak(s).1 == s
  {
  }

  /** Every byte of the text is in exactly one line, in order. */
  lemma {:induction false} LinesTile(s: seq<Byte>, pos: Pos)
    ensures Joined(SplitLines(s, pos)) == s
    decreases |s|
  {
    hide ScanLine;
    hide PosAfterLine;
    if s != [] {
      var (line, rest) := ScanLine(s, pos).value;
      FirstLine(s, pos);
      LinesTile(rest, PosAfterLine(line));
      assert ([line] + SplitLines(rest, PosAfterLine(line)))[1..] == SplitLines(rest, PosAfterLine(line));
    }
  }

  /** What every line from the splitter satisfies. */
  predicate WellFormed(line: Line) {
    && line.offset == line.pos.byteOffset
    && line.indent == LeadingSpaces(line.content)
    && LF !in line.content && CR !in line.content
  }

  /** Only the last line may have no terminator, and then it is not empty. */
  ghost predicate EndsOnlyLast(lines: seq<Line>) {
    forall i :: 0 <= i < |lines| && lines[i].breakType.Eof? ==> i == |lines| - 1 && lines[i].content != []
  }

  lemma {:induction false} LinesAreWellFormed(s: seq<Byte>, pos: Pos)
    ensures forall i :: 0 <= i < |SplitLines(s, pos)| ==> WellFormed(SplitLines(s, pos)[i])
    ensures EndsOnlyLast(SplitLines(s, pos))
    decreases |s|
  {
    hide ScanLine;
    hide PosAfterLine;
    hide WellFormed;
    if s != [] {
      var (line, rest) := ScanLine(s, pos).value;
      FirstLine(s, pos);
      LinesAreWellFormed(rest, PosAfterLine(line));
    }
  }

  /** The position reached over the characters of a line and then over its break. */
  function AdvanceOver(line: Line): Pos {
    var end := AdvanceWithinLine(line.pos, line.content);
    if line.breakType.Eof? then end else line.breakType.Advance(end)
  }

  lemma PosAfterLineAdvances(line: Line)
    requires line.offset == line.pos.byteOffset
    ensures PosAfterLine(line) == AdvanceOver(line)
  {
  }

  // ----- Line positions are positions of the scan -----

  /** Where the first line from `k` ends, and what is left behind its break. */
  lemma LineIsCut(src: seq<Byte>, k: nat)
    requires StartsLine(src, k) && k < |src|
    ensures var (line, rest) := ScanLine(src[k..], ScanTo(src, k)).value;
            var end := k + LineEnd(src[k..]);
            && line.content == src[k..end]
            && line.offset == line.pos.byteOffset && line.pos == ScanTo(src, k)
            && (line.breakType, rest) == DetectBreak(src[end..])
            && ScanTo(src, end) == Pos(end, line.pos.line, line.pos.column + ColumnAt(line.content, |line.content|))
            && !InsideCrLf(src, end) && (end < |src| ==> src[end] == LF || src[end] == CR)
  {
    hide ScanTo;
    hide LineEnd;
    hide DetectBreak;
    hide ColumnAt;
    hide LeadingSpaces;
    hide InsideCrLf;
    var end := k + LineEnd(src[k..]);
    SlicesInside(src, k, end);
    LineEndsAtBreak(src, k, end);
    NoBreakInside(src, k, end);
    ScanAlong(src, k, end);
    WholeColumn(src[k..end]);
  }

  lemma SlicesInside(src: seq<Byte>, k: nat, end: nat)
    requires k <= end <= |src|
    ensures src[k..end] == src[k..][..end - k] && src[end..] == src[k..][end - k..]
  {
  }

  lemma LineEndsAtBreak(src: seq<Byte>, k: nat, end: nat)
    requires k <= |src| && end == k + LineEnd(src[k..])
    ensures end < |src| ==> src[end] == LF || src[end] == CR
  {
  }

  lemma LineStands(src: seq<Byte>, k: nat)
    requires StartsLine(src, k) && k < |src|
    ensures StandsWhereScanned(src, ScanLine(src[k..], ScanTo(src, k)).value.0)
  {
    hide ScanTo;
    hide ScanLine;
    hide DetectBreak;
    hide ColumnAt;
    LineIsCut(src, k);
  }

  /** The position behind a line that ends at `end` and whose break leaves `rest`. */
  lemma PosBehind(src: seq<Byte>, line: Line, end: nat, rest: seq<Byte>)
    requires end <= |src| && !InsideCrLf(src, end) && (end < |src| ==> src[end] == LF || src[end] == CR)
    requires (line.breakType, rest) == DetectBreak(src[end..])
    requires line.offset + |line.content| == end
    requires ScanTo(src, end) == Pos(end, line.pos.line, line.pos.column + ColumnAt(line.content, |line.content|))
    ensures rest == src[|src| - |rest|..]
    ensures PosAfterLine(line) == ScanTo(src, |src| - |rest|)
    ensures StartsLine(src, |src| - |rest|)
  {
    hide ScanTo;
    hide DetectBreak;
    hide ColumnAt;
    hide BreakType.Bytes;
    hide InsideCrLf;
    hide BehindBreak;
    ScanOverBreak(src, end, end);
  }

  /** Reading one line, the scan arrives where `PosAfterLine` says. */
  lemma ScanOverLine(src: seq<Byte>, k: nat)
    requires StartsLine(src, k) && k < |src|
    ensures var (line, rest) := ScanLine(src[k..], ScanTo(src, k)).value;
            && rest == src[|src| - |rest|..]
            && PosAfterLine(line) == ScanTo(src, |src| - |rest|)
            && StartsLine(src, |src| - |rest|)
            && StandsWhereScanned(src, line)
  {
    hide *;
    LineStands(src, k);
    LineIsCut(src, k);
    var (line, rest) := ScanLine(src[k..], ScanTo(src, k)).value;
    PosBehind(src, line, k + LineEnd(src[k..]), rest);
  }

  lemma WholeColumn(content: seq<Byte>)
    ensures ColumnAt(content, |content|) == Utf8.CharCount(content)
  {
    assert content[..|content|] == content;
  }

  /** A line may start at `k`: at the end of the text anything may be on the last line. */
  predicate StartsLine(src: seq<Byte>, k: nat) {
    k <= |src| && (k < |src| ==> ScanTo(src, k).column == 0 && !InsideCrLf(src, k) && BehindBreak(src, k))
  }

  predicate BehindBreak(src: seq<Byte>, k: nat)
    requires k <= |src|
  {
    k == 0 || src[k - 1] == LF || src[k - 1] == CR
  }

  lemma NoBreakInside(src: seq<Byte>, k: nat, end: nat)
    requires k <= |src| && end == k + LineEnd(src[k..]) && !InsideCrLf(src, k)
    ensures forall j :: k <= j < end ==> src[j] != LF && src[j] != CR
    ensures !InsideCrLf(src, end)
  {
    assert forall j :: k <= j < end ==> src[j] == src[k..][j - k];
  }

  lemma {:induction false} ScanAlong(src: seq<Byte>, k: nat, end: nat)
    requires k <= end <= |src|
    requires forall j :: k <= j < end ==> src[j] != LF && src[j] != CR
    ensures var p := ScanTo(src, k);
            ScanTo(src, end) == Pos(end, p.line, p.column + Utf8.CharCount(src[k..end]))
  {
    if k == end {
      assert src[k..end] == [];
    } else {
      ScanAlong(src, k, end - 1);
      assert src[k..end] == src[k..end - 1] + [src[end - 1]];
      Utf8.CharCountAppend(src[k..end - 1], [src[end - 1]]);
      assert Utf8.CharCount([src[end - 1]][1..]) == 0;
    }
  }

  lemma ScanOverBreak(src: seq<Byte>, k: nat, end: nat)
    requires k <= end <= |src| && !InsideCrLf(src, end) && (end < |src| ==> src[end] == LF || src[end] == CR)
    ensures var (breakType, rest) := DetectBreak(src[end..]);
            var p, q := ScanTo(src, end), ScanTo(src, end + breakType.ByteLen());
            && end + breakType.ByteLen() + |rest| == |src|
            && rest == src[end + breakType.ByteLen()..]
            && (breakType.Eof? ==> rest == [])
            && (!breakType.Eof? ==> q == Pos(end + breakType.ByteLen(), p.line + 1, 0))
            && (!breakType.Eof? ==> BehindBreak(src, end + breakType.ByteLen()))
            && !InsideCrLf(src, end + breakType.ByteLen())
  {
  }

  /**
   Each line of a text stands at the position the scan gives for its offset: at
   the start of a line, with the line number counted by breaks.
   */
  lemma {:induction false} LinesStandWhereScanned(src: seq<Byte>, k: nat)
    requires StartsLine(src, k)
    ensures var lines := SplitLines(src[k..], ScanTo(src, k));
            forall i :: 0 <= i < |lines| ==> StandsWhereScanned(src, lines[i])
    decreases |src| - k
  {
    hide ScanTo;
    hide ScanLine;
    hide PosAfterLine;
    if k < |src| {
      ScanOverLine(src, k);
      FirstLine(src[k..], ScanTo(src, k));
      var (line, rest) := ScanLine(src[k..], ScanTo(src, k)).value;
      LinesStandWhereScanned(src, |src| - |rest|);
    }
  }

  /** The line is a piece of the text, and its position the one the scan gives. */
  predicate StandsWhereScanned(src: seq<Byte>, line: Line) {
    && line.offset < |src| && line.pos == ScanTo(src, line.offset) && line.pos.column == 0
    && BehindBreak(src, line.offset)
    && line.offset + |line.content| <= |src|
    && line.content == src[line.offset..line.offset + |line.content|]
  }

  /** Where the text after the last line ends. */
  function EndOf(lines: seq<Line>, start: Pos): Pos {
    if lines == [] then start else PosAfterLine(lines[|lines| - 1])
  }

  /** Each line starts where the one before it ended. */
  ghost predicate Chained(lines: seq<Line>) {
    forall i :: 0 <= i < |lines| - 1 ==> PosAfterLine(lines[i]) == lines[i + 1].pos
  }

  /** The position behind each line is reached over its characters and its break. */
  ghost predicate Advancing(lines: seq<Line>) {
    forall i :: 0 <= i < |lines| ==> PosAfterLine(lines[i]) == AdvanceOver(lines[i])
  }

  /** The lines follow one another, and the last ends at the end of the text. */
  lemma {:induction false} LinesChain(src: seq<Byte>, k: nat)
    requires StartsLine(src, k)
    ensures var lines := SplitLines(src[k..], ScanTo(src, k));
            Chained(lines) && Advancing(lines) && EndOf(lines, ScanTo(src, k)) == ScanTo(src, |src|)
    decreases |src| - k
  {
    hide ScanTo;
    hide ScanLine;
    hide PosAfterLine;
    hide AdvanceOver;
    if k < |src| {
      ScanOverLine(src, k);
      FirstLine(src[k..], ScanTo(src, k));
      var (line, rest) := ScanLine(src[k..], ScanTo(src, k)).value;
      PosAfterLineAdvances(line);
      LinesChain(src, |src| - |rest|);
      if rest != [] {
        FirstLine(rest, PosAfterLine(line));
      }
    }
  }
}
