/** The line-level lexer: it consumes lines and keeps the position behind the last one. */
module Lexers {
  import opened Bytes
  import opened Wrappers
  import opened Positions
  import opened Lines
  import opened LineBuffers
  import Utf8

  const HASH: Byte := 0x23

  predicate IsMarker(content: seq<Byte>, ch: Byte) {
    |content| >= 3 && content[..3] == [ch, ch, ch] && (|content| == 3 || IsBlank(content[3]))
  }

  predicate IsBlankLine(line: Line) {
    TrimStart(line.content) == []
  }

  /** What is on a marker line behind the marker and white space. */
  function Inline(line: Line): seq<Byte> {
    TrimStart(if |line.content| >= 4 then line.content[4..] else [])
  }

  function InlineStart(line: Line): Pos {
    var prefix := |line.content| - |Inline(line)|;
    Pos(line.pos.byteOffset + prefix, line.pos.line, line.pos.column + ColumnAt(line.content, prefix))
  }

  /** The rest of a marker line, presented as a line of its own. */
  function TailLine(line: Line): Line {
    Line(Inline(line), InlineStart(line).byteOffset, InlineStart(line).column, line.breakType, InlineStart(line))
  }

  /** The line is the marker, white space and the tail: nothing on it is lost. */
  predicate IsMarkerAndTail(line: Line, ch: Byte) {
    var start := |line.content| - |Inline(line)|;
    && 3 <= start
    && line.content[..3] == [ch, ch, ch] && line.content[start..] == Inline(line)
    && (forall i :: 3 <= i < start ==> IsBlank(line.content[i]))
    && (Inline(line) != [] ==> !IsBlank(Inline(line)[0]) && start > 3)
  }

  lemma OnlyBlanksBetween(line: Line, ch: Byte)
    requires IsMarker(line.content, ch) && |Inline(line)| <= |line.content|
    ensures var start := |line.content| - |Inline(line)|;
            && 3 <= start
            && line.content[..3] == [ch, ch, ch]
            && (forall i :: 3 <= i < start ==> IsBlank(line.content[i]))
            && (Inline(line) != [] ==> !IsBlank(Inline(line)[0]) && start > 3)
  {
    hide TrimStart;
    hide IsBlank;
    if |line.content| >= 4 {
      var rest := line.content[4..];
      forall i | 4 <= i < |line.content| - |Inline(line)|
        ensures IsBlank(line.content[i])
      {
        assert rest[i - 4] == line.content[i];
      }
    }
  }

  /** What becomes of the rest of a marker line. */
  datatype MarkerTail = Nothing | Comment | Rejected | RootNode

  function TailOf(line: Line, rejectAllInline: bool, startsRoot: seq<Byte> -> bool): MarkerTail {
    var inline := Inline(line);
    if inline == [] then Nothing
    else if inline[0] == HASH then Comment
    else if rejectAllInline then Rejected
    else if startsRoot(inline) then RootNode
    else Rejected
  }

  /** There is something behind the marker that is not a comment. */
  predicate HasInlineNode(line: Line) {
    Inline(line) != [] && Inline(line)[0] != HASH
  }

  /** Only behind a `---`, and only what can start the root node, is read again. */
  predicate PutsBack(line: Line, rejectAllInline: bool, startsRoot: seq<Byte> -> bool) {
    HasInlineNode(line) && !rejectAllInline && startsRoot(Inline(line))
  }

  /** Behind a `...` everything but a comment is an error, behind a `---` what cannot start the root node. */
  predicate Rejects(line: Line, rejectAllInline: bool, startsRoot: seq<Byte> -> bool) {
    HasInlineNode(line) && (rejectAllInline || !startsRoot(Inline(line)))
  }

  /** What is put back and what is an error, by what stands on the line. */
  lemma TailIsPutBackOrRejected(line: Line, rejectAllInline: bool, startsRoot: seq<Byte> -> bool)
    ensures var tail := TailOf(line, rejectAllInline, startsRoot);
            && (tail.RootNode? <==> PutsBack(line, rejectAllInline, startsRoot))
            && (tail.Rejected? <==> Rejects(line, rejectAllInline, startsRoot))
            && (tail.Comment? <==> Inline(line) != [] && Inline(line)[0] == HASH)
            && (rejectAllInline ==> !PutsBack(line, rejectAllInline, startsRoot))
  {
    hide Inline;
  }

  lemma MarkerComesFirst(line: Line, ch: Byte)
    requires IsMarker(line.content, ch)
    ensures IsMarkerAndTail(line, ch)
  {
    InlineIsSuffix(line);
    OnlyBlanksBetween(line, ch);
    hide Inline;
    hide IsBlank;
    hide IsMarker;
  }

  lemma TailEndsThere(line: Line)
    requires line.offset == line.pos.byteOffset
    ensures PosAfterLine(TailLine(line)) == PosAfterLine(line)
  {
    InlineIsSuffix(line);
    hide Inline;
    ColumnsAdd(line.content, |line.content| - |Inline(line)|);
    hide ColumnAt;
  }

  /**
   The tail is the exact end of its line, and it ends where the line ends: the
   position after reading it is the position after reading the line.  In front of
   it are the marker and white space only.
   */
  lemma TailEndsWithItsLine(line: Line)
    requires line.offset == line.pos.byteOffset
    ensures var tail := TailLine(line);
            && tail.content == line.content[|line.content| - |tail.content|..]
            && tail.offset + |tail.content| == line.offset + |line.content|
            && tail.offset == tail.pos.byteOffset
            && PosAfterLine(tail) == PosAfterLine(line)
    ensures forall ch :: IsMarker(line.content, ch) ==> IsMarkerAndTail(line, ch)
  {
    TailEndsThere(line);
    InlineIsSuffix(line);
    hide Inline;
    hide IsMarker;
    hide IsMarkerAndTail;
    hide PosAfterLine;
    hide ColumnAt;
    forall ch | IsMarker(line.content, ch) ensures IsMarkerAndTail(line, ch) {
      MarkerComesFirst(line, ch);
    }
  }

  lemma InlineIsSuffix(line: Line)
    ensures |Inline(line)| <= |line.content|
    ensures Inline(line) == line.content[|line.content| - |Inline(line)|..]
  {
  }

  /** The columns of a prefix and of the rest add up. */
  lemma ColumnsAdd(content: seq<Byte>, prefix: nat)
    requires prefix <= |content|
    ensures ColumnAt(content, |content|) == ColumnAt(content, prefix) + ColumnAt(content[prefix..], |content| - prefix)
  {
    hide ColumnAt;
    hide Utf8.CharCount;
    var tail := content[prefix..];
    assert content[..prefix] + tail == content;
    Utf8.CharCountAppend(content[..prefix], tail);
    assert content[..|content|] == content && tail[..|tail|] == tail;
  }

  /** `original` without its first `n` marks. */
  function WithoutBoms(original: Line, n: nat): Line {
    if n == 0 then original else WithoutBom(WithoutBoms(original, n - 1))
  }

  /** The line starts with at least `n` marks. */
  predicate HasBoms(original: Line, n: nat) {
    n == 0 || (HasBoms(original, n - 1) && StartsWithBom(WithoutBoms(original, n - 1).content))
  }

  lemma NoMarksYet(line: Line)
    ensures WithoutBoms(line, 0) == line && HasBoms(line, 0)
  {
  }

  lemma {:induction false} MarksComeFirst(line: Line, n: nat)
    requires HasBoms(line, n)
    ensures n > 0 ==> StartsWithBom(line.content)
  {
    if n > 1 {
      MarksComeFirst(line, n - 1);
    }
  }

  /**
   A line that lost its first `n` marks ends where it did; only the column behind
   an unterminated line no longer counts them.
   */
  lemma {:induction false} StrippedLinesEndWhereTheyDid(original: Line, n: nat)
    requires original.offset == original.pos.byteOffset && HasBoms(original, n)
    ensures var line := WithoutBoms(original, n);
            var before, after := PosAfterLine(original), PosAfterLine(line);
            && line.offset == line.pos.byteOffset
            && line.breakType == original.breakType
            && after.byteOffset == before.byteOffset && after.line == before.line
            && after.column + (if original.breakType.Eof? then n else 0) == before.column
  {
    hide PosAfterLine;
    hide StartsWithBom;
    if n > 0 {
      StrippedLinesEndWhereTheyDid(original, n - 1);
      StrippedLineEndsWhereItDid(WithoutBoms(original, n - 1));
    }
  }

  /**
   `p` is the position after the first `k` lines of `input`, the last of which
   had lost `lost` marks.
   */
  ghost predicate IsAfter(input: seq<Byte>, k: nat, lost: nat, p: Pos) {
    var lines := SplitLines(input, ORIGIN);
    && k <= |lines|
    && (k < |lines| ==> p == lines[k].pos)
    && (k == |lines| ==> IsEnd(input, lost, p))
  }

  predicate IsUnterminated(lines: seq<Line>) {
    lines != [] && lines[|lines| - 1].breakType.Eof?
  }

  /**
   `p` is the end of `input` but for its column, which counts the marks that an
   unterminated last line had lost as if they were not there.
   */
  ghost predicate IsEnd(input: seq<Byte>, lost: nat, p: Pos) {
    var lines, end := SplitLines(input, ORIGIN), ScanTo(input, |input|);
    && p.byteOffset == |input|
    && p.line == end.line
    && p.column + (if IsUnterminated(lines) then lost else 0) == end.column
    && (if lines == [] then lost == 0 else HasBoms(lines[|lines| - 1], lost))
  }

  /** The end is exact if and only if no mark was taken from an unterminated last line. */
  lemma ExactEnd(input: seq<Byte>, lost: nat, p: Pos)
    requires IsEnd(input, lost, p)
    ensures p == ScanTo(input, |input|) <==> lost == 0 || !IsUnterminated(SplitLines(input, ORIGIN))
    ensures var lines := SplitLines(input, ORIGIN);
            lost > 0 ==> lines != [] && StartsWithBom(lines[|lines| - 1].content)
  {
    hide ScanTo;
    hide SplitLines;
    hide StartsWithBom;
    var lines := SplitLines(input, ORIGIN);
    if lines != [] {
      MarksComeFirst(lines[|lines| - 1], lost);
    }
  }

  lemma AfterLine(input: seq<Byte>, k: nat, marks: nat)
    requires k < |SplitLines(input, ORIGIN)| && HasBoms(SplitLines(input, ORIGIN)[k], marks)
    ensures IsAfter(input, k + 1, marks, PosAfterLine(WithoutBoms(SplitLines(input, ORIGIN)[k], marks)))
    ensures var line := WithoutBoms(SplitLines(input, ORIGIN)[k], marks); line.offset == line.pos.byteOffset
  {
    hide PosAfterLine;
    hide SplitLines;
    hide WithoutBoms;
    hide HasBoms;
    var lines := SplitLines(input, ORIGIN);
    assert input[0..] == input;
    LinesChain(input, 0);
    LinesAreWellFormed(input, ORIGIN);
    assert WellFormed(lines[k]);
    StrippedLinesEndWhereTheyDid(lines[k], marks);
  }

  lemma AtStart(input: seq<Byte>)
    ensures IsAfter(input, 0, 0, ORIGIN)
  {
    hide PosAfterLine;
    if input != [] {
      FirstLine(input, ORIGIN);
    }
  }

  /** The lines of the input still to be read, and the lines in front of them, are in step with the position. */
  ghost predicate InStep(
    input: seq<Byte>, taken: nat, marks: nat, lost: nat, pos: Pos, prepend: seq<Line>, unread: seq<Line>)
  {
    var lines := SplitLines(input, ORIGIN);
    && taken <= |lines|
    && IsAfter(input, taken, lost, pos)
    && (taken < |lines| ==> HasBoms(lines[taken], marks))
    && unread == (if taken == |lines| then [] else [WithoutBoms(lines[taken], marks)] + lines[taken + 1..])
    && (forall i :: 0 <= i < |prepend| ==>
          PosAfterLine(prepend[i]) == pos && prepend[i].offset == prepend[i].pos.byteOffset)
  }

  lemma TakingALine(input: seq<Byte>, taken: nat, marks: nat, lost: nat, pos: Pos, unread: seq<Line>)
    requires InStep(input, taken, marks, lost, pos, [], unread) && unread != []
    ensures InStep(input, taken + 1, 0, marks, PosAfterLine(unread[0]), [], unread[1..])
    ensures unread[0].offset == unread[0].pos.byteOffset
  {
    hide PosAfterLine;
    hide SplitLines;
    hide WithoutBoms;
    var lines := SplitLines(input, ORIGIN);
    AfterLine(input, taken, marks);
    hide IsAfter;
    if taken + 1 < |lines| {
      NoMarksYet(lines[taken + 1]);
    }
  }

  lemma TakingATail(
    input: seq<Byte>, taken: nat, marks: nat, lost: nat, pos: Pos, prepend: seq<Line>, unread: seq<Line>)
    requires InStep(input, taken, marks, lost, pos, prepend, unread) && prepend != []
    ensures InStep(input, taken, marks, lost, PosAfterLine(prepend[0]), prepend[1..], unread)
    ensures prepend[0].offset == prepend[0].pos.byteOffset
  {
    hide PosAfterLine;
    hide SplitLines;
    hide WithoutBoms;
    hide IsAfter;
  }

  lemma TakingAMark(
    input: seq<Byte>, taken: nat, marks: nat, lost: nat, pos: Pos, prepend: seq<Line>, unread: seq<Line>)
    requires InStep(input, taken, marks, lost, pos, prepend, unread) && unread != []
    ensures InStep(
              input, taken, marks + if StartsWithBom(unread[0].content) then 1 else 0, lost, pos, prepend,
              [WithoutBom(unread[0])] + unread[1..])
  {
    hide PosAfterLine;
    hide SplitLines;
    hide IsAfter;
    hide StartsWithBom;
    MarkIsTaken(SplitLines(input, ORIGIN)[taken], marks);
    hide WithoutBom;
    hide WithoutBoms;
    hide HasBoms;
  }

  lemma MarkIsTaken(line: Line, marks: nat)
    requires HasBoms(line, marks)
    ensures var n := marks + if StartsWithBom(WithoutBoms(line, marks).content) then 1 else 0;
            HasBoms(line, n) && WithoutBoms(line, n) == WithoutBom(WithoutBoms(line, marks))
  {
  }

  class Lexer {
    const buf: LineBuffer
    var currentPos: Pos
    var markerInlineError: bool

    const input: seq<Byte>
    /** How many lines of the input were taken, and how many marks the next one and the last one lost. */
    ghost var taken: nat
    ghost var marks: nat
    ghost var lost: nat

    ghost predicate Valid()
      reads this`currentPos, this`taken, this`marks, this`lost, buf
    {
      buf.Valid() && InStep(input, taken, marks, lost, currentPos, buf.prepend, buf.Real())
    }

    constructor (input: seq<Byte>)
      ensures Valid() && fresh(buf) && this.input == input && taken == marks == lost == 0 && currentPos == ORIGIN
      ensures buf.Queue() == SplitLines(input, ORIGIN)
    {
      this.input := input;
      buf := new LineBuffer(input);
      currentPos := ORIGIN;
      markerInlineError := false;
      taken := 0;
      marks := 0;
      lost := 0;
      new;
      AtStart(input);
    }

    /** Takes the next line, and the position with it. */
    method ConsumeLine() returns (r: Option<Line>)
      requires Valid()
      modifies this`currentPos, this`taken, this`marks, this`lost, buf
      ensures Valid()
      ensures r == if old(buf.Queue()) == [] then None else Some(old(buf.Queue()[0]))
      ensures buf.Queue() == if old(buf.Queue()) == [] then [] else old(buf.Queue()[1..])
      ensures r.Some? ==> currentPos == PosAfterLine(r.value) && r.value.offset == r.value.pos.byteOffset
      ensures r.None? ==> currentPos == old(currentPos)
      ensures if old(buf.Real()) != [] && old(buf.prepend) == []
              then taken == old(taken) + 1 && lost == old(marks) && marks == 0
              else taken == old(taken) && lost == old(lost) && marks == old(marks)
    {
      hide PosAfterLine;
      hide InStep;
      hide LineBuffer.Real;
      hide LineBuffer.Valid;
      ghost var prepend, unread := buf.prepend, buf.Real();
      assert buf.Queue() == prepend + unread;
      assert prepend == [] ==> prepend + unread == unread;
      r := buf.ConsumeNext();
      if r.Some? {
        if prepend == [] {
          TakingALine(input, taken, marks, lost, currentPos, unread);
          taken := taken + 1;
          lost := marks;
          marks := 0;
        } else {
          TakingATail(input, taken, marks, lost, currentPos, prepend, unread);
        }
        currentPos := PosAfterLine(r.value);
      }
    }

    method PeekNextLine() returns (r: Option<Line>)
      requires Valid()
      ensures r == if buf.Queue() == [] then None else Some(buf.Queue()[0])
    {
      r := buf.PeekNext();
    }

    /** Whether the next line is a tail that was put back, and not a line of the input. */
    method IsNextLineSynthetic() returns (r: bool)
      requires Valid()
      ensures r <==> buf.Queue() != buf.Real()
    {
      r := buf.IsNextSynthetic();
    }

    /** Takes the blank lines in front and stops at the first line that is not blank. */
    method SkipEmptyLines() returns (pos: Pos)
      requires Valid()
      modifies this`currentPos, this`taken, this`marks, this`lost, buf
      ensures Valid() && pos == currentPos
      ensures SkippedTo(old(buf.Queue()), buf.Queue())
    {
      hide *;
      ghost var queue := buf.Queue();
      ghost var n := 0;
      while true
        invariant Valid()
        invariant n <= |queue| && buf.Queue() == queue[n..]
        invariant forall i :: 0 <= i < n ==> IsBlankLine(queue[i])
        decreases |queue| - n
      {
        var first := PeekNextLine();
        if first.None? || !IsBlankLine(first.value) {
          break;
        }
        var _ := ConsumeLine();
        n := n + 1;
      }
      SkippedIs(queue, buf.Queue(), n);
      return currentPos;
    }

    /** The same between documents, where the next line may start with a mark. */
    method SkipBlankLinesBetweenDocs() returns (pos: Pos)
      requires Valid()
      modifies this`currentPos, this`taken, this`marks, this`lost, buf
      ensures Valid() && pos == currentPos
      ensures exists queue :: SkippedTo(old(buf.Queue()), queue) && Bounded(queue, buf.Queue())
    {
      hide *;
      pos := SkipEmptyLines();
      ghost var queue := buf.Queue();
      SignalDocumentBoundary();
      assert SkippedTo(old(buf.Queue()), queue) && Bounded(queue, buf.Queue());
    }

    method SignalDocumentBoundary()
      requires Valid()
      modifies this`marks, buf
      ensures Valid()
      ensures Bounded(old(buf.Queue()), buf.Queue())
      ensures marks == old(marks) + if old(buf.Real()) != [] && StartsWithBom(old(buf.Real()[0]).content) then 1 else 0
    {
      hide PosAfterLine;
      hide WithoutBom;
      hide StartsWithBom;
      hide Bounded;
      hide LineBuffer.Real;
      hide LineBuffer.Valid;
      ghost var unread := buf.Real();
      hide InStep;
      buf.SignalDocumentBoundary();
      BoundedIs(buf.prepend, unread, buf.Real());
      if unread != [] {
        TakingAMark(input, taken, marks, lost, currentPos, buf.prepend, unread);
      }
      if unread != [] && StartsWithBom(unread[0].content) {
        marks := marks + 1;
      }
    }

    /** Reads to the end of the input; what is returned is the position of the end. */
    method DrainToEnd() returns (pos: Pos)
      requires Valid()
      modifies this`currentPos, this`taken, this`marks, this`lost, buf
      ensures Valid() && pos == currentPos && buf.Queue() == []
      ensures IsEnd(input, lost, pos)
      ensures pos == ScanTo(input, |input|) <==> lost == 0 || !IsUnterminated(SplitLines(input, ORIGIN))
    {
      hide PosAfterLine;
      hide SplitLines;
      while true
        invariant Valid()
        decreases |buf.Queue()|
      {
        hide IsAfter;
        hide IsEnd;
        var line := ConsumeLine();
        if line.None? {
          break;
        }
      }
      assert taken == |SplitLines(input, ORIGIN)|;
      ExactEnd(input, lost, currentPos);
      return currentPos;
    }

    /**
     Takes a marker line.  What stands behind the marker is a comment, the start
     of the root node or an error; the root node is read again as a line of its
     own, at its own place in the input.
     */
    method ConsumeMarkerLine(rejectAllInline: bool, startsRoot: seq<Byte> -> bool)
      returns (markerPos: Pos, after: Pos, tail: MarkerTail)
      requires Valid() && buf.Queue() != []
      modifies this, buf
      ensures Valid() && after == currentPos
      ensures var line := old(buf.Queue()[0]);
              && markerPos == line.pos && after == PosAfterLine(line)
              && tail == TailOf(line, rejectAllInline, startsRoot)
              && buf.Queue() == (if tail.RootNode? then [TailLine(line)] else []) + old(buf.Queue()[1..])
              && markerInlineError == (old(markerInlineError) || tail.Rejected?)
    {
      hide *;
      var line := ConsumeLine();
      markerPos := line.value.pos;
      after := currentPos;
      tail := TailOf(line.value, rejectAllInline, startsRoot);
      if tail.Rejected? {
        markerInlineError := true;
      }
      if tail.RootNode? {
        PrependTail(line.value);
      }
    }

    method PrependTail(line: Line)
      requires Valid() && currentPos == PosAfterLine(line) && line.offset == line.pos.byteOffset
      modifies buf
      ensures Valid()
      ensures buf.Queue() == [TailLine(line)] + old(buf.Queue())
    {
      hide PosAfterLine;
      hide SplitLines;
      hide IsAfter;
      hide WithoutBoms;
      hide TailLine;
      hide LineBuffer.Queue;
      hide LineBuffer.Real;
      hide LineBuffer.Valid;
      TailEndsWithItsLine(line);
      hide Inline;
      buf.PrependLine(TailLine(line));
    }
  }

  lemma BoundedIs(prepended: seq<Line>, before: seq<Line>, after: seq<Line>)
    requires after == if before == [] then [] else [WithoutBom(before[0])] + before[1..]
    ensures Bounded(prepended + before, prepended + after)
  {
    hide WithoutBom;
    assert BoundedAt(prepended + before, prepended + after, |prepended|);
  }

  lemma SkippedIs(queue: seq<Line>, rest: seq<Line>, n: nat)
    requires n <= |queue| && rest == queue[n..]
    requires forall i :: 0 <= i < n ==> IsBlankLine(queue[i])
    requires rest != [] ==> !IsBlankLine(rest[0])
    ensures SkippedTo(queue, rest)
  {
    assert SkippedBy(queue, rest, n);
  }

  /** The blank lines in front of `queue`, and only they, were taken. */
  ghost predicate SkippedTo(queue: seq<Line>, rest: seq<Line>) {
    exists n :: SkippedBy(queue, rest, n)
  }

  ghost predicate SkippedBy(queue: seq<Line>, rest: seq<Line>, n: nat) {
    && n <= |queue| && rest == queue[n..]
    && (forall i :: 0 <= i < n ==> IsBlankLine(queue[i]))
    && (rest != [] ==> !IsBlankLine(rest[0]))
  }

  /** One line of the queue, the first that comes from the input, may have lost one mark. */
  ghost predicate Bounded(before: seq<Line>, after: seq<Line>) {
    exists n :: BoundedAt(before, after, n)
  }

  ghost predicate BoundedAt(before: seq<Line>, after: seq<Line>, n: nat) {
    && n <= |before|
    && after == if n == |before| then before else before[..n] + [WithoutBom(before[n])] + before[n + 1..]
  }
}
