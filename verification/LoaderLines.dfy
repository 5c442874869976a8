/** The line on which the loader looks for a node's comment, once positions come from the line index. */
module LoaderLines {
  import opened Bytes
  import opened Wrappers
  import opened Positions
  import opened LineIndexes
  import Utf8
  import opened Events
  import opened Ast
  import opened LoaderSpec
  import opened LoaderOrder

  /** The loader asks this index for its lines. */
  ghost predicate Asks(o: Options, index: LineIndex) {
    index.Valid() && forall offset: nat :: o.lineColumn(offset) == index.LineColumn(offset)
  }

  /** Where the last byte before `end` stands; the two bytes of a CR LF are taken as one. */
  function LastBefore(src: seq<Byte>, end: nat): nat
    requires 0 < end <= |src|
  {
    if InsideCrLf(src, end - 1) then end - 2 else end - 1
  }

  /**
   A node that has text is taken to end on the line of its last byte: also when
   its text takes in a line break and its span ends at the start of the next line.
   */
  lemma NodeEndsOnTheLineOfItsLastByte(o: Options, index: LineIndex, n: Node)
    requires Asks(o, index)
    requires n.loc.start < n.loc.end <= |index.source| && OnBoundary(index.source, n.loc.end)
    ensures var line := ScanTo(index.source, LastBefore(index.source, n.loc.end)).line;
            && NodeEndLine(o, n) == Some(line)
            && (TextLine(o, n) == Some(line) || (n.Scalar? && (n.style.Literal? || n.style.Folded?)))
  {
    hide LineIndex.LineColumn;
    hide LineIndex.Valid;
    hide ScanTo;
    hide BreaksAt;
    hide InsideCrLf;
    hide LastBefore;
    hide OnBoundary;
    var src, end := index.source, n.loc.end;
    AnswersAreScanned(o, index, end);
    StepOverLast(src, end);
    if !BreaksAt(src, end - 1) && !InsideCrLf(src, end - 1) {
      ColumnBehindCharacter(index, end);
    }
  }

  lemma AnswersAreScanned(o: Options, index: LineIndex, k: nat)
    requires Asks(o, index) && k <= |index.source| && OnBoundary(index.source, k)
    ensures o.lineColumn(k) == (ScanTo(index.source, k).line, ScanTo(index.source, k).column)
  {
    hide ScanTo;
    hide OnBoundary;
    LineColumnIsScan(index, k);
    assert o.lineColumn(k) == index.LineColumn(k);
  }

  lemma StepOverLast(src: seq<Byte>, end: nat)
    requires 0 < end <= |src|
    ensures var last, p := ScanTo(src, LastBefore(src, end)), ScanTo(src, end);
            if BreaksAt(src, end - 1) || InsideCrLf(src, end - 1) then p.column == 0 && p.line == last.line + 1 >= 2
            else p.line == last.line >= 1
  {
    ScanCountsBreaks(src, LastBefore(src, end));
  }

  /** Behind a byte that is no break the column is not zero. */
  lemma {:induction false} ColumnBehindCharacter(index: LineIndex, k: nat)
    requires index.Valid() && 0 < k <= |index.source|
    requires !BreaksAt(index.source, k - 1) && !InsideCrLf(index.source, k - 1)
    ensures ScanTo(index.source, k).column > 0
    decreases k
  {
    var src := index.source;
    if Utf8.IsContinuation(src[k - 1]) {
      LeadInFront(index, k - 1);
      ColumnBehindCharacter(index, k - 1);
    }
  }

  /** A continuation byte follows another byte of the same character. */
  lemma LeadInFront(index: LineIndex, i: nat)
    requires index.Valid() && i < |index.source| && Utf8.IsContinuation(index.source[i])
    ensures i > 0 && index.source[i - 1] >= 0x80
  {
    var cs := Utf8.Decode(index.source).value;
    Utf8.OnlyEncodingsDecode(index.source);
    FirstByteLeads(cs);
    if i > 0 && index.source[i - 1] < 0x80 {
      BoundaryAfterAscii(cs, i - 1);
    }
  }

  lemma FirstByteLeads(cs: seq<Scalar>)
    ensures cs != [] ==> !Utf8.IsContinuation(Utf8.Encode(cs)[0])
  {
  }
}
