/** Positions in a text: byte offset, line and column. */
module Positions {
  import opened Bytes
  import Utf8

  /** Lines count from 1, columns from 0 and in characters. */
  datatype Pos = Pos(byteOffset: nat, line: nat, column: nat) {

    function Advance(c: Scalar): Pos {
      if c == LF then Pos(byteOffset + Utf8.Width(c), line + 1, 0)
      else Pos(byteOffset + Utf8.Width(c), line, column + 1)
    }
  }

  const ORIGIN := Pos(0, 1, 0)

  predicate IsAscii(bytes: seq<Byte>) {
    forall i :: 0 <= i < |bytes| ==> bytes[i] < 0x80
  }

  /** The column after a prefix of a line; an ASCII prefix needs no count. */
  function ColumnAt(content: seq<Byte>, offset: nat): (column: nat)
    requires offset <= |content|
    ensures column == Utf8.CharCount(content[..offset])
  {
    if IsAscii(content[..offset]) then
      AsciiCount(content[..offset]);
      offset
    else Utf8.CharCount(content[..offset])
  }

  lemma {:induction false} AsciiCount(bytes: seq<Byte>)
    requires IsAscii(bytes)
    ensures Utf8.CharCount(bytes) == |bytes|
  {
    if bytes != [] {
      AsciiCount(bytes[1..]);
    }
  }

  function AdvanceWithinLine(pos: Pos, content: seq<Byte>): Pos {
    Pos(pos.byteOffset + |content|, pos.line, pos.column + ColumnAt(content, |content|))
  }

  function AdvanceAll(pos: Pos, cs: seq<Scalar>): Pos
    decreases cs
  {
    if cs == [] then pos else AdvanceAll(pos.Advance(cs[0]), cs[1..])
  }

  /** Advancing over a line at once is advancing over its characters one by one. */
  lemma {:induction false} AdvanceWithinLineIsAdvanceAll(pos: Pos, cs: seq<Scalar>)
    requires LF !in cs
    ensures AdvanceWithinLine(pos, Utf8.Encode(cs)) == AdvanceAll(pos, cs)
    decreases cs
  {
    var bytes := Utf8.Encode(cs);
    assert bytes[..|bytes|] == bytes;
    Utf8.CharCountCounts(cs);
    if cs != [] {
      var rest := Utf8.Encode(cs[1..]);
      assert rest[..|rest|] == rest;
      Utf8.CharCountCounts(cs[1..]);
      assert cs[0] in cs;
      AdvanceWithinLineIsAdvanceAll(pos.Advance(cs[0]), cs[1..]);
    }
  }

  // ----- The reference: reading byte by byte -----

  /** A line feed right after a carriage return ends the same line once more. */
  predicate InsideCrLf(src: seq<Byte>, k: nat) {
    0 < k < |src| && src[k - 1] == CR && src[k] == LF
  }

  /** A line break begins at `k`. */
  predicate BreaksAt(src: seq<Byte>, k: nat) {
    k < |src| && (src[k] == CR || (src[k] == LF && !InsideCrLf(src, k)))
  }

  /** The position after the first `k` bytes: LF, CR and CR LF are one break each. */
  function ScanTo(src: seq<Byte>, k: nat): (pos: Pos)
    requires k <= |src|
    ensures pos.byteOffset == k
  {
    if k == 0 then ORIGIN
    else
      var p, b := ScanTo(src, k - 1), src[k - 1];
      if BreaksAt(src, k - 1) then Pos(k, p.line + 1, 0)
      else if InsideCrLf(src, k - 1) || Utf8.IsContinuation(b) then Pos(k, p.line, p.column)
      else Pos(k, p.line, p.column + 1)
  }

  predicate OnBoundary(src: seq<Byte>, k: nat) {
    k == 0 || k == |src| || (k < |src| && !Utf8.IsContinuation(src[k]))
  }

  lemma {:induction false} ScanIsMonotone(src: seq<Byte>, a: nat, b: nat)
    requires a <= b <= |src|
    ensures ScanTo(src, a).line <= ScanTo(src, b).line
    ensures ScanTo(src, a).line == ScanTo(src, b).line ==> ScanTo(src, a).column <= ScanTo(src, b).column
  {
    if a < b {
      ScanIsMonotone(src, a, b - 1);
      if BreaksAt(src, b - 1) {
      } else {
      }
    }
  }
}

/** The table of line breaks and the search in it. */
module LineIndexes {
  import opened Bytes
  import opened Positions
  import Utf8

  predicate Increasing(s: seq<nat>) {
    forall i, j :: 0 <= i < j < |s| ==> s[i] < s[j]
  }

  datatype LineIndex = LineIndex(newlines: seq<nat>, source: seq<Byte>) {

    /** The table lists exactly the breaks of the source, in order. */
    ghost predicate Valid() {
      && Utf8.Decode(source).Some?
      && Increasing(newlines)
      && forall k: nat :: k in newlines <==> BreaksAt(source, k)
    }

    function LineStart(newline: nat): nat {
      if newline < |source| && source[newline] == CR && newline + 1 < |source| && source[newline + 1] == LF
      then newline + 2 else newline + 1
    }

    /** The text between two offsets, or nothing when one is not on a character boundary. */
    function Get(from: nat, to: nat): seq<Byte> {
      if from <= to <= |source| && OnBoundary(source, from) && OnBoundary(source, to) then source[from..to] else []
    }

    function LineColumn(offset: nat): (nat, nat)
      requires Increasing(newlines)
    {
      var n := PartitionPoint(newlines, offset, 0, |newlines|);
      var start := if n == 0 then 0 else LineStart(newlines[n - 1]);
      var prefix := Get(start, offset);
      (n + 1, if IsAscii(prefix) then |prefix| else Utf8.CharCount(prefix))
    }
  }

  /** Binary search for the number of breaks before `offset`. */
  function PartitionPoint(newlines: seq<nat>, offset: nat, lo: nat, hi: nat): (n: nat)
    requires lo <= hi <= |newlines| && Increasing(newlines)
    requires forall i :: 0 <= i < lo ==> newlines[i] < offset
    requires forall i :: hi <= i < |newlines| ==> newlines[i] >= offset
    ensures n <= |newlines|
    ensures forall i :: 0 <= i < n ==> newlines[i] < offset
    ensures forall i :: n <= i < |newlines| ==> newlines[i] >= offset
    decreases hi - lo
  {
    if lo == hi then lo
    else
      var mid := (lo + hi) / 2;
      if newlines[mid] < offset then PartitionPoint(newlines, offset, mid + 1, hi)
      else PartitionPoint(newlines, offset, lo, mid)
  }

  /** The table so far: exactly the breaks before `i`, in order. */
  ghost predicate Lists(newlines: seq<nat>, source: seq<Byte>, i: nat) {
    && Increasing(newlines)
    && (forall j :: 0 <= j < |newlines| ==> newlines[j] < i)
    && (forall k: nat :: k in newlines <==> k < i && BreaksAt(source, k))
  }

  lemma ListsNext(newlines: seq<nat>, source: seq<Byte>, i: nat)
    requires Lists(newlines, source, i) && i < |source|
    ensures Lists(if BreaksAt(source, i) then newlines + [i] else newlines, source, i + 1)
  {
    hide BreaksAt;
  }

  lemma ListsNothing(source: seq<Byte>)
    ensures Lists([], source, 0)
  {
    hide BreaksAt;
  }

  lemma ListsAll(newlines: seq<nat>, source: seq<Byte>)
    requires Utf8.Decode(source).Some? && Lists(newlines, source, |source|)
    ensures LineIndex(newlines, source).Valid()
  {
    assert forall k: nat :: BreaksAt(source, k) ==> k < |source|;
    hide BreaksAt;
  }

  /** One pass over the source; the line feed of a pair is skipped. */
  method New(source: seq<Byte>) returns (index: LineIndex)
    requires Utf8.Decode(source).Some?
    ensures index.source == source && index.Valid()
  {
    hide Lists;
    hide LineIndex.Valid;
    var newlines: seq<nat> := [];
    var i := 0;
    ListsNothing(source);
    while i < |source|
      invariant i <= |source|
      invariant !InsideCrLf(source, i)
      invariant Lists(newlines, source, i)
    {
      var b := source[i];
      ListsNext(newlines, source, i);
      if b == CR {
        newlines := newlines + [i];
        i := i + 1;
        if i < |source| && source[i] == LF {
          ListsNext(newlines, source, i);
          i := i + 1;
        }
      } else {
        if b == LF {
          newlines := newlines + [i];
        }
        i := i + 1;
      }
    }
    ListsAll(newlines, source);
    return LineIndex(newlines, source);
  }

  // ----- The search agrees with the scan -----

  /** The number of breaks that begin before `k`. */
  function BreaksBefore(src: seq<Byte>, k: nat): nat
    requires k <= |src|
  {
    if k == 0 then 0 else BreaksBefore(src, k - 1) + if BreaksAt(src, k - 1) then 1 else 0
  }

  lemma {:induction false} ScanCountsBreaks(src: seq<Byte>, k: nat)
    requires k <= |src|
    ensures ScanTo(src, k).line == 1 + BreaksBefore(src, k)
  {
    if k > 0 {
      ScanCountsBreaks(src, k - 1);
    }
  }

  /** The table entries below an offset are as many as the breaks before it. */
  lemma {:induction false} TableCountsBreaks(index: LineIndex, k: nat, n: nat)
    requires index.Valid() && k <= |index.source| && n <= |index.newlines|
    requires forall i :: 0 <= i < n ==> index.newlines[i] < k
    requires forall i :: n <= i < |index.newlines| ==> index.newlines[i] >= k
    ensures n == BreaksBefore(index.source, k)
  {
    if k > 0 {
      if BreaksAt(index.source, k - 1) {
        LastBelow(index, k, n);
        TableCountsBreaks(index, k - 1, n - 1);
      } else {
        assert forall i :: 0 <= i < n ==> index.newlines[i] in index.newlines;
        TableCountsBreaks(index, k - 1, n);
      }
    }
  }

  /** A break right before `k` is the last table entry below `k`. */
  lemma LastBelow(index: LineIndex, k: nat, n: nat)
    requires index.Valid() && 0 < k <= |index.source| && n <= |index.newlines|
    requires BreaksAt(index.source, k - 1)
    requires forall i :: 0 <= i < n ==> index.newlines[i] < k
    requires forall i :: n <= i < |index.newlines| ==> index.newlines[i] >= k
    ensures n > 0 && index.newlines[n - 1] == k - 1
    ensures forall i :: 0 <= i < n - 1 ==> index.newlines[i] < k - 1
  {
    assert k - 1 in index.newlines;
    var i :| 0 <= i < |index.newlines| && index.newlines[i] == k - 1;
    assert i < n;
    assert index.newlines[n - 1] < k;
  }

  /** Where the line of offset `k` starts, and the column there. */
  lemma {:induction false} ScanWithinLine(src: seq<Byte>, start: nat, k: nat)
    requires start <= k <= |src|
    requires ScanTo(src, start).column == 0
    requires forall j :: start <= j < k ==> !BreaksAt(src, j) && !InsideCrLf(src, j)
    ensures ScanTo(src, k).column == Utf8.CharCount(src[start..k])
  {
    if start < k {
      ScanWithinLine(src, start, k - 1);
      assert src[start..k] == src[start..k - 1] + [src[k - 1]];
      Utf8.CharCountAppend(src[start..k - 1], [src[k - 1]]);
      assert Utf8.CharCount([src[k - 1]][1..]) == 0;
    } else {
      assert src[start..k] == [];
    }
  }

  /** In well-formed text a character starts after every ASCII byte. */
  lemma {:induction false} BoundaryAfterAscii(cs: seq<Scalar>, i: nat)
    requires i < |Utf8.Encode(cs)| && Utf8.Encode(cs)[i] < 0x80
    ensures OnBoundary(Utf8.Encode(cs), i + 1)
    decreases |cs|
  {
    if cs != [] {
      var n := Utf8.Width(cs[0]);
      var rest := Utf8.Encode(cs[1..]);
      if i < n {
        assert n == 1;
        if rest != [] {
          assert rest == Utf8.EncodeChar(cs[1]) + Utf8.Encode(cs[1..][1..]);
          assert !Utf8.IsContinuation(Utf8.EncodeChar(cs[1])[0]);
        }
      } else {
        BoundaryAfterAscii(cs[1..], i - n);
      }
    }
  }

  /** What a search answers that finds `n` breaks before `offset`, the last of them before `start`. */
  lemma AnswerIs(index: LineIndex, offset: nat, n: nat, start: nat)
    requires Increasing(index.newlines) && n <= |index.newlines|
    requires n == PartitionPoint(index.newlines, offset, 0, |index.newlines|)
    requires start == if n == 0 then 0 else index.LineStart(index.newlines[n - 1])
    ensures var prefix := index.Get(start, offset);
            index.LineColumn(offset) == (n + 1, if IsAscii(prefix) then |prefix| else Utf8.CharCount(prefix))
  {
    hide PartitionPoint;
    hide LineIndex.LineStart;
    hide LineIndex.Get;
    hide IsAscii;
    hide Utf8.CharCount;
    hide Increasing;
  }

  lemma LineIsScan(index: LineIndex, offset: nat)
    requires index.Valid() && offset <= |index.source| && OnBoundary(index.source, offset)
    ensures index.LineColumn(offset).0 == ScanTo(index.source, offset).line
  {
    assert Increasing(index.newlines);
    hide *;
    var n := PartitionPoint(index.newlines, offset, 0, |index.newlines|);
    AnswerIs(index, offset, n, if n == 0 then 0 else index.LineStart(index.newlines[n - 1]));
    TableCountsBreaks(index, offset, n);
    ScanCountsBreaks(index.source, offset);
  }

  lemma ColumnIsScan(index: LineIndex, offset: nat)
    requires index.Valid() && offset <= |index.source| && OnBoundary(index.source, offset)
    ensures index.LineColumn(offset).1 == ScanTo(index.source, offset).column
  {
    assert Increasing(index.newlines);
    hide *;
    var n := PartitionPoint(index.newlines, offset, 0, |index.newlines|);
    var start := if n == 0 then 0 else index.LineStart(index.newlines[n - 1]);
    AnswerIs(index, offset, n, start);
    StartOfLine(index, offset, n);
    ColumnFromStart(index, start, offset);
  }

  /**
   The search gives the position the scan gives, at every offset on a character
   boundary, also between the two bytes of a CR LF.
   */
  lemma LineColumnIsScan(index: LineIndex, offset: nat)
    requires index.Valid() && offset <= |index.source| && OnBoundary(index.source, offset)
    ensures index.LineColumn(offset) == (ScanTo(index.source, offset).line, ScanTo(index.source, offset).column)
  {
    hide *;
    LineIsScan(index, offset);
    ColumnIsScan(index, offset);
  }

  lemma ColumnFromStart(index: LineIndex, start: nat, offset: nat)
    requires offset <= |index.source| && OnBoundary(index.source, offset) && StartsLineOf(index.source, start, offset)
    ensures var prefix := index.Get(start, offset);
            ScanTo(index.source, offset).column == if IsAscii(prefix) then |prefix| else Utf8.CharCount(prefix)
  {
    hide ScanTo;
    hide BreaksAt;
    hide InsideCrLf;
    hide Utf8.CharCount;
    if start <= offset {
      ScanWithinLine(index.source, start, offset);
      var prefix := index.source[start..offset];
      if IsAscii(prefix) {
        AsciiCount(prefix);
      }
    }
  }

  /** From the start of its line to `offset` there is no break; the start may lie behind the inside of a CR LF. */
  ghost predicate StartsLineOf(src: seq<Byte>, start: nat, offset: nat)
    requires offset <= |src|
  {
    if start <= offset then
      && OnBoundary(src, start)
      && ScanTo(src, start).column == 0
      && forall j :: start <= j < offset ==> !BreaksAt(src, j) && !InsideCrLf(src, j)
    else ScanTo(src, offset).column == 0
  }

  lemma StartOfLine(index: LineIndex, offset: nat, n: nat)
    requires index.Valid() && offset <= |index.source| && n <= |index.newlines|
    requires forall i :: 0 <= i < n ==> index.newlines[i] < offset
    requires forall i :: n <= i < |index.newlines| ==> index.newlines[i] >= offset
    ensures StartsLineOf(index.source, if n == 0 then 0 else index.LineStart(index.newlines[n - 1]), offset)
  {
    hide ScanTo;
    hide BreaksAt;
    var src := index.source;
    var newline := if n == 0 then -1 else index.newlines[n - 1];
    var start := if n == 0 then 0 else index.LineStart(index.newlines[n - 1]);
    if n == 0 {
      StartOfText(src);
    } else {
      assert newline in index.newlines;
      AfterBreak(index, newline);
    }
    forall j | start <= j < offset
      ensures !BreaksAt(src, j) && !InsideCrLf(src, j)
    {
      NoBreakBetween(index, offset, n, newline, j);
      if j - 1 > newline {
        NoBreakBetween(index, offset, n, newline, j - 1);
      }
      NotInside(src, newline, start, j);
    }
  }

  lemma StartOfText(src: seq<Byte>)
    ensures ScanTo(src, 0).column == 0
  {
  }

  lemma NotInside(src: seq<Byte>, newline: int, start: nat, j: nat)
    requires newline < start <= j < |src|
    requires newline == -1 ==> start == 0
    requires newline >= 0 ==> start == LineIndex([], src).LineStart(newline)
    requires !BreaksAt(src, j) && (0 < j && j - 1 > newline ==> !BreaksAt(src, j - 1))
    ensures !InsideCrLf(src, j)
  {
  }

  lemma NoBreakBetween(index: LineIndex, offset: nat, n: nat, newline: int, j: nat)
    requires index.Valid() && n <= |index.newlines|
    requires forall i :: 0 <= i < n ==> index.newlines[i] < offset
    requires forall i :: n <= i < |index.newlines| ==> index.newlines[i] >= offset
    requires newline == if n == 0 then -1 else index.newlines[n - 1]
    requires newline < j < offset
    ensures !BreaksAt(index.source, j)
  {
    forall i | 0 <= i < |index.newlines|
      ensures index.newlines[i] != j
    {
      if i < n - 1 {
        assert index.newlines[i] < index.newlines[n - 1];
      }
    }
  }

  lemma AfterBreak(index: LineIndex, newline: nat)
    requires index.Valid() && BreaksAt(index.source, newline)
    ensures var start := index.LineStart(newline);
            && newline < start <= |index.source|
            && ScanTo(index.source, newline + 1).column == 0
            && ScanTo(index.source, start).column == 0
            && OnBoundary(index.source, start)
  {
    var src := index.source;
    var cs := Utf8.Decode(src).value;
    Utf8.OnlyEncodingsDecode(src);
    BoundaryAfterAscii(cs, newline);
    if index.LineStart(newline) == newline + 2 {
      BoundaryAfterAscii(cs, newline + 1);
    }
  }

  /** Later offsets get later positions; only the two bytes of a CR LF share one. */
  lemma LineColumnIsMonotone(index: LineIndex, a: nat, b: nat)
    requires index.Valid() && a < b <= |index.source|
    requires OnBoundary(index.source, a) && OnBoundary(index.source, b)
    ensures var p, q := index.LineColumn(a), index.LineColumn(b);
            && (p.0 < q.0 || (p.0 == q.0 && p.1 <= q.1))
            && (p == q <==> b == a + 1 && InsideCrLf(index.source, a))
  {
    hide *;
    LineColumnIsScan(index, a);
    LineColumnIsScan(index, b);
    ScanAdvances(index, a, b);
  }

  lemma ScanAdvances(index: LineIndex, a: nat, b: nat)
    requires index.Valid() && a < b <= |index.source|
    requires OnBoundary(index.source, a) && OnBoundary(index.source, b)
    ensures var p, q := ScanTo(index.source, a), ScanTo(index.source, b);
            && (p.line < q.line || (p.line == q.line && p.column <= q.column))
            && ((p.line, p.column) == (q.line, q.column) <==> b == a + 1 && InsideCrLf(index.source, a))
  {
    hide ScanTo;
    var src := index.source;
    ScanIsMonotone(src, a, b);
    ScanMoves(index, a);
    if InsideCrLf(src, a) {
      if b > a + 1 {
        ScanMoves(index, a + 1);
        ScanIsMonotone(src, a + 2, b);
      }
    } else {
      ScanIsMonotone(src, a + 1, b);
    }
  }

  /** One byte further the position has changed, except inside a CR LF, and then the next byte is a boundary. */
  lemma ScanMoves(index: LineIndex, a: nat)
    requires index.Valid() && a < |index.source| && OnBoundary(index.source, a)
    ensures var p, q := ScanTo(index.source, a), ScanTo(index.source, a + 1);
            if InsideCrLf(index.source, a) then
              (p.line, p.column) == (q.line, q.column) && OnBoundary(index.source, a + 1)
                && !InsideCrLf(index.source, a + 1)
            else p.line < q.line || (p.line == q.line && p.column < q.column)
  {
    if InsideCrLf(index.source, a) {
      Utf8.OnlyEncodingsDecode(index.source);
      BoundaryAfterAscii(Utf8.Decode(index.source).value, a);
    }
  }
}
