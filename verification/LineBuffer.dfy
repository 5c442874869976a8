/** A buffer of lines with one line primed, read as one queue. */
module LineBuffers {
  import opened Bytes
  import opened Wrappers
  import opened Positions
  import opened Lines
  import Utf8

  /** The byte order mark in UTF-8. */
  const BOM_BYTES: seq<Byte> := [0xEF, 0xBB, 0xBF]

  predicate IsBlank(b: Byte) {
    b == SPACE || b == TAB
  }

  /** The content from its first byte that is neither a space nor a tab. */
  function TrimStart(content: seq<Byte>): (trimmed: seq<Byte>)
    ensures |trimmed| <= |content| && trimmed == content[|content| - |trimmed|..]
    ensures forall i :: 0 <= i < |content| - |trimmed| ==> IsBlank(content[i])
    ensures trimmed != [] ==> !IsBlank(trimmed[0])
  {
    if content == [] || !IsBlank(content[0]) then content else TrimStart(content[1..])
  }

  predicate HasContent(line: Line) {
    TrimStart(line.content) != []
  }

  /** A line has content if and only if some byte of it is neither a space nor a tab. */
  lemma {:induction false} ContentIsNotWhite(content: seq<Byte>)
    ensures TrimStart(content) != [] <==> exists i :: 0 <= i < |content| && content[i] != 0x20 && content[i] != 0x09
    decreases content
  {
    if content != [] && IsBlank(content[0]) {
      ContentIsNotWhite(content[1..]);
      assert forall i :: 0 < i < |content| ==> content[i] == content[1..][i - 1];
    }
  }

  predicate StartsWithBom(content: seq<Byte>) {
    |content| >= 3 && content[..3] == BOM_BYTES
  }

  /** The line without the mark it starts with; its indent and its column stay. */
  function WithoutBom(line: Line): Line {
    if StartsWithBom(line.content) then
      Line(line.content[3..], line.offset + 3, line.indent, line.breakType,
           Pos(line.pos.byteOffset + 3, line.pos.line, line.pos.column))
    else line
  }

  /** `r` is the first line of `lines` that is wanted. */
  ghost predicate IsFirstWanted(lines: seq<Line>, isWanted: Line -> bool, r: Option<Line>) {
    if r.None? then forall i :: 0 <= i < |lines| ==> !isWanted(lines[i])
    else exists k :: WantedAt(lines, isWanted, r.value, k)
  }

  ghost predicate WantedAt(lines: seq<Line>, isWanted: Line -> bool, line: Line, k: nat) {
    k < |lines| && lines[k] == line && isWanted(line) && forall i :: 0 <= i < k ==> !isWanted(lines[i])
  }

  /** Inside a block deeper than `base`: an empty line always is; at the root every line is. */
  predicate Inside(line: Line, base: Option<nat>) {
    line.content == [] || base.None? || line.indent > base.value
  }

  /** `block` is the longest prefix of `lines` inside the block. */
  ghost predicate IsBlock(lines: seq<Line>, base: Option<nat>, block: seq<Line>) {
    && |block| <= |lines|
    && block == lines[..|block|]
    && (forall i :: 0 <= i < |block| ==> Inside(block[i], base))
    && (|block| < |lines| ==> !Inside(lines[|block|], base))
  }

  class LineBuffer {
    /** Input not scanned yet, behind the primed line. */
    var remaining: seq<Byte>
    /** Synthetic lines to be read before the primed one. */
    var prepend: seq<Line>
    /** The next line of the input. */
    var next: Option<Line>
    /** Position at the start of `remaining`. */
    var remainingPos: Pos
    var lookahead: seq<Line>

    ghost predicate Valid()
      reads this
    {
      next.None? ==> remaining == []
    }

    /** The lines of the input still to be read. */
    ghost function Real(): seq<Line>
      reads this
    {
      (if next.Some? then [next.value] else []) + SplitLines(remaining, remainingPos)
    }

    /** The buffer as what it stands for: one queue of lines. */
    ghost function Queue(): seq<Line>
      reads this
    {
      prepend + Real()
    }

    constructor (input: seq<Byte>)
      ensures Valid() && prepend == [] && Queue() == Real() == SplitLines(input, ORIGIN)
    {
      hide ScanLine;
      hide PosAfterLine;
      hide SplitLines;
      remaining := input;
      prepend := [];
      next := None;
      remainingPos := ORIGIN;
      lookahead := [];
      new;
      Prime();
    }

    /** Scans one line of `remaining` into the primed slot. */
    method Prime()
      modifies `remaining, `next, `remainingPos
      ensures Valid()
      ensures Real() == old(SplitLines(remaining, remainingPos))
    {
      hide ScanLine;
      hide PosAfterLine;
      var scanned := ScanLine(remaining, remainingPos);
      if scanned.None? {
        next := None;
      } else {
        var (line, rest) := scanned.value;
        remainingPos := PosAfterLine(line);
        remaining := rest;
        next := Some(line);
      }
    }

    method PrependLine(line: Line)
      requires Valid()
      modifies `prepend, `lookahead
      ensures Valid()
      ensures Queue() == [line] + old(Queue())
      ensures prepend == [line] + old(prepend) && Real() == old(Real())
    {
      lookahead := [];
      prepend := [line] + prepend;
    }

    method PeekNext() returns (r: Option<Line>)
      requires Valid()
      ensures r == if Queue() == [] then None else Some(Queue()[0])
    {
      SplitNothing(remainingPos);
      r := if prepend != [] then Some(prepend[0]) else next;
    }

    method IsNextSynthetic() returns (r: bool)
      ensures r <==> Queue() != Real()
    {
      assert |Queue()| == |prepend| + |Real()|;
      r := prepend != [];
    }

    method PeekNextIndent() returns (r: Option<nat>)
      requires Valid()
      ensures r == if Queue() == [] then None else Some(Queue()[0].indent)
    {
      var first := PeekNext();
      r := if first.Some? then Some(first.value.indent) else None;
    }

    method PeekSecond() returns (r: Option<Line>)
      requires Valid()
      ensures r == if |Queue()| < 2 then None else Some(Queue()[1])
    {
      hide ScanLine;
      hide PosAfterLine;
      SplitNothing(remainingPos);
      if prepend != [] {
        if |prepend| >= 2 {
          return Some(prepend[1]);
        }
        return next;
      }
      if next.None? {
        return None;
      }
      var scanned := ScanLine(remaining, remainingPos);
      return if scanned.Some? then Some(scanned.value.0) else None;
    }

    method PeekFirstContentLineAfterNext() returns (r: Option<Line>)
      requires Valid()
      ensures Queue() == [] ==> r == None
      ensures Queue() != [] ==> IsFirstWanted(Queue()[1..], HasContent, r)
    {
      r := PeekFirstLineAfterNextWhere(line => HasContent(line));
      SamePredicate(Queue(), r);
    }

    lemma SamePredicate(lines: seq<Line>, r: Option<Line>)
      requires lines != [] ==> IsFirstWanted(lines[1..], line => HasContent(line), r)
      ensures lines != [] ==> IsFirstWanted(lines[1..], HasContent, r)
    {
      if lines != [] && r.Some? {
        var k :| WantedAt(lines[1..], line => HasContent(line), r.value, k);
        assert WantedAt(lines[1..], HasContent, r.value, k);
      }
    }

    method PeekFirstLineWhere(isWanted: Line -> bool) returns (r: Option<Line>)
      requires Valid()
      ensures IsFirstWanted(Queue(), isWanted, r)
    {
      var first := PeekNext();
      if first.Some? && isWanted(first.value) {
        assert WantedAt(Queue(), isWanted, first.value, 0);
        return first;
      }
      r := PeekFirstLineAfterNextWhere(isWanted);
      if Queue() != [] {
        WantedBehind([Queue()[0]], Queue()[1..], isWanted, r);
        assert [Queue()[0]] + Queue()[1..] == Queue();
      }
    }

    /** The rest of the prepended lines, the primed line, then the input, in this order. */
    method PeekFirstLineAfterNextWhere(isWanted: Line -> bool) returns (r: Option<Line>)
      requires Valid()
      ensures Queue() == [] ==> r == None
      ensures Queue() != [] ==> IsFirstWanted(Queue()[1..], isWanted, r)
    {
      hide ScanLine;
      hide PosAfterLine;
      var first := PeekNext();
      if first.None? {
        return None;
      }
      var primed := if prepend == [] || next.None? then [] else [next.value];
      var queued := (if prepend == [] then [] else prepend[1..]) + primed;
      assert Queue()[1..] == queued + SplitLines(remaining, remainingPos) by {
        SplitNothing(remainingPos);
      }
      var found := FindFirst(queued, isWanted);
      if found.Some? {
        WantedInFront(queued, SplitLines(remaining, remainingPos), isWanted, found);
        return found;
      }
      var rest := remaining;
      var pos := remainingPos;
      ghost var passed := queued;
      while rest != []
        invariant Queue()[1..] == passed + SplitLines(rest, pos)
        invariant forall i :: 0 <= i < |passed| ==> !isWanted(passed[i])
        decreases |rest|
      {
        var (line, after) := ScanLine(rest, pos).value;
        if isWanted(line) {
          assert WantedAt(Queue()[1..], isWanted, line, |passed|);
          return Some(line);
        }
        passed := passed + [line];
        pos := PosAfterLine(line);
        rest := after;
      }
      return None;
    }

    method ConsumeNext() returns (r: Option<Line>)
      requires Valid()
      modifies this
      ensures Valid()
      ensures r == if old(Queue()) == [] then None else Some(old(Queue()[0]))
      ensures Queue() == if old(Queue()) == [] then [] else old(Queue()[1..])
      ensures old(prepend) != [] ==> prepend == old(prepend)[1..] && Real() == old(Real())
      ensures old(prepend) == [] ==> prepend == [] && Real() == Queue()
    {
      SplitNothing(remainingPos);
      hide SplitLines;
      if prepend != [] {
        r := Some(prepend[0]);
        prepend := prepend[1..];
        return;
      }
      lookahead := [];
      r := next;
      if r.None? {
        return;
      }
      next := None;
      Prime();
    }

    method AtEof() returns (r: bool)
      requires Valid()
      ensures r <==> Queue() == []
    {
      SplitNothing(remainingPos);
      r := prepend == [] && next.None?;
    }

    /** Strips one mark and no more, and only from the primed line. */
    method SignalDocumentBoundary()
      requires Valid()
      modifies `next, `lookahead
      ensures Valid()
      ensures Real() == if old(Real()) == [] then [] else [WithoutBom(old(Real())[0])] + old(Real())[1..]
      ensures old(Real()) != [] && StartsWithBom(old(Real()[0]).content) ==>
                old(Real()[0]).content == BOM_BYTES + Real()[0].content
    {
      SplitNothing(remainingPos);
      if next.Some? && StartsWithBom(next.value.content) {
        MarkAndRest(next.value);
      }
      if next.Some? && StartsWithBom(next.value.content) {
        var n := next.value;
        next := Some(Line(n.content[3..], n.offset + 3, n.indent, n.breakType,
                          Pos(n.pos.byteOffset + 3, n.pos.line, n.pos.column)));
      }
      lookahead := [];
    }

    /** The block that follows, prepended lines not counted; reading it changes no later answer. */
    method PeekUntilDedent(base: Option<nat>) returns (block: seq<Line>)
      requires Valid()
      modifies `lookahead
      ensures Valid() && Queue() == old(Queue()) && lookahead == block
      ensures IsBlock(Real(), base, block)
    {
      hide ScanLine;
      hide PosAfterLine;
      hide ColumnAt;
      lookahead := [];
      var rest := remaining;
      var pos := remainingPos;
      SplitNothing(remainingPos);
      if next.None? {
        return lookahead;
      }
      var scanning := next;
      while true
        invariant lookahead + (if scanning.Some? then [scanning.value] else []) + SplitLines(rest, pos) == Real()
        invariant forall i :: 0 <= i < |lookahead| ==> Inside(lookahead[i], base)
        invariant Queue() == old(Queue()) && Valid()
        decreases |rest|, scanning.Some?
      {
        var line;
        if scanning.Some? {
          line := scanning.value;
          scanning := None;
        } else {
          var scanned := ScanLine(rest, pos);
          if scanned.None? {
            break;
          }
          line := scanned.value.0;
          pos := PosAfterLine(line);
          rest := scanned.value.1;
        }
        assert lookahead + [line] + SplitLines(rest, pos) == Real();
        if line.content != [] && base.Some? && line.indent <= base.value {
          break;
        }
        lookahead := lookahead + [line];
      }
      block := lookahead;
    }
  }

  lemma SplitNothing(pos: Pos)
    ensures SplitLines([], pos) == []
  {
  }

  method FindFirst(lines: seq<Line>, isWanted: Line -> bool) returns (r: Option<Line>)
    ensures IsFirstWanted(lines, isWanted, r)
  {
    for i := 0 to |lines|
      invariant forall j :: 0 <= j < i ==> !isWanted(lines[j])
    {
      if isWanted(lines[i]) {
        assert WantedAt(lines, isWanted, lines[i], i);
        return Some(lines[i]);
      }
    }
    return None;
  }

  lemma WantedInFront(front: seq<Line>, back: seq<Line>, isWanted: Line -> bool, r: Option<Line>)
    requires r.Some? && IsFirstWanted(front, isWanted, r)
    ensures IsFirstWanted(front + back, isWanted, r)
  {
    var k :| WantedAt(front, isWanted, r.value, k);
    assert WantedAt(front + back, isWanted, r.value, k);
  }

  lemma WantedBehind(front: seq<Line>, back: seq<Line>, isWanted: Line -> bool, r: Option<Line>)
    requires (forall i :: 0 <= i < |front| ==> !isWanted(front[i])) && IsFirstWanted(back, isWanted, r)
    ensures IsFirstWanted(front + back, isWanted, r)
  {
    if r.Some? {
      var k :| WantedAt(back, isWanted, r.value, k);
      assert WantedAt(front + back, isWanted, r.value, |front| + k);
    }
  }

  // ----- What a boundary signal does to positions -----

  lemma MarkAndRest(line: Line)
    requires StartsWithBom(line.content)
    ensures line.content == BOM_BYTES + WithoutBom(line).content
  {
  }

  /**
   Behind a stripped line the position is what it was before, except that the
   column after an unterminated line no longer counts the mark.
   */
  lemma StrippedLineEndsWhereItDid(line: Line)
    ensures var before, after := PosAfterLine(line), PosAfterLine(WithoutBom(line));
            && after.byteOffset == before.byteOffset && after.line == before.line
            && before.column == after.column + if StartsWithBom(line.content) && line.breakType.Eof? then 1 else 0
  {
    if StartsWithBom(line.content) {
      var rest := line.content[3..];
      assert line.content == BOM_BYTES + rest;
      Utf8.CharCountAppend(BOM_BYTES, rest);
      BomIsOneCharacter();
      assert line.content[..|line.content|] == line.content && rest[..|rest|] == rest;
    }
  }

  lemma BomIsOneCharacter()
    ensures Utf8.CharCount(BOM_BYTES) == 1
    ensures Utf8.EncodeChar(BOM) == BOM_BYTES
  {
    assert BOM_BYTES[1..] == [0xBB, 0xBF] && BOM_BYTES[1..][1..] == [0xBF];
    Utf8.OnlyContinuations(BOM_BYTES[1..]);
  }

  /**
   The indent is not counted again when a mark is stripped, so it is the number
   of leading spaces of what is left exactly when no space follows the mark.
   */
  lemma StrippedIndent(line: Line)
    requires WellFormed(line) && StartsWithBom(line.content)
    ensures var stripped := WithoutBom(line);
            stripped.indent == LeadingSpaces(stripped.content) <==>
            stripped.content == [] || stripped.content[0] != SPACE
  {
    assert line.content[0] == line.content[..3][0];
  }
}
