/**
 What is printed, piece by piece: words, and line breaks with the number of
 indents around them.  Columns and widths are counted here and nowhere else.
 */
module PrintedPieces {
  import opened Bytes
  import opened Wrappers
  import opened Layout

  /** A stretch of text, or a line break under so many enclosing indents. */
  datatype Piece = Word(text: seq<Byte>) | BreakUnder(indents: nat)

  /** What follows a line break: so many tabs, or so many times the tab width in spaces. */
  function Margin(o: FormatOptions, indents: nat): (margin: seq<Byte>)
    ensures |margin| == if o.useTabs then indents else indents * o.tabWidth
  {
    if o.useTabs then seq(indents, _ => TAB) else seq(indents * o.tabWidth, _ => SPACE)
  }

  function Spell(o: FormatOptions, pieces: seq<Piece>): seq<Byte> {
    if pieces == [] then []
    else
      (match pieces[0]
       case Word(text) => text
       case BreakUnder(indents) => [NEWLINE] + Margin(o, indents)) + Spell(o, pieces[1..])
  }

  /** The column behind the pieces, from `col` on. */
  function ColumnBehind(o: FormatOptions, pieces: seq<Piece>, col: nat): nat {
    if pieces == [] then col
    else
      var next := match pieces[0]
        case Word(text) => col + |text|
        case BreakUnder(indents) => |Margin(o, indents)|;
      ColumnBehind(o, pieces[1..], next)
  }

  // ----- The document on one line -----

  /** The texts and lines of the document in order, with the flat side of every alternative. */
  function Leaves(d: Doc): seq<Doc> {
    match d
    case Text(_) => [d]
    case HardLine => [d]
    case Line => [d]
    case Indent(inner) => Leaves(inner)
    case Group(inner) => Leaves(inner)
    case Concat(docs) => LeavesOfAll(docs)
    case FlatAlt(flat, _) => Leaves(flat)
  }

  function LeavesOfAll(docs: seq<Doc>): seq<Doc> {
    if docs == [] then [] else Leaves(docs[0]) + LeavesOfAll(docs[1..])
  }

  /** Texts as they are, lines as spaces. */
  function Joined(leaves: seq<Doc>): seq<Byte> {
    if leaves == [] then []
    else (if leaves[0].Text? then leaves[0].text else [SPACE]) + Joined(leaves[1..])
  }

  function OneLine(d: Doc): Option<seq<Byte>> {
    if HardLine in Leaves(d) then None else Some(Joined(Leaves(d)))
  }

  lemma {:induction false} JoinedAppend(a: seq<Doc>, b: seq<Doc>)
    ensures Joined(a + b) == Joined(a) + Joined(b)
  {
    if a == [] {
      assert a + b == b;
    } else {
      assert (a + b)[1..] == a[1..] + b;
      JoinedAppend(a[1..], b);
    }
  }

  lemma JoinedOne(leaf: Doc)
    ensures Joined([leaf]) == if leaf.Text? then leaf.text else [SPACE]
  {
    assert Joined([]) == [] && [leaf][1..] == [];
  }

  lemma {:induction false} FlatTextIsOneLine(d: Doc)
    ensures FlatText(d) == OneLine(d)
    decreases d, 0
  {
    match d
    case Text(_) => JoinedOne(d);
    case HardLine =>
    case Line => JoinedOne(d);
    case Indent(inner) => FlatTextIsOneLine(inner);
    case Group(inner) => FlatTextIsOneLine(inner);
    case Concat(docs) => FlatTextsAreOneLine(docs);
    case FlatAlt(flat, _) => FlatTextIsOneLine(flat);
  }

  lemma {:induction false} FlatTextsAreOneLine(docs: seq<Doc>)
    ensures FlatTexts(docs) == if HardLine in LeavesOfAll(docs) then None else Some(Joined(LeavesOfAll(docs)))
    decreases docs, 1
  {
    if docs != [] {
      FlatTextIsOneLine(docs[0]);
      FlatTextsAreOneLine(docs[1..]);
      JoinedAppend(Leaves(docs[0]), LeavesOfAll(docs[1..]));
    }
  }

  // ----- The pieces -----

  /** A group stays on one line if it can, and if it is empty or ends within the width. */
  predicate StaysOnOneLine(o: FormatOptions, inner: Doc, col: nat) {
    OneLine(inner).Some? && (OneLine(inner).value == [] || col + |OneLine(inner).value| <= o.printWidth)
  }

  /** The pieces of a document that stands under so many indents and begins at `col`. */
  function Pieces(o: FormatOptions, d: Doc, indents: nat, col: nat): seq<Piece> {
    match d
    case Text(s) => [Word(s)]
    case HardLine => [BreakUnder(indents)]
    case Line => [BreakUnder(indents)]
    case Indent(inner) => Pieces(o, inner, indents + 1, col)
    case Group(inner) =>
      if StaysOnOneLine(o, inner, col) then [Word(OneLine(inner).value)] else Pieces(o, inner, indents, col)
    case Concat(docs) => PiecesOfAll(o, docs, indents, col)
    case FlatAlt(_, broken) => Pieces(o, broken, indents, col)
  }

  function PiecesOfAll(o: FormatOptions, docs: seq<Doc>, indents: nat, col: nat): seq<Piece> {
    if docs == [] then []
    else
      var first := Pieces(o, docs[0], indents, col);
      first + PiecesOfAll(o, docs[1..], indents, ColumnBehind(o, first, col))
  }

  lemma {:induction false} SpellAppend(o: FormatOptions, a: seq<Piece>, b: seq<Piece>, col: nat)
    ensures Spell(o, a + b) == Spell(o, a) + Spell(o, b)
    ensures ColumnBehind(o, a + b, col) == ColumnBehind(o, b, ColumnBehind(o, a, col))
  {
    if a == [] {
      assert a + b == b;
    } else {
      assert (a + b)[1..] == a[1..] + b;
      var next := match a[0]
        case Word(text) => col + |text|
        case BreakUnder(indents) => |Margin(o, indents)|;
      SpellAppend(o, a[1..], b, next);
    }
  }

  lemma NewLineIsBreak(o: FormatOptions, indents: nat)
    ensures NewLine(o, indents) == Rendered([NEWLINE] + Margin(o, indents), |Margin(o, indents)|)
  {
    assert Indentation(indents, o) == Margin(o, indents);
  }

  /** What fits in the rest of the line ends within the width, or is nothing. */
  lemma FitsIsStays(o: FormatOptions, inner: Doc, col: nat)
    ensures FitsIn(inner, Remaining(o, col)) <==> StaysOnOneLine(o, inner, col)
  {
    FlatTextIsOneLine(inner);
    hide FlatText;
    hide OneLine;
  }

  lemma OnePiece(o: FormatOptions, piece: Piece, col: nat)
    ensures piece.Word? ==> Spell(o, [piece]) == piece.text && ColumnBehind(o, [piece], col) == col + |piece.text|
    ensures piece.BreakUnder? ==>
              && Spell(o, [piece]) == [NEWLINE] + Margin(o, piece.indents)
              && ColumnBehind(o, [piece], col) == |Margin(o, piece.indents)|
  {
    assert [piece][1..] == [];
  }

  /**
   The layout writes the pieces: every line break is followed by the margin of
   the indents around it in the document, and a group is one line exactly when
   it stays on one line.
   */
  lemma {:induction false} LayIsSpelled(o: FormatOptions, d: Doc, indents: nat, col: nat)
    ensures var pieces := Pieces(o, d, indents, col);
            Lay(o, d, indents, col) == Rendered(Spell(o, pieces), ColumnBehind(o, pieces, col))
    decreases d, 0
  {
    hide Spell;
    hide ColumnBehind;
    hide Margin;
    hide NewLine;
    hide FitsIn;
    hide OneLine;
    hide FlatText;
    match d
    case Text(s) => OnePiece(o, Word(s), col);
    case HardLine =>
      OnePiece(o, BreakUnder(indents), col);
      NewLineIsBreak(o, indents);
    case Line =>
      OnePiece(o, BreakUnder(indents), col);
      NewLineIsBreak(o, indents);
    case Indent(inner) => LayIsSpelled(o, inner, indents + 1, col);
    case Group(inner) =>
      FitsIsStays(o, inner, col);
      FlatTextIsOneLine(inner);
      if StaysOnOneLine(o, inner, col) {
        OnePiece(o, Word(OneLine(inner).value), col);
      } else {
        LayIsSpelled(o, inner, indents, col);
      }
    case Concat(docs) => LayAllIsSpelled(o, docs, indents, col);
    case FlatAlt(_, broken) => LayIsSpelled(o, broken, indents, col);
  }

  lemma {:induction false} LayAllIsSpelled(o: FormatOptions, docs: seq<Doc>, indents: nat, col: nat)
    ensures var pieces := PiecesOfAll(o, docs, indents, col);
            LayAll(o, docs, indents, col) == Rendered(Spell(o, pieces), ColumnBehind(o, pieces, col))
    decreases docs, 1
  {
    if docs != [] {
      hide Lay;
      hide Pieces;
      LayIsSpelled(o, docs[0], indents, col);
      var first := Pieces(o, docs[0], indents, col);
      var next := ColumnBehind(o, first, col);
      LayAllIsSpelled(o, docs[1..], indents, next);
      SpellAppend(o, first, PiecesOfAll(o, docs[1..], indents, next), col);
    }
  }

  // ----- Where the line breaks come from -----

  /** The indents around every line of the document, in order, with the broken side of every alternative. */
  function IndentsAround(d: Doc, indents: nat): seq<nat> {
    match d
    case Text(_) => []
    case HardLine => [indents]
    case Line => [indents]
    case Indent(inner) => IndentsAround(inner, indents + 1)
    case Group(inner) => IndentsAround(inner, indents)
    case Concat(docs) => IndentsAroundAll(docs, indents)
    case FlatAlt(_, broken) => IndentsAround(broken, indents)
  }

  function IndentsAroundAll(docs: seq<Doc>, indents: nat): seq<nat> {
    if docs == [] then [] else IndentsAround(docs[0], indents) + IndentsAroundAll(docs[1..], indents)
  }

  function BreaksOf(pieces: seq<Piece>): seq<nat> {
    if pieces == [] then []
    else (if pieces[0].BreakUnder? then [pieces[0].indents] else []) + BreaksOf(pieces[1..])
  }

  /** `part` is what is left of `all` when some elements are taken out. */
  ghost predicate IsPickedFrom(part: seq<nat>, all: seq<nat>) {
    if all == [] then part == []
    else (part != [] && part[0] == all[0] && IsPickedFrom(part[1..], all[1..])) || IsPickedFrom(part, all[1..])
  }

  lemma {:induction false} NoneIsPicked(all: seq<nat>)
    ensures IsPickedFrom([], all)
  {
    if all != [] {
      NoneIsPicked(all[1..]);
    }
  }

  lemma {:induction false} PickedFromBoth(a: seq<nat>, b: seq<nat>, as': seq<nat>, bs: seq<nat>)
    requires IsPickedFrom(a, as') && IsPickedFrom(b, bs)
    ensures IsPickedFrom(a + b, as' + bs)
  {
    if as' == [] {
      assert a + b == b && as' + bs == bs;
    } else {
      assert (as' + bs)[1..] == as'[1..] + bs;
      if a != [] && a[0] == as'[0] && IsPickedFrom(a[1..], as'[1..]) {
        assert (a + b)[1..] == a[1..] + b;
        PickedFromBoth(a[1..], b, as'[1..], bs);
      } else {
        PickedFromBoth(a, b, as'[1..], bs);
      }
    }
  }

  lemma {:induction false} BreaksAppend(a: seq<Piece>, b: seq<Piece>)
    ensures BreaksOf(a + b) == BreaksOf(a) + BreaksOf(b)
  {
    if a == [] {
      assert a + b == b;
    } else {
      FirstBreak(a, a[1..]);
      FirstBreak(a + b, a[1..] + b);
      hide BreaksOf;
      BreaksAppend(a[1..], b);
      var first := if a[0].BreakUnder? then [a[0].indents] else [];
      assert first + (BreaksOf(a[1..]) + BreaksOf(b)) == first + BreaksOf(a[1..]) + BreaksOf(b);
    }
  }

  lemma FirstBreak(pieces: seq<Piece>, rest: seq<Piece>)
    requires pieces != [] && rest == pieces[1..]
    ensures BreaksOf(pieces) == (if pieces[0].BreakUnder? then [pieces[0].indents] else []) + BreaksOf(rest)
  {
  }

  /** The line breaks written are lines of the document, in order, each under the indents around it. */
  lemma {:induction false} BreaksAreLines(o: FormatOptions, d: Doc, indents: nat, col: nat)
    ensures IsPickedFrom(BreaksOf(Pieces(o, d, indents, col)), IndentsAround(d, indents))
    decreases d, 0
  {
    hide StaysOnOneLine;
    hide OneLine;
    match d
    case Text(s) =>
    case HardLine => assert BreaksOf([BreakUnder(indents)]) == [indents] && [indents][1..] == [];
    case Line => assert BreaksOf([BreakUnder(indents)]) == [indents] && [indents][1..] == [];
    case Indent(inner) => BreaksAreLines(o, inner, indents + 1, col);
    case Group(inner) =>
      if StaysOnOneLine(o, inner, col) {
        NoneIsPicked(IndentsAround(inner, indents));
      } else {
        BreaksAreLines(o, inner, indents, col);
      }
    case Concat(docs) => AllBreaksAreLines(o, docs, indents, col);
    case FlatAlt(_, broken) => BreaksAreLines(o, broken, indents, col);
  }

  lemma {:induction false} AllBreaksAreLines(o: FormatOptions, docs: seq<Doc>, indents: nat, col: nat)
    ensures IsPickedFrom(BreaksOf(PiecesOfAll(o, docs, indents, col)), IndentsAroundAll(docs, indents))
    decreases docs, 1
  {
    if docs != [] {
      hide Pieces;
      hide IsPickedFrom;
      var first := Pieces(o, docs[0], indents, col);
      var next := ColumnBehind(o, first, col);
      var rest := PiecesOfAll(o, docs[1..], indents, next);
      BreaksAreLines(o, docs[0], indents, col);
      AllBreaksAreLines(o, docs[1..], indents, next);
      BreaksAppend(first, rest);
      PickedFromBoth(
        BreaksOf(first), BreaksOf(rest), IndentsAround(docs[0], indents), IndentsAroundAll(docs[1..], indents));
    }
  }
}
