/** What every printed document satisfies, whatever the options. */
module PrinterLaws {
  import opened Bytes
  import opened Wrappers
  import opened Layout

  // ----- The column is the length of the line being written -----

  /** Flat text is one line. */
  lemma {:induction false} FlatTextIsOneLine(d: Doc)
    requires NewlineFree(d) && FlatText(d).Some?
    ensures NEWLINE !in FlatText(d).value
    decreases d, 0
  {
    match d
    case Text(s) =>
    case Line =>
    case Indent(inner) => FlatTextIsOneLine(inner);
    case Group(inner) => FlatTextIsOneLine(inner);
    case Concat(docs) => FlatTextsAreOneLine(docs);
    case FlatAlt(flat, broken) => FlatTextIsOneLine(flat);
  }

  lemma {:induction false} FlatTextsAreOneLine(docs: seq<Doc>)
    requires (forall i :: 0 <= i < |docs| ==> NewlineFree(docs[i])) && FlatTexts(docs).Some?
    ensures NEWLINE !in FlatTexts(docs).value
    decreases docs, 1
  {
    if docs != [] {
      FlatTextIsOneLine(docs[0]);
      FlatTextsAreOneLine(docs[1..]);
    }
  }

  /**
   The column the layout keeps is always the length of the line it is writing,
   which is what makes every decision about what fits a decision about the
   real output.
   */
  lemma {:induction false} ColumnIsLineLength(o: FormatOptions, d: Doc, indent: nat, before: seq<Byte>)
    requires NewlineFree(d)
    ensures var laid := Lay(o, d, indent, LineLength(before)); LineLength(before + laid.out) == laid.col
    decreases d, 0
  {
    var col := LineLength(before);
    match d
    case Text(s) => LineLengthGrows(before, s);
    case HardLine => LineLengthRestarts(before, o, indent);
    case Line => LineLengthRestarts(before, o, indent);
    case Indent(inner) => ColumnIsLineLength(o, inner, indent + 1, before);
    case Group(inner) =>
      if FitsIn(inner, Remaining(o, col)) {
        FlatTextIsOneLine(inner);
        LineLengthGrows(before, FlatText(inner).value);
      } else {
        ColumnIsLineLength(o, inner, indent, before);
      }
    case Concat(docs) => ColumnIsLineLengthOfAll(o, docs, indent, before);
    case FlatAlt(flat, broken) => ColumnIsLineLength(o, broken, indent, before);
  }

  lemma {:induction false} ColumnIsLineLengthOfAll(o: FormatOptions, docs: seq<Doc>, indent: nat, before: seq<Byte>)
    requires forall i :: 0 <= i < |docs| ==> NewlineFree(docs[i])
    ensures var laid := LayAll(o, docs, indent, LineLength(before)); LineLength(before + laid.out) == laid.col
    decreases docs, 1
  {
    hide Lay;
    hide LineLength;
    if docs == [] {
      assert before + [] == before;
    } else {
      var first := Lay(o, docs[0], indent, LineLength(before));
      ColumnIsLineLength(o, docs[0], indent, before);
      ColumnIsLineLengthOfAll(o, docs[1..], indent, before + first.out);
      assert before + first.out + LayAll(o, docs[1..], indent, first.col).out
          == before + LayAll(o, docs, indent, LineLength(before)).out;
    }
  }

  /**
   A group that is laid flat adds no line break, and the line it ends on is
   within the print width unless it was already too long before the group, in
   which case the group adds nothing.
   */
  lemma FlatGroupStaysWithinTheWidth(o: FormatOptions, inner: Doc, indent: nat, before: seq<Byte>)
    requires NewlineFree(inner) && FitsIn(inner, Remaining(o, LineLength(before)))
    ensures var laid := Lay(o, Group(inner), indent, LineLength(before));
            && Some(laid.out) == FlatText(inner)
            && NEWLINE !in laid.out
            && LineLength(before + laid.out) == LineLength(before) + |laid.out|
            && (laid.out == [] || LineLength(before + laid.out) <= o.printWidth)
  {
    hide LineLength;
    hide FlatText;
    FlatTextIsOneLine(inner);
    LineLengthGrows(before, FlatText(inner).value);
  }

  // ----- Transformations that change no output -----

  /** Splices nested concatenations and drops a group directly inside a group. */
  function Normalise(d: Doc): Doc {
    match d
    case Text(_) => d
    case HardLine => d
    case Line => d
    case Indent(inner) => Indent(Normalise(inner))
    case Group(inner) => Grouped(Normalise(inner))
    case Concat(docs) => Concat(Spliced(docs))
    case FlatAlt(flat, broken) => FlatAlt(Normalise(flat), Normalise(broken))
  }

  function Grouped(inner: Doc): Doc {
    if inner.Group? then inner else Group(inner)
  }

  function Spliced(docs: seq<Doc>): seq<Doc> {
    if docs == [] then []
    else Items(Normalise(docs[0])) + Spliced(docs[1..])
  }

  function Items(d: Doc): seq<Doc> {
    if d.Concat? then d.docs else [d]
  }

  lemma {:induction false} FlatTextsAppend(a: seq<Doc>, b: seq<Doc>)
    ensures FlatTexts(a + b) == Append(FlatTexts(a), FlatTexts(b))
  {
    if a == [] {
      assert a + b == b;
      assert FlatTexts(b).Some? ==> [] + FlatTexts(b).value == FlatTexts(b).value;
    } else {
      assert (a + b)[1..] == a[1..] + b;
      FlatTextsAppend(a[1..], b);
      var x, y, z := FlatText(a[0]), FlatTexts(a[1..]), FlatTexts(b);
      assert x.Some? && y.Some? && z.Some? ==> x.value + (y.value + z.value) == x.value + y.value + z.value;
    }
  }

  lemma {:induction false} LayAllAppend(o: FormatOptions, a: seq<Doc>, b: seq<Doc>, indent: nat, col: nat)
    ensures var first := LayAll(o, a, indent, col);
            var rest := LayAll(o, b, indent, first.col);
            LayAll(o, a + b, indent, col) == Rendered(first.out + rest.out, rest.col)
  {
    if a == [] {
      assert a + b == b;
    } else {
      assert (a + b)[1..] == a[1..] + b;
      var head := Lay(o, a[0], indent, col);
      LayAllAppend(o, a[1..], b, indent, head.col);
      var middle := LayAll(o, a[1..], indent, head.col);
      var rest := LayAll(o, b, indent, middle.col);
      assert head.out + (middle.out + rest.out) == head.out + middle.out + rest.out;
    }
  }

  lemma FlatTextOfOne(d: Doc)
    ensures FlatTexts([d]) == FlatText(d)
  {
    assert FlatTexts([d]) == Append(FlatText(d), FlatTexts([d][1..]));
    assert FlatText(d).Some? ==> FlatText(d).value + [] == FlatText(d).value;
  }

  lemma LayOfOne(o: FormatOptions, d: Doc, indent: nat, col: nat)
    ensures LayAll(o, [d], indent, col) == Lay(o, d, indent, col)
  {
    assert [d][1..] == [];
    assert LayAll(o, [d][1..], indent, Lay(o, d, indent, col).col).out == [];
  }

  /** Normalising keeps the flat text, so it changes no decision about what fits. */
  lemma {:induction false} NormaliseKeepsFlatText(d: Doc)
    ensures FlatText(Normalise(d)) == FlatText(d)
    decreases d, 0
  {
    match d
    case Text(_) =>
    case HardLine =>
    case Line =>
    case Indent(inner) => NormaliseKeepsFlatText(inner);
    case Group(inner) => NormaliseKeepsFlatText(inner);
    case Concat(docs) => SplicedKeepsFlatText(docs);
    case FlatAlt(flat, broken) => NormaliseKeepsFlatText(flat);
  }

  lemma {:induction false} SplicedKeepsFlatText(docs: seq<Doc>)
    ensures FlatTexts(Spliced(docs)) == FlatTexts(docs)
    decreases docs, 1
  {
    if docs != [] {
      var head := Normalise(docs[0]);
      NormaliseKeepsFlatText(docs[0]);
      SplicedKeepsFlatText(docs[1..]);
      FlatTextsAppend(Items(head), Spliced(docs[1..]));
      FlatTextOfOne(head);
    }
  }

  /** Normalising changes no output, in any context and for any options. */
  lemma {:induction false} NormaliseKeepsOutput(o: FormatOptions, d: Doc, indent: nat, col: nat)
    ensures Lay(o, Normalise(d), indent, col) == Lay(o, d, indent, col)
    decreases d, 0
  {
    match d
    case Text(_) =>
    case HardLine =>
    case Line =>
    case Indent(inner) => NormaliseKeepsOutput(o, inner, indent + 1, col);
    case Group(inner) =>
      NormaliseKeepsFlatText(inner);
      NormaliseKeepsOutput(o, inner, indent, col);
      GroupedIsGroup(o, Normalise(inner), indent, col);
    case Concat(docs) => SplicedKeepsOutput(o, docs, indent, col);
    case FlatAlt(flat, broken) => NormaliseKeepsOutput(o, broken, indent, col);
  }

  lemma {:induction false} SplicedKeepsOutput(o: FormatOptions, docs: seq<Doc>, indent: nat, col: nat)
    ensures LayAll(o, Spliced(docs), indent, col) == LayAll(o, docs, indent, col)
    decreases docs, 1
  {
    if docs != [] {
      var head := Normalise(docs[0]);
      var first := Lay(o, head, indent, col);
      NormaliseKeepsOutput(o, docs[0], indent, col);
      SplicedKeepsOutput(o, docs[1..], indent, first.col);
      LayAllAppend(o, Items(head), Spliced(docs[1..]), indent, col);
      LayOfOne(o, head, indent, col);
    }
  }

  lemma GroupedIsGroup(o: FormatOptions, d: Doc, indent: nat, col: nat)
    ensures FlatText(Grouped(d)) == FlatText(d)
    ensures Lay(o, Grouped(d), indent, col) == Lay(o, Group(d), indent, col)
  {
  }

  /** No concatenation directly in a concatenation, no group directly in a group. */
  predicate Normal(d: Doc) {
    match d
    case Text(_) => true
    case HardLine => true
    case Line => true
    case Indent(inner) => Normal(inner)
    case Group(inner) => Normal(inner) && !inner.Group?
    case Concat(docs) => forall i :: 0 <= i < |docs| ==> Normal(docs[i]) && !docs[i].Concat?
    case FlatAlt(flat, broken) => Normal(flat) && Normal(broken)
  }

  lemma {:induction false} NormaliseIsNormal(d: Doc)
    ensures Normal(Normalise(d))
    decreases d, 0
  {
    match d
    case Text(_) =>
    case HardLine =>
    case Line =>
    case Indent(inner) => NormaliseIsNormal(inner);
    case Group(inner) => NormaliseIsNormal(inner);
    case Concat(docs) => SplicedIsNormal(docs);
    case FlatAlt(flat, broken) =>
      NormaliseIsNormal(flat);
      NormaliseIsNormal(broken);
  }

  lemma {:induction false} SplicedIsNormal(docs: seq<Doc>)
    ensures forall i :: 0 <= i < |Spliced(docs)| ==> Normal(Spliced(docs)[i]) && !Spliced(docs)[i].Concat?
    decreases docs, 1
  {
    if docs != [] {
      NormaliseIsNormal(docs[0]);
      SplicedIsNormal(docs[1..]);
    }
  }

  // ----- Options only move white space -----

  predicate IsWhiteSpace(b: Byte) {
    b == SPACE || b == TAB || b == NEWLINE
  }

  function Visible(s: seq<Byte>): seq<Byte> {
    if s == [] then []
    else if IsWhiteSpace(s[0]) then Visible(s[1..])
    else [s[0]] + Visible(s[1..])
  }

  lemma {:induction false} VisibleAppend(a: seq<Byte>, b: seq<Byte>)
    ensures Visible(a + b) == Visible(a) + Visible(b)
  {
    if a == [] {
      assert a + b == b;
    } else {
      assert (a + b)[1..] == a[1..] + b;
      VisibleAppend(a[1..], b);
    }
  }

  lemma {:induction false} BlanksAreInvisible(s: seq<Byte>)
    requires forall i :: 0 <= i < |s| ==> IsWhiteSpace(s[i])
    ensures Visible(s) == []
  {
    if s != [] {
      BlanksAreInvisible(s[1..]);
    }
  }

  /** What a document shows once it is broken everywhere. */
  function Content(d: Doc): seq<Byte> {
    match d
    case Text(s) => Visible(s)
    case HardLine => []
    case Line => []
    case Indent(inner) => Content(inner)
    case Group(inner) => Content(inner)
    case Concat(docs) => Contents(docs)
    case FlatAlt(_, broken) => Content(broken)
  }

  function Contents(docs: seq<Doc>): seq<Byte> {
    if docs == [] then [] else Content(docs[0]) + Contents(docs[1..])
  }

  /** The two sides of every alternative show the same, white space aside. */
  predicate SidesAgree(d: Doc) {
    match d
    case Text(_) => true
    case HardLine => true
    case Line => true
    case Indent(inner) => SidesAgree(inner)
    case Group(inner) => SidesAgree(inner)
    case Concat(docs) => forall i :: 0 <= i < |docs| ==> SidesAgree(docs[i])
    case FlatAlt(flat, broken) => SidesAgree(flat) && SidesAgree(broken) && Content(flat) == Content(broken)
  }

  lemma {:induction false} FlatTextShowsContent(d: Doc)
    requires SidesAgree(d) && FlatText(d).Some?
    ensures Visible(FlatText(d).value) == Content(d)
    decreases d, 0
  {
    match d
    case Text(_) =>
    case Line => BlanksAreInvisible([SPACE]);
    case Indent(inner) => FlatTextShowsContent(inner);
    case Group(inner) => FlatTextShowsContent(inner);
    case Concat(docs) => FlatTextsShowContents(docs);
    case FlatAlt(flat, broken) => FlatTextShowsContent(flat);
  }

  lemma {:induction false} FlatTextsShowContents(docs: seq<Doc>)
    requires (forall i :: 0 <= i < |docs| ==> SidesAgree(docs[i])) && FlatTexts(docs).Some?
    ensures Visible(FlatTexts(docs).value) == Contents(docs)
    decreases docs, 1
  {
    if docs != [] {
      FlatTextShowsContent(docs[0]);
      FlatTextsShowContents(docs[1..]);
      VisibleAppend(FlatText(docs[0]).value, FlatTexts(docs[1..]).value);
    }
  }

  /** The layout shows exactly the content, wherever it breaks. */
  lemma {:induction false} LayShowsContent(o: FormatOptions, d: Doc, indent: nat, col: nat)
    requires SidesAgree(d)
    ensures Visible(Lay(o, d, indent, col).out) == Content(d)
    decreases d, 0
  {
    match d
    case Text(_) =>
    case HardLine => BlanksAreInvisible(NewLine(o, indent).out);
    case Line => BlanksAreInvisible(NewLine(o, indent).out);
    case Indent(inner) => LayShowsContent(o, inner, indent + 1, col);
    case Group(inner) =>
      if FitsIn(inner, Remaining(o, col)) {
        FlatTextShowsContent(inner);
      } else {
        LayShowsContent(o, inner, indent, col);
      }
    case Concat(docs) => LayAllShowsContents(o, docs, indent, col);
    case FlatAlt(flat, broken) => LayShowsContent(o, broken, indent, col);
  }

  lemma {:induction false} LayAllShowsContents(o: FormatOptions, docs: seq<Doc>, indent: nat, col: nat)
    requires forall i :: 0 <= i < |docs| ==> SidesAgree(docs[i])
    ensures Visible(LayAll(o, docs, indent, col).out) == Contents(docs)
    decreases docs, 1
  {
    if docs != [] {
      var first := Lay(o, docs[0], indent, col);
      LayShowsContent(o, docs[0], indent, col);
      LayAllShowsContents(o, docs[1..], indent, first.col);
      VisibleAppend(first.out, LayAll(o, docs[1..], indent, first.col).out);
    }
  }

  /** Width, tab width and tabs only ever move white space. */
  lemma OptionsOnlyMoveWhiteSpace(o: FormatOptions, p: FormatOptions, d: Doc)
    requires SidesAgree(d)
    ensures Visible(Lay(o, d, 0, 0).out) == Visible(Lay(p, d, 0, 0).out)
  {
    LayShowsContent(o, d, 0, 0);
    LayShowsContent(p, d, 0, 0);
  }
}
