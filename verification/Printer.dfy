/** The document type of the pretty printer, and what a document means. */
module Layout {
  import opened Bytes
  import opened Wrappers

  const NEWLINE: Byte := LF

  /** Text is UTF-8; widths are counted in bytes. */
  datatype Doc =
    | Text(text: seq<Byte>)
    | HardLine
    | Line
    | Indent(inner: Doc)
    | Group(inner: Doc)
    | Concat(docs: seq<Doc>)
    | FlatAlt(flat: Doc, broken: Doc)

  datatype FormatOptions = FormatOptions(printWidth: nat, tabWidth: nat, useTabs: bool)

  /** What a document adds to the output, and the column it ends at. */
  datatype Rendered = Rendered(out: seq<Byte>, col: nat)

  function Repeat(b: Byte, n: nat): (s: seq<Byte>)
    ensures |s| == n && forall i :: 0 <= i < n ==> s[i] == b
  {
    seq(n, _ => b)
  }

  function Indentation(indent: nat, o: FormatOptions): seq<Byte> {
    if o.useTabs then Repeat(TAB, indent) else Repeat(SPACE, indent * o.tabWidth)
  }

  function IndentWidth(indent: nat, o: FormatOptions): nat {
    if o.useTabs then indent else indent * o.tabWidth
  }

  /** The document on one line; none if it has a hard line. */
  function FlatText(d: Doc): Option<seq<Byte>> {
    match d
    case Text(s) => Some(s)
    case HardLine => None
    case Line => Some([SPACE])
    case Indent(inner) => FlatText(inner)
    case Group(inner) => FlatText(inner)
    case Concat(docs) => FlatTexts(docs)
    case FlatAlt(flat, _) => FlatText(flat)
  }

  function FlatTexts(docs: seq<Doc>): Option<seq<Byte>> {
    if docs == [] then Some([]) else Append(FlatText(docs[0]), FlatTexts(docs[1..]))
  }

  function Append(a: Option<seq<Byte>>, b: Option<seq<Byte>>): Option<seq<Byte>> {
    if a.Some? && b.Some? then Some(a.value + b.value) else None
  }

  predicate FitsIn(d: Doc, remaining: nat) {
    FlatText(d).Some? && |FlatText(d).value| <= remaining
  }

  function Remaining(o: FormatOptions, col: nat): nat {
    if col <= o.printWidth then o.printWidth - col else 0
  }

  /**
   The meaning of a document, without modes: a group is one line if its flat
   text fits in what is left of the line, and is broken otherwise.
   */
  function Lay(o: FormatOptions, d: Doc, indent: nat, col: nat): Rendered {
    match d
    case Text(s) => Rendered(s, col + |s|)
    case HardLine => NewLine(o, indent)
    case Line => NewLine(o, indent)
    case Indent(inner) => Lay(o, inner, indent + 1, col)
    case Group(inner) =>
      if FitsIn(inner, Remaining(o, col)) then Rendered(FlatText(inner).value, col + |FlatText(inner).value|)
      else Lay(o, inner, indent, col)
    case Concat(docs) => LayAll(o, docs, indent, col)
    case FlatAlt(_, broken) => Lay(o, broken, indent, col)
  }

  function LayAll(o: FormatOptions, docs: seq<Doc>, indent: nat, col: nat): Rendered {
    if docs == [] then Rendered([], col)
    else
      var first := Lay(o, docs[0], indent, col);
      var rest := LayAll(o, docs[1..], indent, first.col);
      Rendered(first.out + rest.out, rest.col)
  }

  function NewLine(o: FormatOptions, indent: nat): Rendered {
    Rendered([NEWLINE] + Indentation(indent, o), IndentWidth(indent, o))
  }

  function Size(d: Doc): (n: nat)
    ensures n > 0
  {
    1 + match d
      case Indent(inner) => Size(inner)
      case Group(inner) => Size(inner)
      case Concat(docs) => SizeAll(docs)
      case FlatAlt(flat, broken) => Size(flat) + Size(broken)
      case _ => 0
  }

  function SizeAll(docs: seq<Doc>): nat {
    if docs == [] then 0 else Size(docs[0]) + SizeAll(docs[1..])
  }

  // ----- The line being written -----

  /** Text must not contain line breaks. */
  predicate NewlineFree(d: Doc) {
    match d
    case Text(s) => NEWLINE !in s
    case HardLine => true
    case Line => true
    case Indent(inner) => NewlineFree(inner)
    case Group(inner) => NewlineFree(inner)
    case Concat(docs) => forall i :: 0 <= i < |docs| ==> NewlineFree(docs[i])
    case FlatAlt(flat, broken) => NewlineFree(flat) && NewlineFree(broken)
  }

  /** The number of bytes after the last line break. */
  function LineLength(out: seq<Byte>): nat {
    if out == [] || out[|out| - 1] == NEWLINE then 0 else 1 + LineLength(out[..|out| - 1])
  }

  lemma {:induction false} LineLengthGrows(out: seq<Byte>, more: seq<Byte>)
    requires NEWLINE !in more
    ensures LineLength(out + more) == LineLength(out) + |more|
  {
    if more == [] {
      assert out + more == out;
    } else {
      var last := |more| - 1;
      assert (out + more)[..|out| + last] == out + more[..last];
      assert more[last] in more;
      LineLengthGrows(out, more[..last]);
    }
  }

  lemma LineLengthRestarts(out: seq<Byte>, o: FormatOptions, indent: nat)
    ensures LineLength(out + NewLine(o, indent).out) == NewLine(o, indent).col
  {
    var started := out + [NEWLINE];
    assert started[|started| - 1] == NEWLINE;
    assert out + NewLine(o, indent).out == started + Indentation(indent, o);
    LineLengthGrows(started, Indentation(indent, o));
  }
}

/** Building documents. */
module Builders {
  import opened Bytes
  import opened Layout

  /** The documents in their order with the separator between each two. */
  method Join(separator: Doc, docs: seq<Doc>) returns (joined: Doc)
    ensures joined.Concat?
    ensures |joined.docs| == if docs == [] then 0 else 2 * |docs| - 1
    ensures forall k :: 0 <= k < |docs| ==> joined.docs[2 * k] == docs[k]
    ensures forall k :: 0 <= k < |docs| - 1 ==> joined.docs[2 * k + 1] == separator
  {
    if docs == [] {
      return Concat([]);
    }
    var result := [docs[0]];
    for i := 1 to |docs|
      invariant |result| == 2 * i - 1
      invariant forall k :: 0 <= k < i ==> result[2 * k] == docs[k]
      invariant forall k :: 0 <= k < i - 1 ==> result[2 * k + 1] == separator
    {
      result := result + [separator];
      result := result + [docs[i]];
    }
    return Concat(result);
  }
}

/** The printer as it runs: two loops over explicit work stacks. */
module Printer {
  import opened Bytes
  import opened Wrappers
  import opened Layout
  import PrintedPieces

  datatype Mode = Flat | Break

  /** A work item.  The top of a stack is its last element. */
  datatype Work = Work(indent: nat, mode: Mode, doc: Doc)

  // ----- The lookahead -----

  /** The flat text of a stack of documents, from the top down. */
  function FlatStack(stack: seq<Doc>): Option<seq<Byte>> {
    if stack == [] then Some([])
    else Append(FlatText(stack[|stack| - 1]), FlatStack(stack[..|stack| - 1]))
  }

  function Reversed<T>(s: seq<T>): (r: seq<T>)
    ensures |r| == |s| && forall i :: 0 <= i < |s| ==> r[i] == s[|s| - 1 - i]
  {
    seq(|s|, i requires 0 <= i < |s| => s[|s| - 1 - i])
  }

  /** Pushed in reverse, documents are read in their own order. */
  lemma {:induction false} FlatStackPushAll(stack: seq<Doc>, docs: seq<Doc>)
    ensures FlatStack(stack + Reversed(docs)) == Append(FlatTexts(docs), FlatStack(stack))
  {
    var pushed := stack + Reversed(docs);
    if docs == [] {
      assert pushed == stack;
      AppendLaws(None, None, FlatStack(stack));
    } else {
      assert pushed[|pushed| - 1] == docs[0];
      assert pushed[..|pushed| - 1] == stack + Reversed(docs[1..]);
      FlatStackPushAll(stack, docs[1..]);
      AppendLaws(FlatText(docs[0]), FlatTexts(docs[1..]), FlatStack(stack));
    }
  }

  lemma AppendLaws(a: Option<seq<Byte>>, b: Option<seq<Byte>>, c: Option<seq<Byte>>)
    ensures Append(Some([]), c) == c
    ensures Append(a, Append(b, c)) == Append(Append(a, b), c)
  {
    if a.Some? && b.Some? && c.Some? {
      assert a.value + (b.value + c.value) == a.value + b.value + c.value;
    }
    if c.Some? {
      assert [] + c.value == c.value;
    }
  }

  lemma FlatStackPush(stack: seq<Doc>, d: Doc)
    ensures FlatStack(stack + [d]) == Append(FlatText(d), FlatStack(stack))
  {
    assert (stack + [d])[..|stack|] == stack;
  }

  function StackSize(stack: seq<Doc>): nat {
    if stack == [] then 0 else Size(stack[|stack| - 1]) + StackSize(stack[..|stack| - 1])
  }

  lemma {:induction false} StackSizePushAll(stack: seq<Doc>, docs: seq<Doc>)
    ensures StackSize(stack + Reversed(docs)) == SizeAll(docs) + StackSize(stack)
  {
    var pushed := stack + Reversed(docs);
    if docs == [] {
      assert pushed == stack;
    } else {
      assert pushed[|pushed| - 1] == docs[0];
      assert pushed[..|pushed| - 1] == stack + Reversed(docs[1..]);
      StackSizePushAll(stack, docs[1..]);
    }
  }

  lemma StackSizePush(stack: seq<Doc>, d: Doc)
    ensures StackSize(stack + [d]) == Size(d) + StackSize(stack)
  {
    assert (stack + [d])[..|stack|] == stack;
  }

  /** Whether `text` still fits; `None` marks a line that is already too long. */
  predicate StillFits(text: Option<seq<Byte>>, rem: Option<nat>) {
    rem.Some? && text.Some? && |text.value| <= rem.value
  }

  function CheckedSub(rem: Option<nat>, width: nat): Option<nat> {
    if rem.Some? && width <= rem.value then Some(rem.value - width) else None
  }

  /** What is looked at instead of a document that is not a text or a line. */
  function Expanded(top: Doc): seq<Doc>
    requires top.Indent? || top.Group? || top.Concat? || top.FlatAlt?
  {
    if top.Concat? then Reversed(top.docs) else [if top.FlatAlt? then top.flat else top.inner]
  }

  /** One round of the lookahead changes no answer. */
  lemma LookaheadStep(below: seq<Doc>, top: Doc, rem: Option<nat>)
    ensures top.Text? ==>
              StillFits(FlatStack(below + [top]), rem) == StillFits(FlatStack(below), CheckedSub(rem, |top.text|))
    ensures top.Line? ==> StillFits(FlatStack(below + [top]), rem) == StillFits(FlatStack(below), CheckedSub(rem, 1))
    ensures top.HardLine? ==> !StillFits(FlatStack(below + [top]), rem)
    ensures top.Indent? || top.Group? || top.Concat? || top.FlatAlt? ==>
              FlatStack(below + Expanded(top)) == FlatStack(below + [top])
  {
    hide FlatStack;
    FlatStackPush(below, top);
    match top
    case Text(_) =>
    case HardLine =>
    case Line =>
    case Indent(inner) => FlatStackPush(below, inner);
    case Group(inner) => FlatStackPush(below, inner);
    case Concat(docs) => FlatStackPushAll(below, docs);
    case FlatAlt(flat, _) => FlatStackPush(below, flat);
  }

  lemma LookaheadShrinks(below: seq<Doc>, top: Doc)
    ensures StackSize(below) < StackSize(below + [top])
    ensures top.Indent? || top.Group? || top.Concat? || top.FlatAlt? ==>
              StackSize(below + Expanded(top)) < StackSize(below + [top])
  {
    hide StackSize;
    StackSizePush(below, top);
    match top
    case Text(_) =>
    case HardLine =>
    case Line =>
    case Indent(inner) => StackSizePush(below, inner);
    case Group(inner) => StackSizePush(below, inner);
    case Concat(docs) => StackSizePushAll(below, docs);
    case FlatAlt(flat, _) => StackSizePush(below, flat);
  }

  lemma LookaheadBegins(doc: Doc, remaining: nat)
    ensures StillFits(FlatStack([doc]), Some(remaining)) == FitsIn(doc, remaining)
  {
    FlatStackPush([], doc);
    assert [] + [doc] == [doc];
    AppendNothing(FlatText(doc));
  }

  lemma LookaheadEnds(rem: Option<nat>)
    ensures StillFits(FlatStack([]), rem) == rem.Some?
  {
  }

  /** The lookahead loop decides exactly whether the flat text fits. */
  method Fits(doc: Doc, remaining: nat) returns (fits: bool)
    ensures fits == FitsIn(doc, remaining)
  {
    hide FlatStack;
    hide FitsIn;
    hide StackSize;
    hide Reversed;
    var rem: Option<nat> := Some(remaining);
    var stack := [doc];
    LookaheadBegins(doc, remaining);
    while stack != []
      invariant StillFits(FlatStack(stack), rem) == FitsIn(doc, remaining)
      decreases StackSize(stack)
    {
      var top := stack[|stack| - 1];
      var below := stack[..|stack| - 1];
      assert stack == below + [top];
      if rem.None? {
        return false;
      }
      LookaheadStep(below, top, rem);
      LookaheadShrinks(below, top);
      hide StillFits;
      hide CheckedSub;
      match top
      case Text(s) =>
        rem := CheckedSub(rem, |s|);
        stack := below;
      case HardLine =>
        return false;
      case Line =>
        rem := CheckedSub(rem, 1);
        stack := below;
      case Indent(inner) =>
        stack := below + [inner];
      case Group(inner) =>
        stack := below + [inner];
      case Concat(docs) =>
        stack := PushChildren(below, docs);
      case FlatAlt(flat, _) =>
        stack := below + [flat];
    }
    LookaheadEnds(rem);
    return rem.Some?;
  }

  lemma AppendNothing(a: Option<seq<Byte>>)
    ensures Append(a, Some([])) == a
  {
    if a.Some? {
      assert a.value + [] == a.value;
    }
  }

  method PushChildren(below: seq<Doc>, docs: seq<Doc>) returns (stack: seq<Doc>)
    ensures stack == below + Reversed(docs)
  {
    stack := below;
    var i := |docs|;
    while i > 0
      invariant 0 <= i <= |docs|
      invariant stack == below + Reversed(docs)[..|docs| - i]
    {
      i := i - 1;
      stack := stack + [docs[i]];
    }
  }

  // ----- The work stack -----

  /** Only a document without hard lines is ever laid flat. */
  predicate Sound(w: Work) {
    w.mode.Flat? ==> FlatText(w.doc).Some?
  }

  function LayWork(o: FormatOptions, w: Work, col: nat): Rendered
    requires Sound(w)
  {
    if w.mode.Flat? then Rendered(FlatText(w.doc).value, col + |FlatText(w.doc).value|)
    else Lay(o, w.doc, w.indent, col)
  }

  /** What a stack of work still adds to the output, from the top down. */
  function LayStack(o: FormatOptions, stack: seq<Work>, col: nat): Rendered
    requires forall w :: w in stack ==> Sound(w)
  {
    if stack == [] then Rendered([], col)
    else
      var first := LayWork(o, stack[|stack| - 1], col);
      var rest := LayStack(o, stack[..|stack| - 1], first.col);
      Rendered(first.out + rest.out, rest.col)
  }

  function Then(o: FormatOptions, first: Rendered, stack: seq<Work>): Rendered
    requires forall w :: w in stack ==> Sound(w)
  {
    var rest := LayStack(o, stack, first.col);
    Rendered(first.out + rest.out, rest.col)
  }

  lemma LayStackPush(o: FormatOptions, stack: seq<Work>, w: Work, col: nat)
    requires Sound(w) && forall x :: x in stack ==> Sound(x)
    ensures LayStack(o, stack + [w], col) == Then(o, LayWork(o, w, col), stack)
  {
    assert (stack + [w])[..|stack|] == stack;
  }

  function Works(docs: seq<Doc>, indent: nat, mode: Mode): (works: seq<Work>)
    ensures |works| == |docs| && forall i :: 0 <= i < |docs| ==> works[i] == Work(indent, mode, docs[i])
  {
    seq(|docs|, i requires 0 <= i < |docs| => Work(indent, mode, docs[i]))
  }

  lemma {:induction false} ChildrenAreSound(docs: seq<Doc>)
    requires FlatTexts(docs).Some?
    ensures forall d :: d in docs ==> FlatText(d).Some?
  {
    if docs != [] {
      ChildrenAreSound(docs[1..]);
    }
  }

  lemma {:induction false} LayStackPushAll(
    o: FormatOptions, stack: seq<Work>, docs: seq<Doc>, indent: nat, mode: Mode, col: nat)
    requires forall x :: x in stack ==> Sound(x)
    requires mode.Flat? ==> FlatTexts(docs).Some?
    ensures forall x :: x in stack + Reversed(Works(docs, indent, mode)) ==> Sound(x)
    ensures LayStack(o, stack + Reversed(Works(docs, indent, mode)), col) ==
            Then(o, LayChildren(o, docs, indent, mode, col), stack)
  {
    if mode.Flat? {
      ChildrenAreSound(docs);
    }
    var works := Works(docs, indent, mode);
    var pushed := stack + Reversed(works);
    if docs == [] {
      assert pushed == stack;
    } else {
      assert Works(docs[1..], indent, mode) == works[1..];
      assert pushed == (stack + Reversed(works[1..])) + [works[0]];
      var first := LayWork(o, works[0], col);
      LayStackPushAll(o, stack, docs[1..], indent, mode, first.col);
      LayStackPush(o, stack + Reversed(works[1..]), works[0], col);
      ThenAssociates(o, stack, docs, indent, mode, col);
    }
  }

  /** The output of the first child, then of the others, then of the stack. */
  lemma ThenAssociates(o: FormatOptions, stack: seq<Work>, docs: seq<Doc>, indent: nat, mode: Mode, col: nat)
    requires docs != [] && forall x :: x in stack ==> Sound(x)
    requires mode.Flat? ==> FlatText(docs[0]).Some? && FlatTexts(docs[1..]).Some? && FlatTexts(docs).Some?
    ensures var first := LayWork(o, Work(indent, mode, docs[0]), col);
            var others := Then(o, LayChildren(o, docs[1..], indent, mode, first.col), stack);
            Then(o, LayChildren(o, docs, indent, mode, col), stack) == Rendered(first.out + others.out, others.col)
  {
    var first := LayWork(o, Work(indent, mode, docs[0]), col);
    var others := LayChildren(o, docs[1..], indent, mode, first.col);
    ChildrenSplit(o, docs, indent, mode, col);
    hide *;
    ThenSplits(o, first.out, others, stack);
  }

  lemma ChildrenSplit(o: FormatOptions, docs: seq<Doc>, indent: nat, mode: Mode, col: nat)
    requires docs != []
    requires mode.Flat? ==> FlatText(docs[0]).Some? && FlatTexts(docs[1..]).Some? && FlatTexts(docs).Some?
    ensures var first := LayWork(o, Work(indent, mode, docs[0]), col);
            var others := LayChildren(o, docs[1..], indent, mode, first.col);
            LayChildren(o, docs, indent, mode, col) == Rendered(first.out + others.out, others.col)
  {
    hide FlatText;
    hide Lay;
  }

  lemma ThenSplits(o: FormatOptions, out: seq<Byte>, others: Rendered, stack: seq<Work>)
    requires forall x :: x in stack ==> Sound(x)
    ensures var all := Rendered(out + others.out, others.col);
            Then(o, all, stack) == Rendered(out + Then(o, others, stack).out, Then(o, others, stack).col)
  {
    hide LayStack;
    var last := LayStack(o, stack, others.col).out;
    assert out + (others.out + last) == out + others.out + last;
  }

  function WorkSize(stack: seq<Work>): nat {
    if stack == [] then 0 else Size(stack[|stack| - 1].doc) + WorkSize(stack[..|stack| - 1])
  }

  lemma WorkSizePush(stack: seq<Work>, w: Work)
    ensures WorkSize(stack + [w]) == Size(w.doc) + WorkSize(stack)
  {
    assert (stack + [w])[..|stack|] == stack;
  }

  lemma {:induction false} WorkSizePushAll(stack: seq<Work>, docs: seq<Doc>, indent: nat, mode: Mode)
    ensures WorkSize(stack + Reversed(Works(docs, indent, mode))) == SizeAll(docs) + WorkSize(stack)
  {
    var works := Works(docs, indent, mode);
    var pushed := stack + Reversed(works);
    if docs == [] {
      assert pushed == stack;
    } else {
      assert Works(docs[1..], indent, mode) == works[1..];
      assert pushed == (stack + Reversed(works[1..])) + [works[0]];
      WorkSizePushAll(stack, docs[1..], indent, mode);
      WorkSizePush(stack + Reversed(works[1..]), works[0]);
    }
  }

  method PushIndent(out: seq<Byte>, indent: nat, o: FormatOptions) returns (r: seq<Byte>)
    ensures r == out + Indentation(indent, o)
  {
    var n := if o.useTabs then indent else indent * o.tabWidth;
    var b := if o.useTabs then TAB else SPACE;
    r := out;
    for i := 0 to n
      invariant r == out + Repeat(b, i)
    {
      r := r + [b];
    }
  }

  method PushWorks(below: seq<Work>, docs: seq<Doc>, indent: nat, mode: Mode) returns (stack: seq<Work>)
    ensures stack == below + Reversed(Works(docs, indent, mode))
  {
    stack := below;
    var i := |docs|;
    while i > 0
      invariant 0 <= i <= |docs|
      invariant stack == below + Reversed(Works(docs, indent, mode))[..|docs| - i]
    {
      i := i - 1;
      stack := stack + [Work(indent, mode, docs[i])];
    }
  }

  /** What is already written, then what the stack still adds. */
  ghost predicate Writes(o: FormatOptions, doc: Doc, output: seq<Byte>, stack: seq<Work>, col: nat) {
    && (forall w :: w in stack ==> Sound(w))
    && Lay(o, doc, 0, 0).out == output + LayStack(o, stack, col).out
  }

  lemma WritesTop(o: FormatOptions, doc: Doc, output: seq<Byte>, below: seq<Work>, top: Work, col: nat)
    requires Writes(o, doc, output, below + [top], col)
    ensures Sound(top) && (forall w :: w in below ==> Sound(w))
    ensures Lay(o, doc, 0, 0).out == output + Then(o, LayWork(o, top, col), below).out
  {
    assert top in below + [top];
    assert forall w :: w in below ==> w in below + [top];
    LayStackPush(o, below, top, col);
  }

  lemma WritesOut(o: FormatOptions, doc: Doc, output: seq<Byte>, below: seq<Work>, first: Rendered)
    requires forall w :: w in below ==> Sound(w)
    requires Lay(o, doc, 0, 0).out == output + Then(o, first, below).out
    ensures Writes(o, doc, output + first.out, below, first.col)
  {
    var rest := LayStack(o, below, first.col).out;
    assert output + (first.out + rest) == output + first.out + rest;
  }

  lemma WritesPush(o: FormatOptions, doc: Doc, output: seq<Byte>, below: seq<Work>, w: Work, col: nat)
    requires Sound(w) && forall x :: x in below ==> Sound(x)
    requires Lay(o, doc, 0, 0).out == output + Then(o, LayWork(o, w, col), below).out
    ensures Writes(o, doc, output, below + [w], col)
  {
    LayStackPush(o, below, w, col);
  }

  // ----- The column of the loop -----

  /** If no text of the document holds a line break, `col` is the length of the line being written. */
  ghost predicate InLine(doc: Doc, output: seq<Byte>, stack: seq<Work>, col: nat) {
    NewlineFree(doc) ==> (forall w :: w in stack ==> NewlineFree(w.doc)) && LineLength(output) == col
  }

  /** What the top of the stack adds when it is no more than a piece of a line, or a line break. */
  lemma InLineOut(
    o: FormatOptions, doc: Doc, output: seq<Byte>, below: seq<Work>, top: Work, col: nat, first: Rendered)
    requires InLine(doc, output, below + [top], col)
    requires || (top.doc.Text? && first == Rendered(top.doc.text, col + |top.doc.text|))
             || first == Rendered([SPACE], col + 1)
             || first == NewLine(o, top.indent)
    ensures InLine(doc, output + first.out, below, first.col)
  {
    hide LineLength;
    if NewlineFree(doc) {
      assert top in below + [top];
      assert forall w :: w in below ==> w in below + [top];
      if first == NewLine(o, top.indent) {
        LineLengthRestarts(output, o, top.indent);
      } else {
        LineLengthGrows(output, first.out);
      }
    }
  }

  /** Work for parts of the top changes nothing on the line. */
  lemma InLinePush(doc: Doc, output: seq<Byte>, below: seq<Work>, top: Work, more: seq<Work>, col: nat)
    requires InLine(doc, output, below + [top], col)
    requires NewlineFree(top.doc) ==> forall w :: w in more ==> NewlineFree(w.doc)
    ensures InLine(doc, output, below + more, col)
  {
    hide LineLength;
    hide NewlineFree;
    assert top in below + [top];
    assert forall w :: w in below ==> w in below + [top];
  }

  lemma InLinePushAll(
    doc: Doc, output: seq<Byte>, below: seq<Work>, top: Work, docs: seq<Doc>, indent: nat, mode: Mode, col: nat)
    requires InLine(doc, output, below + [top], col) && top.doc == Concat(docs)
    ensures InLine(doc, output, below + Reversed(Works(docs, indent, mode)), col)
  {
    var works := Works(docs, indent, mode);
    assert forall w :: w in Reversed(works) ==> w in works;
    InLinePush(doc, output, below, top, Reversed(works), col);
  }

  /**
   The work-stack loop writes the meaning of the document.  The sum of the
   sizes on the stack is what makes it stop, and the column it keeps is the
   length of the line it is writing, so what fits is decided for the real output.
   */
  method Format(doc: Doc, o: FormatOptions) returns (output: seq<Byte>)
    ensures output == Lay(o, doc, 0, 0).out
    ensures output == PrintedPieces.Spell(o, PrintedPieces.Pieces(o, doc, 0, 0))
  {
    hide Lay;
    hide LayStack;
    hide FlatText;
    hide Then;
    hide Indentation;
    hide LineLength;
    output := [];
    var col: nat := 0;
    var stack := [Work(0, Break, doc)];
    Begins(o, doc);
    while stack != []
      invariant Writes(o, doc, output, stack, col)
      invariant InLine(doc, output, stack, col)
      decreases WorkSize(stack)
    {
      var top := stack[|stack| - 1];
      var below := stack[..|stack| - 1];
      assert stack == below + [top];
      WritesTop(o, doc, output, below, top, col);
      hide Writes;
      hide InLine;
      var Work(indent, mode, d) := top;
      match d
      case Text(s) =>
        TopIs(o, top, col);
        WritesOut(o, doc, output, below, Rendered(s, col + |s|));
        InLineOut(o, doc, output, below, top, col, Rendered(s, col + |s|));
        output := output + s;
        col := col + |s|;
        stack := below;
      case HardLine =>
        TopIs(o, top, col);
        WritesOut(o, doc, output, below, NewLine(o, indent));
        InLineOut(o, doc, output, below, top, col, NewLine(o, indent));
        assert output + ([NEWLINE] + Indentation(indent, o)) == output + [NEWLINE] + Indentation(indent, o);
        output := PushIndent(output + [NEWLINE], indent, o);
        col := IndentWidth(indent, o);
        stack := below;
      case Line =>
        TopIs(o, top, col);
        match mode {
          case Flat =>
            WritesOut(o, doc, output, below, Rendered([SPACE], col + 1));
            InLineOut(o, doc, output, below, top, col, Rendered([SPACE], col + 1));
            output := output + [SPACE];
            col := col + 1;
          case Break =>
            WritesOut(o, doc, output, below, NewLine(o, indent));
            InLineOut(o, doc, output, below, top, col, NewLine(o, indent));
            assert output + ([NEWLINE] + Indentation(indent, o)) == output + [NEWLINE] + Indentation(indent, o);
            output := PushIndent(output + [NEWLINE], indent, o);
            col := IndentWidth(indent, o);
        }
        stack := below;
      case Indent(inner) =>
        TopChooses(o, top, col);
        WorkSizePush(below, Work(indent + 1, mode, inner));
        WritesPush(o, doc, output, below, Work(indent + 1, mode, inner), col);
        InLinePush(doc, output, below, top, [Work(indent + 1, mode, inner)], col);
        stack := below + [Work(indent + 1, mode, inner)];
      case Concat(docs) =>
        TopIs(o, top, col);
        WorkSizePushAll(below, docs, indent, mode);
        WritesPushAll(o, doc, output, below, docs, indent, mode, col);
        InLinePushAll(doc, output, below, top, docs, indent, mode, col);
        stack := PushWorks(below, docs, indent, mode);
      case Group(inner) =>
        TopChooses(o, top, col);
        var effective := mode;
        if mode.Break? {
          var fits := Fits(inner, Remaining(o, col));
          effective := if fits then Flat else Break;
        }
        WorkSizePush(below, Work(indent, effective, inner));
        WritesPush(o, doc, output, below, Work(indent, effective, inner), col);
        InLinePush(doc, output, below, top, [Work(indent, effective, inner)], col);
        stack := below + [Work(indent, effective, inner)];
      case FlatAlt(flat, broken) =>
        TopChooses(o, top, col);
        var chosen := if mode.Flat? then flat else broken;
        WorkSizePush(below, Work(indent, mode, chosen));
        WritesPush(o, doc, output, below, Work(indent, mode, chosen), col);
        InLinePush(doc, output, below, top, [Work(indent, mode, chosen)], col);
        stack := below + [Work(indent, mode, chosen)];
    }
    NothingLeft(o, doc, output, col);
    hide *;
    PrintedPieces.LayIsSpelled(o, doc, 0, 0);
  }

  lemma Begins(o: FormatOptions, doc: Doc)
    ensures Writes(o, doc, [], [Work(0, Break, doc)], 0) && InLine(doc, [], [Work(0, Break, doc)], 0)
  {
    assert [Work(0, Break, doc)][..0] == [];
    var out := Lay(o, doc, 0, 0).out;
    assert [] + (out + []) == out;
  }

  lemma NothingLeft(o: FormatOptions, doc: Doc, output: seq<Byte>, col: nat)
    requires Writes(o, doc, output, [], col)
    ensures output == Lay(o, doc, 0, 0).out
  {
    assert output + [] == output;
  }

  /** How the children of a concatenation are laid out, one after the other. */
  function LayChildren(o: FormatOptions, docs: seq<Doc>, indent: nat, mode: Mode, col: nat): Rendered
    requires mode.Flat? ==> FlatTexts(docs).Some?
  {
    if mode.Flat? then Rendered(FlatTexts(docs).value, col + |FlatTexts(docs).value|)
    else LayAll(o, docs, indent, col)
  }

  function Chosen(w: Work, o: FormatOptions, col: nat): Work
    requires w.doc.Indent? || w.doc.Group? || w.doc.FlatAlt?
  {
    if w.doc.Indent? then Work(w.indent + 1, w.mode, w.doc.inner)
    else if w.doc.Group? then
      Work(w.indent, if w.mode.Flat? || FitsIn(w.doc.inner, Remaining(o, col)) then Flat else Break, w.doc.inner)
    else Work(w.indent, w.mode, if w.mode.Flat? then w.doc.flat else w.doc.broken)
  }

  /** One step of the meaning of the work on top. */
  lemma TopIs(o: FormatOptions, w: Work, col: nat)
    requires Sound(w)
    ensures w.doc.Text? ==> LayWork(o, w, col) == Rendered(w.doc.text, col + |w.doc.text|)
    ensures w.doc.HardLine? ==> LayWork(o, w, col) == NewLine(o, w.indent)
    ensures w.doc.Line? && w.mode.Flat? ==> LayWork(o, w, col) == Rendered([SPACE], col + 1)
    ensures w.doc.Line? && w.mode.Break? ==> LayWork(o, w, col) == NewLine(o, w.indent)
    ensures w.doc.Concat? ==>
              && (w.mode.Flat? ==> FlatTexts(w.doc.docs).Some?)
              && LayWork(o, w, col) == LayChildren(o, w.doc.docs, w.indent, w.mode, col)
  {
  }

  lemma TopChooses(o: FormatOptions, w: Work, col: nat)
    requires Sound(w) && (w.doc.Indent? || w.doc.Group? || w.doc.FlatAlt?)
    ensures Sound(Chosen(w, o, col))
    ensures LayWork(o, w, col) == LayWork(o, Chosen(w, o, col), col)
  {
  }

  lemma WritesPushAll(
    o: FormatOptions, doc: Doc, output: seq<Byte>, below: seq<Work>, docs: seq<Doc>, indent: nat, mode: Mode, col: nat)
    requires (forall x :: x in below ==> Sound(x)) && (mode.Flat? ==> FlatTexts(docs).Some?)
    requires Lay(o, doc, 0, 0).out == output + Then(o, LayChildren(o, docs, indent, mode, col), below).out
    ensures Writes(o, doc, output, below + Reversed(Works(docs, indent, mode)), col)
  {
    LayStackPushAll(o, below, docs, indent, mode, col);
  }
}
