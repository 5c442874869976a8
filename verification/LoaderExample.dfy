/**
 A stream whose comments are not in the same places in both modes: the events of

     - &a
     - # c
       *a
     - x

 The empty node is complete only at the second dash, so its scalar stands there.
 When the comment has a line of its own between the two dashes, it comes first,
 and both modes agree.
 */
module LoaderExample {
  import opened Wrappers
  import opened Events
  import opened Schema
  import opened Ast
  import opened LoaderSpec
  import opened LoaderResolved
  import opened AliasSemantics
  import opened AliasPlacement
  import opened LoaderStream
  import opened LoaderPlacement
  import opened LoaderTidy
  import LoaderRoundTrip
  import LoaderTransparent
  import SchemaRegex

  const NO_PROPERTIES := Properties(None, None, None, None)

  function Anchored(): Event {
    Event.Scalar("", Plain, Properties(Some("a"), Some(Span(2, 4)), None, None))
  }

  function Stream(): (stream: seq<Item>)
    ensures |stream| == 10
  {
    [
      Good(StreamStart, Span(0, 0)),
      Good(DocumentStart(false, None, []), Span(0, 0)),
      Good(SequenceStart(Block, NO_PROPERTIES), Span(0, 0)),
      Good(Anchored(), Span(5, 5)),
      Good(Comment(" c"), Span(7, 10)),
      Good(Event.Alias("a"), Span(13, 15)),
      Good(Event.Scalar("x", Plain, NO_PROPERTIES), Span(18, 19)),
      Good(SequenceEnd, Span(20, 20)),
      Good(DocumentEnd(false), Span(20, 20)),
      Good(StreamEnd, Span(20, 20))
    ]
  }

  /** The limits let the stream load, and the comment is below the anchor. */
  predicate Suits(o: Options) {
    && o.maxNestingDepth >= 1 && o.maxAnchors >= 1 && o.maxExpandedNodes >= 2
    && o.schema.Core?
    && o.Line(4) < o.Line(7)
  }

  function EmptyNode(): Node {
    Node.Scalar("", Plain, Some(Null.Uri()), Span(5, 5), Some(Meta(Some("a"), Some(Span(2, 4)), None, None, None)))
  }

  function LastNode(leading: seq<string>): Node {
    AttachLeading(Node.Scalar("x", Plain, Some(Str.Uri()), Span(18, 19), None), leading)
  }

  /** What the alias becomes. */
  function SecondNode(o: Options): Node {
    if o.mode.Lossless? then Node.Alias("a", Span(13, 15), Some(["# c"]), None) else EmptyNode().WithLoc(Span(13, 15))
  }

  /** The comment in front of the alias, if it moves on. */
  function Moved(o: Options): seq<string> {
    if o.mode.Lossless? then [] else ["# c"]
  }

  /** The state once `k` events are read and `used` nodes are counted. */
  function At(o: Options, k: nat, used: nat, pending: seq<string>): State
    requires k <= |Stream()|
  {
    State(Stream()[k..], map["a" := if o.mode.Lossless? then EMPTY_SCALAR else EmptyNode()], 1, 1,
          if o.mode.Lossless? then 0 else used, pending)
  }

  function AtItems(): State {
    State(Stream()[3..], map[], 0, 1, 0, [])
  }

  lemma Listed(k: nat)
    requires k < |Stream()|
    ensures Stream()[k..] != [] && Stream()[k..][0] == Stream()[k] && Stream()[k..][1..] == Stream()[k + 1..]
  {
    hide Stream;
  }

  lemma EmptyNodeIsNull(o: Options)
    requires Suits(o)
    ensures ApplySchema(o, Node.Scalar("", Plain, None, Span(5, 5), PropertiesMeta(Anchored().props))) ==
            Ok(EmptyNode())
    ensures CloneWithoutComments(EmptyNode()) == EmptyNode()
  {
    hide ResolvedTag.Uri;
    hide Stream;
  }

  lemma FirstItemBegins(o: Options)
    requires Suits(o)
    ensures BeginEvent(o, AtItems().(rest := Stream()[4..]), Anchored(), Span(5, 5))
            == Ok(Begun(EmptyNode(), false, At(o, 4, 1, [])))
  {
    EmptyNodeIsNull(o);
    hide Stream;
    hide ApplySchema;
    hide ResolvedTag.Uri;
    hide CloneWithoutComments;
    hide PropertiesMeta;
  }

  lemma FirstItemLoads(o: Options)
    requires Suits(o)
    ensures ParseNode(o, AtItems()) == Ok(Parsed(EmptyNode(), At(o, 4, 1, [])))
  {
    assert AtItems().rest == Stream()[3..] && Stream()[3] == Good(Anchored(), Span(5, 5)) && Anchored().Scalar?;
    hide *;
    Listed(3);
    FirstItemBegins(o);
    OneEventLoads(o, AtItems(), Anchored(), Span(5, 5), Parsed(EmptyNode(), At(o, 4, 1, [])));
  }

  /** One comment in front of the alias. */
  lemma OneComment()
    ensures var rest := Stream()[4..];
            && CommentRun(rest) == 1 && rest[1..] == Stream()[5..]
            && rest[1] == Good(Event.Alias("a"), Span(13, 15))
            && RawComments(rest[..1]) == [RawComment("# c", 7)]
  {
    var rest := Stream()[4..];
    assert rest[0] == Good(Comment(" c"), Span(7, 10)) && rest[1] == Good(Event.Alias("a"), Span(13, 15));
    assert rest[1..] == Stream()[5..] && Stream()[5..][0] == rest[1];
    hide Stream;
    assert CommentRun(rest[1..]) == 0;
    assert WithHash(" c") == "# c";
  }

  lemma SecondItem(o: Options)
    requires Suits(o)
    ensures var next := NextEntryOf(o, At(o, 4, 1, []), SequenceKind);
            next == Ok(Next(More(Some(EntryComments([RawComment("# c", 7)], []))), At(o, 5, 1, [])))
  {
    OneComment();
    assert Stream()[5..][0] == Good(Event.Alias("a"), Span(13, 15));
    hide Stream;
    hide CommentRun;
    hide RawComments;
    hide Texts;
    hide EmptyNode;
  }

  lemma AliasBegins(o: Options)
    requires Suits(o)
    ensures var node := if o.mode.Lossless? then Node.Alias("a", Span(13, 15), None, None) else SecondNode(o);
            BeginEvent(o, At(o, 5, 1, []).(rest := Stream()[6..]), Event.Alias("a"), Span(13, 15))
            == Ok(Begun(node, false, At(o, 6, 2, [])))
  {
    hide Stream;
    hide ResolvedTag.Uri;
  }

  lemma AliasLoads(o: Options)
    requires Suits(o)
    ensures var node := if o.mode.Lossless? then Node.Alias("a", Span(13, 15), None, None) else SecondNode(o);
            ParseNode(o, At(o, 5, 1, [])) == Ok(Parsed(node, At(o, 6, 2, [])))
  {
    assert At(o, 5, 1, []).rest == Stream()[5..] && Stream()[5] == Good(Event.Alias("a"), Span(13, 15));
    hide *;
    Listed(5);
    AliasBegins(o);
    var node := if o.mode.Lossless? then Node.Alias("a", Span(13, 15), None, None) else SecondNode(o);
    OneEventLoads(o, At(o, 5, 1, []), Event.Alias("a"), Span(13, 15), Parsed(node, At(o, 6, 2, [])));
  }

  lemma CommentIsBelow(o: Options)
    requires Suits(o)
    ensures var raw := [RawComment("# c", 7)];
            && SplitComments(o, Node.Alias("a", Span(13, 15), None, None), raw) == Split(["# c"], [])
            && SplitComments(o, EmptyNode().WithLoc(Span(13, 15)), raw) == Split([], ["# c"])
  {
    var raw := [RawComment("# c", 7)];
    assert Texts(raw) == ["# c"];
    assert Texts(raw)[..1] == ["# c"] && Texts(raw)[1..] == [] && Texts(raw)[..0] == [] && Texts(raw)[0..] == ["# c"];
    assert UpToLine(o, raw, o.Line(4)) == 0;
  }

  /** In front of the alias the comment stays; in front of the empty node it does not. */
  lemma AliasFinishes(o: Options)
    requires Suits(o)
    ensures var node := if o.mode.Lossless? then Node.Alias("a", Span(13, 15), None, None) else SecondNode(o);
            FinishItem(o, At(o, 6, 2, []), node, Some(EntryComments([RawComment("# c", 7)], [])))
            == Parsed(SecondNode(o), At(o, 6, 2, Moved(o)))
  {
    hide SplitComments;
    CommentIsBelow(o);
    assert Stream()[6..][0] == Good(Event.Scalar("x", Plain, NO_PROPERTIES), Span(18, 19));
    var none: seq<string> := [];
    assert none + ["# c"] == ["# c"] && none + none == none;
  }

  lemma LastBegins(o: Options)
    requires Suits(o)
    ensures var comments := if o.mode.Lossless? then None else Some(EntryComments([], ["# c"]));
            NextEntryOf(o, At(o, 6, 2, Moved(o)), SequenceKind) == Ok(Next(More(comments), At(o, 6, 2, [])))
  {
    assert Stream()[6..][0] == Good(Event.Scalar("x", Plain, NO_PROPERTIES), Span(18, 19));
  }

  lemma LastLoads(o: Options)
    requires Suits(o)
    ensures ParseNode(o, At(o, 6, 2, [])) == Ok(Parsed(LastNode([]), At(o, 7, 2, [])))
  {
    var event := Event.Scalar("x", Plain, NO_PROPERTIES);
    assert At(o, 6, 2, []).rest == Stream()[6..] && Stream()[6] == Good(event, Span(18, 19));
    LastBeginsAs(o);
    hide *;
    Listed(6);
    OneEventLoads(o, At(o, 6, 2, []), event, Span(18, 19), Parsed(LastNode([]), At(o, 7, 2, [])));
  }

  lemma LastIsString(o: Options)
    requires Suits(o)
    ensures ApplySchema(o, Node.Scalar("x", Plain, None, Span(18, 19), PropertiesMeta(NO_PROPERTIES))) ==
            Ok(LastNode([]))
  {
    hide ResolvedTag.Uri;
    hide Stream;
  }

  lemma LastBeginsAs(o: Options)
    requires Suits(o)
    ensures BeginEvent(o, At(o, 6, 2, []).(rest := Stream()[7..]), Event.Scalar("x", Plain, NO_PROPERTIES),
            Span(18, 19))
            == Ok(Begun(LastNode([]), false, At(o, 7, 2, [])))
  {
    LastIsString(o);
    hide Stream;
    hide ApplySchema;
    hide ResolvedTag.Uri;
  }

  lemma LastFinishes(o: Options)
    requires Suits(o)
    ensures var comments := if o.mode.Lossless? then None else Some(EntryComments([], ["# c"]));
            FinishItem(o, At(o, 7, 2, []), LastNode([]), comments) == Parsed(LastNode(Moved(o)), At(o, 7, 2, []))
  {
    hide ResolvedTag.Uri;
    assert Stream()[7..][0] == Good(SequenceEnd, Span(20, 20));
    var none: seq<string> := [];
    assert Texts([]) == [] && ["# c"] + none == ["# c"] && none + none == none;
  }

  function TheItems(o: Options): seq<Node> {
    [EmptyNode(), SecondNode(o), LastNode(Moved(o))]
  }

  lemma FirstFinishes(o: Options)
    requires Suits(o)
    ensures NextEntryOf(o, AtItems(), SequenceKind) == Ok(Next(More(None), AtItems()))
    ensures FinishItem(o, At(o, 4, 1, []), EmptyNode(), None) == Parsed(EmptyNode(), At(o, 4, 1, []))
  {
    hide ResolvedTag.Uri;
    assert Stream()[3..][0] == Good(Anchored(), Span(5, 5));
  }

  lemma EndIsNext(o: Options)
    ensures NextEntryOf(o, At(o, 7, 2, []), SequenceKind) == Ok(Next(NextEntry.Closed, At(o, 7, 2, [])))
  {
    assert Stream()[7] == Good(SequenceEnd, Span(20, 20));
    Listed(7);
    hide Stream;
    hide ResolvedTag.Uri;
    var rest := Stream()[7..];
    assert CommentRun(rest) == 0 && rest[..0] == [] && rest[0..] == rest;
    var none: seq<string> := [];
    assert RawComments([]) == [] && Texts([]) == [] && none + none == none;
  }

  lemma ItemsEnd(o: Options)
    ensures ParseItems(o, At(o, 7, 2, [])) == Ok(ParsedItems([], At(o, 7, 2, [])))
  {
    hide *;
    EndIsNext(o);
    ItemsStep(o, At(o, 7, 2, []));
  }

  /** One item, loaded and finished, and the items behind it. */
  lemma OneItem(
    o: Options, st: State, comments: Option<EntryComments>, st1: State, p: Parsed, item: Parsed, more: ParsedItems)
    requires NextEntryOf(o, st, SequenceKind) == Ok(Next(More(comments), st1))
    requires ParseNode(o, st1) == Ok(p) && FinishItem(o, p.st, p.node, comments) == item
    requires ParseItems(o, item.st) == Ok(more)
    ensures ParseItems(o, st) == Ok(ParsedItems([item.node] + more.items, more.st))
  {
    hide NextEntryOf;
    hide ParseNode;
    hide ParseItems;
    hide FinishItem;
    ItemsStep(o, st);
  }

  lemma LastItemLoads(o: Options)
    requires Suits(o)
    ensures ParseItems(o, At(o, 6, 2, Moved(o))) == Ok(ParsedItems([LastNode(Moved(o))], At(o, 7, 2, [])))
  {
    hide *;
    LastBegins(o);
    LastLoads(o);
    LastFinishes(o);
    ItemsEnd(o);
    OneItem(
      o, At(o, 6, 2, Moved(o)), if o.mode.Lossless? then None else Some(EntryComments([], ["# c"])), At(o, 6, 2, []),
      Parsed(LastNode([]), At(o, 7, 2, [])), Parsed(LastNode(Moved(o)), At(o, 7, 2, [])),
      ParsedItems([], At(o, 7, 2, [])));
    assert [LastNode(Moved(o))] + [] == [LastNode(Moved(o))];
  }

  lemma LastTwoItemsLoad(o: Options)
    requires Suits(o)
    ensures ParseItems(o, At(o, 4, 1, [])) == Ok(ParsedItems([SecondNode(o), LastNode(Moved(o))], At(o, 7, 2, [])))
  {
    hide *;
    SecondItem(o);
    AliasLoads(o);
    AliasFinishes(o);
    LastItemLoads(o);
    var node := if o.mode.Lossless? then Node.Alias("a", Span(13, 15), None, None) else SecondNode(o);
    OneItem(
      o, At(o, 4, 1, []), Some(EntryComments([RawComment("# c", 7)], [])), At(o, 5, 1, []),
      Parsed(node, At(o, 6, 2, [])), Parsed(SecondNode(o), At(o, 6, 2, Moved(o))),
      ParsedItems([LastNode(Moved(o))], At(o, 7, 2, [])));
    assert [SecondNode(o)] + [LastNode(Moved(o))] == [SecondNode(o), LastNode(Moved(o))];
  }

  lemma ItemsLoad(o: Options)
    requires Suits(o)
    ensures ParseItems(o, AtItems()) == Ok(ParsedItems(TheItems(o), At(o, 7, 2, [])))
  {
    assert [EmptyNode()] + [SecondNode(o), LastNode(Moved(o))] == TheItems(o);
    hide *;
    FirstItemLoads(o);
    FirstFinishes(o);
    LastTwoItemsLoad(o);
    OneItem(
      o, AtItems(), None, AtItems(), Parsed(EmptyNode(), At(o, 4, 1, [])), Parsed(EmptyNode(), At(o, 4, 1, [])),
      ParsedItems([SecondNode(o), LastNode(Moved(o))], At(o, 7, 2, [])));
  }

  // ----- The document -----

  /** The sequence, closed. */
  function Root(o: Options): Node {
    Sequence(TheItems(o), Block, Some(Seq.Uri()), Span(0, 20), None)
  }

  lemma RootCloses(o: Options)
    requires Suits(o)
    ensures FinishCollection(o, At(o, 7, 2, []), Sequence(TheItems(o), Block, None, Span(0, 0), None))
            == Ok(Parsed(Root(o), At(o, 8, 2, []).(depth := 0)))
  {
    hide TheItems;
    hide ResolvedTag.Uri;
    assert Stream()[7..][0] == Good(SequenceEnd, Span(20, 20)) && Stream()[7..][1..] == Stream()[8..];
  }

  function AtRootEvent(): State {
    State(Stream()[2..], map[], 0, 0, 0, [])
  }

  lemma RootBegins(o: Options)
    requires Suits(o)
    ensures BeginNode(o, AtRootEvent()) == Ok(Begun(Sequence([], Block, None, Span(0, 0), None), true, AtItems()))
    ensures ParseRoot(o, AtRootEvent()) == ParseNode(o, AtRootEvent()) && CommentRun(Stream()[2..]) == 0
  {
    hide ParseNode;
    assert Stream()[2..][0] == Good(SequenceStart(Block, NO_PROPERTIES), Span(0, 0));
    assert Stream()[2..][1..] == Stream()[3..];
  }

  lemma RootLoads(o: Options)
    requires Suits(o)
    ensures ParseRoot(o, AtRootEvent()) == Ok(Parsed(Root(o), At(o, 8, 2, []).(depth := 0)))
  {
    hide BeginNode;
    hide FinishCollection;
    hide ParseItems;
    hide ParseRoot;
    hide TheItems;
    hide Root;
    hide At;
    hide AtItems;
    RootBegins(o);
    ItemsLoad(o);
    RootCloses(o);
  }

  function TheDocument(o: Options): Document {
    Document(Root(o), None, [], [], [], [], [], false, false)
  }

  lemma TheDocumentEnds(o: Options)
    requires Suits(o)
    ensures var r :=
            EndDocument(o, Parsed(Root(o), At(o, 8, 2, []).(depth := 0)), DocumentStart(false, None, []), [], []);
            r.Ok? && r.value.document == TheDocument(o) && r.value.st.rest == Stream()[9..]
  {
    hide TheItems;
    hide ResolvedTag.Uri;
    assert Stream()[8..][0] == Good(DocumentEnd(false), Span(20, 20)) && Stream()[8..][1..] == Stream()[9..];
    assert CommentRun(Stream()[8..]) == 0;
  }

  lemma TheDocumentLoads(o: Options)
    requires Suits(o)
    ensures var r := LoadDocument(o, InitialState(Stream()[2..]), DocumentStart(false, None, []), []);
            r.Ok? && r.value.document == TheDocument(o) && r.value.st.rest == Stream()[9..]
  {
    hide Stream;
    hide ParseRoot;
    hide EndDocument;
    hide Root;
    hide TheDocument;
    hide At;
    RootBegins(o);
    RootLoads(o);
    TheDocumentEnds(o);
    assert Texts(RawComments([])) == [];
    assert Stream()[2..][0..] == Stream()[2..];
  }

  lemma NothingFollows(o: Options, st: State)
    requires st.rest == Stream()[9..]
    ensures LoadDocuments(o, st, []) == Ok(Loaded([], [], st.(rest := [])))
  {
    assert Stream()[9..][0] == Good(StreamEnd, Span(20, 20)) && Stream()[9..][1..] == [];
  }

  lemma StartIsRead()
    ensures Stream()[1..][0] == Good(DocumentStart(false, None, []), Span(0, 0)) && Stream()[1..][1..] == Stream()[2..]
  {
  }

  lemma TheDocumentsLoad(o: Options)
    requires Suits(o)
    ensures var r := LoadDocuments(o, InitialState(Stream()[1..]), []);
            r.Ok? && r.value.documents == [TheDocument(o)] && r.value.outside == []
  {
    hide LoadDocument;
    hide TheDocument;
    hide Stream;
    hide Suits;
    TheDocumentLoads(o);
    StartIsRead();
    NothingFollows(o, LoadDocument(o, InitialState(Stream()[2..]), DocumentStart(false, None, []), []).value.st);
  }

  lemma StreamLoads(o: Options)
    requires Suits(o)
    ensures var r := Run(o, Stream()); r.Ok? && r.value.documents == [TheDocument(o)]
  {
    hide LoadDocuments;
    hide GiveToLast;
    TheDocumentsLoad(o);
    GivingNothing(TheDocument(o));
  }

  lemma GivingNothing(d: Document)
    requires d.afterEndComments == []
    ensures GiveToLast([d], []) == [d]
  {
  }

  /**
   In lossless mode the comment in front of the alias is the alias's; in resolved
   mode the node in its place has none, and the comment is the next item's.
   */
  lemma CommentMoves(o: Options)
    requires o.mode.Resolved? && Suits(o)
    ensures var l, r := Run(InLossless(o), Stream()), Run(o, Stream());
            && l.Ok? && r.Ok? && |l.value.documents| == |r.value.documents| == 1
            && var a, b := l.value.documents[0].root, r.value.documents[0].root;
               && a.Sequence? && b.Sequence? && |a.items| == |b.items| == 3
               && a.items[1].Alias? && a.items[1].LeadingComments() == ["# c"] && a.items[2].LeadingComments() == []
               && b.items[1].LeadingComments() == [] && b.items[2].LeadingComments() == ["# c"]
               && KeepDocuments(o, l.value.documents) != Ok(r.value.documents)
               && !StreamSettles(o, Stream())
  {
    hide Run;
    hide StreamSettles;
    hide ResolvedTag.Uri;
    var lo := InLossless(o);
    StreamLoads(lo);
    StreamLoads(o);
    ResolvedKeepsComments(o, Stream());
    KeptDiffers(o);
  }

  lemma KeptDiffers(o: Options)
    requires o.mode.Resolved? && Suits(o)
    ensures KeepDocuments(o, [TheDocument(InLossless(o))]) != Ok([TheDocument(o)])
  {
    hide Stream;
    hide ResolvedTag.Uri;
    hide KeepItems;
    var items := TheItems(InLossless(o));
    KeepHoldsItemComments(o, items, NO_NAMES);
    KeepOneDocument(o, TheDocument(InLossless(o)));
    assert items[1].LeadingComments() == ["# c"] && TheItems(o)[1].LeadingComments() == [];
  }

  // ----- With the comment on a line of its own -----

  /** The events of `- &a`, `# c`, `- *a`, `- x`: the comment is in front of the empty node. */
  function CommentFirst(): (stream: seq<Item>)
    ensures |stream| == 10
  {
    [
      Good(StreamStart, Span(0, 0)),
      Good(DocumentStart(false, None, []), Span(0, 0)),
      Good(SequenceStart(Block, NO_PROPERTIES), Span(0, 0)),
      Good(Comment(" c"), Span(5, 8)),
      Good(Anchored(), Span(9, 9)),
      Good(Event.Alias("a"), Span(11, 13)),
      Good(Event.Scalar("x", Plain, NO_PROPERTIES), Span(16, 17)),
      Good(SequenceEnd, Span(18, 18)),
      Good(DocumentEnd(false), Span(18, 18)),
      Good(StreamEnd, Span(18, 18))
    ]
  }

  lemma CommentFirstIsTidy(o: Options)
    requires OnOneLine(o, Span(11, 13))
    ensures IsTidy(o, CommentFirst())
  {
    hide OnOneLine;
    hide HasEmptyNode;
    hide CommentFirst;
    hide IsSuffix;
    forall rest | IsSuffix(rest, CommentFirst()) ensures TidyAt(o, CommentFirst(), rest) {
      NothingInFront(rest);
    }
  }

  /** The one alias stands behind an event that is no comment. */
  lemma TheAlias(i: nat)
    requires i < |CommentFirst()| && CommentFirst()[i].Good? && CommentFirst()[i].event.Alias?
    ensures CommentFirst()[i] == Good(Event.Alias("a"), Span(11, 13))
    ensures i > 0 && CommentFirst()[i - 1].Good? && !CommentFirst()[i - 1].event.Comment?
  {
    assert i == 5;
  }

  /** So no comment is directly in front of it. */
  lemma NothingInFront(rest: seq<Item>)
    requires IsSuffix(rest, CommentFirst())
    ensures var k := CommentRun(rest);
            k < |rest| && rest[k].Good? && rest[k].event.Alias? ==>
              k == 0 && rest[k] == Good(Event.Alias("a"), Span(11, 13))
  {
    hide CommentFirst;
    hide CommentRun;
    var stream, k := CommentFirst(), CommentRun(rest);
    var at := |stream| - |rest|;
    if k < |rest| && rest[k].Good? && rest[k].event.Alias? {
      assert rest[k] == stream[at + k];
      assert k > 0 ==> rest[k - 1] == stream[at + k - 1];
      TheAlias(at + k);
    }
  }

  /** What is written, without the comment. */
  function WrittenList(): LoaderRoundTrip.Tree {
    LoaderRoundTrip.List(
      [LoaderRoundTrip.Leaf("", Plain, Anchored().props, Span(9, 9)),
       LoaderRoundTrip.Reference("a", Span(11, 13)),
       LoaderRoundTrip.Leaf("x", Plain, NO_PROPERTIES, Span(16, 17))],
      Block, NO_PROPERTIES, Span(0, 0), Span(18, 18))
  }

  function WrittenDocument(): LoaderRoundTrip.Written {
    LoaderRoundTrip.Written(WrittenList(), false, None, [], Span(0, 0), false, Span(18, 18))
  }

  lemma {:induction false} NothingToDrop(stream: seq<Item>)
    requires forall i :: 0 <= i < |stream| ==> stream[i].Good? && !stream[i].event.Comment?
    ensures LoaderTransparent.WithoutComments(stream) == stream
  {
    if stream != [] {
      NothingToDrop(stream[1..]);
    }
  }

  lemma {:induction false} OneToDrop(before: seq<Item>, comment: Item, after: seq<Item>)
    requires forall i :: 0 <= i < |before| ==> before[i].Good? && !before[i].event.Comment?
    requires forall i :: 0 <= i < |after| ==> after[i].Good? && !after[i].event.Comment?
    requires comment.Good? && comment.event.Comment?
    ensures LoaderTransparent.WithoutComments(before + ([comment] + after)) == before + after
  {
    var all := before + ([comment] + after);
    if before == [] {
      NothingToDrop(after);
      assert all == [comment] + after && all[1..] == after;
    } else {
      OneToDrop(before[1..], comment, after);
      assert all[1..] == before[1..] + ([comment] + after) && all[0] == before[0];
      assert [before[0]] + (before[1..] + after) == before + after;
    }
  }

  function BeforeTheComment(): seq<Item> {
    [Good(StreamStart, Span(0, 0)), Good(DocumentStart(false, None, []), Span(0, 0)),
     Good(SequenceStart(Block, NO_PROPERTIES), Span(0, 0))]
  }

  function TheElements(): seq<Item> {
    [Good(Anchored(), Span(9, 9)), Good(Event.Alias("a"), Span(11, 13)),
     Good(Event.Scalar("x", Plain, NO_PROPERTIES), Span(16, 17))]
  }

  function TheEnds(): seq<Item> {
    [Good(SequenceEnd, Span(18, 18)), Good(DocumentEnd(false), Span(18, 18)), Good(StreamEnd, Span(18, 18))]
  }

  lemma WithoutTheComment()
    ensures LoaderTransparent.WithoutComments(CommentFirst()) == BeforeTheComment() + (TheElements() + TheEnds())
  {
    var comment := Good(Comment(" c"), Span(5, 8));
    assert CommentFirst() == BeforeTheComment() + ([comment] + (TheElements() + TheEnds()));
    OneToDrop(BeforeTheComment(), comment, TheElements() + TheEnds());
  }

  lemma ThreeElements(a: LoaderRoundTrip.Tree, b: LoaderRoundTrip.Tree, c: LoaderRoundTrip.Tree)
    ensures LoaderRoundTrip.ListEvents([a, b, c]) ==
            LoaderRoundTrip.TreeEvents(a) + (LoaderRoundTrip.TreeEvents(b) + LoaderRoundTrip.TreeEvents(c))
    ensures LoaderRoundTrip.ListNames([a, b, c]) ==
            LoaderRoundTrip.Names(a) + (LoaderRoundTrip.Names(b) + LoaderRoundTrip.Names(c))
  {
    hide LoaderRoundTrip.TreeEvents;
    hide LoaderRoundTrip.Names;
    assert [a, b, c][1..] == [b, c] && [b, c][1..] == [c] && [c][1..] == [];
    assert LoaderRoundTrip.ListEvents([]) == [] && LoaderRoundTrip.ListNames([]) == {};
    assert LoaderRoundTrip.ListEvents([c]) == LoaderRoundTrip.TreeEvents(c);
    assert LoaderRoundTrip.ListNames([c]) == LoaderRoundTrip.Names(c);
  }

  lemma ElementsAreWritten()
    ensures WrittenList().List? && LoaderRoundTrip.ListEvents(WrittenList().elements) == TheElements()
  {
    var es := WrittenList().elements;
    ThreeElements(es[0], es[1], es[2]);
  }

  lemma ListIsWritten()
    ensures LoaderRoundTrip.TreeEvents(WrittenList()) ==
            [Good(SequenceStart(Block, NO_PROPERTIES), Span(0, 0))]
              + (TheElements() + [Good(SequenceEnd, Span(18, 18))])
  {
    ElementsAreWritten();
    hide LoaderRoundTrip.ListEvents;
    hide TheElements;
  }

  lemma OneDocumentIsWritten(w: LoaderRoundTrip.Written, start: Span, end: Span)
    ensures LoaderRoundTrip.StreamOf([w], start, end) ==
            [Good(StreamStart, start), Good(LoaderRoundTrip.StartEvent(w), w.startSpan)]
            + (LoaderRoundTrip.TreeEvents(w.tree) + [Good(DocumentEnd(w.explicitEnd), w.endSpan), Good(StreamEnd, end)])
  {
    hide LoaderRoundTrip.TreeEvents;
    hide LoaderRoundTrip.StartEvent;
    assert [w][1..] == [] && LoaderRoundTrip.WrittenEvents([]) == [];
  }

  lemma Regroup(a: seq<Item>, open: Item, inner: seq<Item>, close: Item, b: seq<Item>)
    ensures a + (([open] + (inner + [close])) + b) == (a + [open]) + (inner + ([close] + b))
  {
  }

  lemma DocumentIsWritten()
    ensures LoaderRoundTrip.StreamOf([WrittenDocument()], Span(0, 0), Span(18, 18)) ==
            BeforeTheComment() + (TheElements() + TheEnds())
  {
    var a := [Good(StreamStart, Span(0, 0)), Good(DocumentStart(false, None, []), Span(0, 0))];
    var b := [Good(DocumentEnd(false), Span(18, 18)), Good(StreamEnd, Span(18, 18))];
    var open, close := Good(SequenceStart(Block, NO_PROPERTIES), Span(0, 0)), Good(SequenceEnd, Span(18, 18));
    assert a + [open] == BeforeTheComment() && [close] + b == TheEnds();
    assert LoaderRoundTrip.StartEvent(WrittenDocument()) == DocumentStart(false, None, []);
    ListIsWritten();
    OneDocumentIsWritten(WrittenDocument(), Span(0, 0), Span(18, 18));
    Regroup(a, open, TheElements(), close, b);
    hide *;
  }

  lemma ElementTags()
    ensures SchemaRegex.TableTag(Core, Plain, "") == Some(Null.Uri())
    ensures SchemaRegex.TableTag(Core, Plain, "x") == Some(Str.Uri())
  {
    SchemaRegex.ResolvesByTheTables(Core, Plain, "");
    SchemaRegex.ResolvesByTheTables(Core, Plain, "x");
    hide SchemaRegex.TableTag;
    hide ResolvedTag.Uri;
  }

  lemma ElementsFit(o: Options, room: int)
    requires o.schema.Core?
    ensures LoaderRoundTrip.ListFits(o, WrittenList().elements, room)
  {
    ElementTags();
    hide SchemaRegex.TableTag;
    var es := WrittenList().elements;
    assert forall i :: 0 <= i < 3 ==> LoaderRoundTrip.Fits(o, es[i], room);
    hide LoaderRoundTrip.Fits;
    assert LoaderRoundTrip.ListFits(o, es[1..][1..][1..], room);
    assert LoaderRoundTrip.ListFits(o, es[1..][1..], room);
    assert LoaderRoundTrip.ListFits(o, es[1..], room);
  }

  lemma ElementsAreNamed()
    ensures LoaderRoundTrip.Names(WrittenList()) == {"a"}
  {
    var es := WrittenList().elements;
    ThreeElements(es[0], es[1], es[2]);
  }

  lemma WrittenFits(o: Options)
    requires o.maxNestingDepth >= 1 && o.maxAnchors >= 1 && o.schema.Core?
    ensures LoaderRoundTrip.WithinLimits(o, WrittenDocument())
  {
    hide SchemaRegex.TableTag;
    ElementsFit(o, o.maxNestingDepth - 1);
    ElementsAreNamed();
    assert |{"a"}| == 1;
    hide LoaderRoundTrip.ListFits;
    hide LoaderRoundTrip.Names;
  }

  /** What the list means: an empty node, its copy in the place of the alias, and a string. */
  function ElementNodes(): seq<Node> {
    [EmptyNode().WithLoc(Span(9, 9)), Node.Alias("a", Span(11, 13), None, None),
     Node.Scalar("x", Plain, Some(Str.Uri()), Span(16, 17), None)]
  }

  lemma ElementsAsLoaded(o: Options)
    requires o.schema.Core?
    ensures LoaderRoundTrip.LoadedList(o, WrittenList().elements) == ElementNodes()
  {
    ElementTags();
    hide SchemaRegex.TableTag;
    hide ResolvedTag.Uri;
    var es := WrittenList().elements;
    assert es[1..][1..] == [es[2]] && es[1..][1..][1..] == [];
    assert LoaderRoundTrip.LoadedList(o, []) == [];
    assert LoaderRoundTrip.AsLoaded(o, es[0]) == ElementNodes()[0];
    assert LoaderRoundTrip.AsLoaded(o, es[1]) == ElementNodes()[1];
    assert LoaderRoundTrip.AsLoaded(o, es[2]) == ElementNodes()[2];
    hide LoaderRoundTrip.AsLoaded;
    hide ElementNodes;
    assert LoaderRoundTrip.LoadedList(o, es[1..][1..]) == [LoaderRoundTrip.AsLoaded(o, es[2])];
  }

  lemma ElementsResolve(o: Options)
    requires o.maxExpandedNodes >= 2
    ensures ResolveItems(o, ElementNodes(), NO_NAMES).Ok?
  {
    hide ResolvedTag.Uri;
    var es := ElementNodes();
    assert es[1..][1..] == [es[2]] && es[1..][1..][1..] == [];
    var env1 := Env(map["a" := es[0]], 1);
    assert ResolveNode(o, es[0], NO_NAMES) == Ok(Resolution(es[0], env1));
    var second := ResolveNode(o, es[1], env1);
    assert second.Ok? && second.value.env == Env(map["a" := es[0]], 2);
    var third := ResolveNode(o, es[2], second.value.env);
    assert third.Ok?;
    hide ResolveNode;
    hide ElementNodes;
    assert ResolveItems(o, [], third.value.env).Ok?;
    assert ResolveItems(o, es[1..][1..], second.value.env).Ok?;
    assert ResolveItems(o, es[1..], env1).Ok?;
  }

  lemma ListResolves(o: Options)
    requires o.schema.Core? && o.maxExpandedNodes >= 2
    ensures ResolveNode(o, LoaderRoundTrip.AsLoaded(InLossless(o), WrittenList()), NO_NAMES).Ok?
  {
    ElementsAsLoaded(InLossless(o));
    ElementsResolve(o);
    hide ElementNodes;
    hide LoaderRoundTrip.LoadedList;
    hide ResolveItems;
  }

  /** With the comment on a line of its own both modes load, and agree. */
  lemma CommentFirstStays(o: Options)
    requires o.mode.Resolved? && OnOneLine(o, Span(11, 13))
    requires o.maxNestingDepth >= 1 && o.maxAnchors >= 1 && o.maxExpandedNodes >= 2 && o.schema.Core?
    ensures StreamSettles(o, CommentFirst())
    ensures var l, r := Run(InLossless(o), CommentFirst()), Run(o, CommentFirst());
            l.Ok? && r.Ok? && KeepDocuments(o, l.value.documents) == Ok(r.value.documents)
  {
    hide StreamSettles;
    hide Run;
    hide OnOneLine;
    hide CommentFirst;
    hide KeepDocuments;
    hide LoaderTransparent.BaredAll;
    var l := Run(InLossless(o), CommentFirst());
    CommentFirstIsTidy(o);
    TidyStreamsKeepComments(o, CommentFirst());
    CommentFirstLoads(o);
    KeepResolvesDocuments(o, l.value.documents);
    ResolvedKeepsComments(o, CommentFirst());
  }

  lemma StartIsNoComment()
    ensures !StartsWithComment(CommentFirst())
  {
  }

  lemma {:induction false} BaredAsMany(documents: seq<Document>)
    ensures |LoaderTransparent.BaredAll(documents)| == |documents|
  {
    if documents != [] {
      BaredAsMany(documents[1..]);
    }
  }

  lemma OneBared(documents: seq<Document>, d: Document)
    requires LoaderTransparent.BaredAll(documents) == [d]
    ensures |documents| == 1 && CloneWithoutComments(documents[0].root) == d.root
  {
    hide CloneWithoutComments;
    BaredAsMany(documents);
  }

  lemma OneResolves(o: Options, d: Document)
    requires ResolveNode(o, CloneWithoutComments(d.root), NO_NAMES).Ok?
    ensures ResolveDocuments(o, [d]).Ok?
  {
    hide ResolveNode;
    hide CloneWithoutComments;
    ResolveIgnoresAllComments(o, d.root, NO_NAMES);
    assert [d][1..] == [] && ResolveDocuments(o, []).Ok?;
  }

  lemma CommentFirstLoads(o: Options)
    requires o.mode.Resolved? && o.maxNestingDepth >= 1 && o.maxAnchors >= 1 && o.maxExpandedNodes >= 2
             && o.schema.Core?
    ensures var l := Run(InLossless(o), CommentFirst()); l.Ok? && ResolveDocuments(o, l.value.documents).Ok?
  {
    hide Run;
    hide CommentFirst;
    hide WrittenList;
    hide ResolveDocuments;
    hide LoaderRoundTrip.AsLoaded;
    hide LoaderRoundTrip.WithinLimits;
    hide LoaderRoundTrip.StreamOf;
    hide LoaderTransparent.BaredAll;
    var lo := InLossless(o);
    WithoutTheComment();
    DocumentIsWritten();
    WrittenFits(lo);
    StartIsNoComment();
    LoaderTransparent.CommentedRoundTrip(lo, [WrittenDocument()], Span(0, 0), Span(18, 18), CommentFirst());
    var documents := Run(lo, CommentFirst()).value.documents;
    assert [WrittenDocument()][1..] == [] && LoaderRoundTrip.LoadedDocuments(lo, []) == [];
    assert LoaderRoundTrip.LoadedDocuments(lo, [WrittenDocument()]) ==
      [LoaderRoundTrip.LoadedDocument(lo, WrittenDocument())];
    OneBared(documents, LoaderRoundTrip.LoadedDocument(lo, WrittenDocument()));
    ListResolves(o);
    assert documents == [documents[0]];
    OneResolves(o, documents[0]);
  }
}
