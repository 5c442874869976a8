/**
 Conservation of comments: every comment of a stream is stored in exactly one
 place, whatever lines the comments stand on.
 */
module LoaderComments {
  import opened Wrappers
  import opened Events
  import opened Schema
  import opened Ast
  import opened AstLemmas
  import opened LoaderSpec
  import opened LoaderAnchors

  /** How often the comment `c` is not yet given to a node: waiting or unread. */
  function Account(st: State, c: string): nat {
    multiset(st.pending)[c] + multiset(CommentTexts(st.rest))[c]
  }

  /** How often `c` was read before a key or item and not yet given to it. */
  function InHand(comments: Option<EntryComments>, c: string): nat {
    if comments.None? then 0
    else multiset(Texts(comments.value.raw))[c] + multiset(comments.value.inherited)[c]
  }

  /** A node that nothing has attached a comment to. */
  predicate Bare(n: Node) {
    n.LeadingComments() == [] && n.TrailingComment() == None
  }

  lemma {:induction false} RunOfComments(stream: seq<Item>)
    ensures var k := CommentRun(stream);
            CommentTexts(stream) == Texts(RawComments(stream[..k])) + CommentTexts(stream[k..])
  {
    var k := CommentRun(stream);
    if StartsWithComment(stream) {
      var first := WithHash(stream[0].event.text);
      assert k == 1 + CommentRun(stream[1..]);
      assert CommentTexts(stream) == [first] + CommentTexts(stream[1..]);
      FirstOfRaw(stream[..k]);
      assert stream[..k][1..] == stream[1..][..k - 1];
      assert stream[1..][k - 1..] == stream[k..];
      hide *;
      RunOfComments(stream[1..]);
      var raw := Texts(RawComments(stream[1..][..k - 1]));
      assert [first] + (raw + CommentTexts(stream[k..])) == [first] + raw + CommentTexts(stream[k..]);
    } else {
      assert stream[k..] == stream;
    }
  }

  lemma RunCount(stream: seq<Item>, c: string)
    ensures var k := CommentRun(stream);
            multiset(CommentTexts(stream))[c]
            == multiset(Texts(RawComments(stream[..k])))[c] + multiset(CommentTexts(stream[k..]))[c]
  {
    RunOfComments(stream);
  }

  lemma DrainingKeepsComments(st: State, c: string)
    ensures var k := CommentRun(st.rest);
            Account(st.(rest := st.rest[k..], pending := st.pending + Texts(RawComments(st.rest[..k]))), c) ==
              Account(st, c)
  {
    RunOfComments(st.rest);
  }

  lemma {:induction false} CompleteNodeKeepsComments(o: Options, st: State, n: Node, span: Span)
    ensures var r := CompleteNode(o, st, n, span);
            r.Ok? ==>
              && Comments(r.value.node) == Comments(n)
              && (Bare(n) ==> Bare(r.value.node))
              && (NoComments(n) ==> NoComments(r.value.node))
              && r.value.st.rest == st.rest && r.value.st.pending == st.pending
              && forall c :: Account(r.value.st, c) == Account(st, c)
  {
    hide ApplySchema;
    hide Comments;
    SchemaKeepsTheRest(o, n);
  }

  predicate NoComments(n: Node) {
    Bare(n) && Comments(n) == multiset{}
  }

  lemma ChildlessNodeHasNoComments(n: Node)
    requires Bare(n)
    requires n.Mapping? ==> n.entries == []
    requires n.Sequence? ==> n.items == []
    ensures NoComments(n)
  {
  }

  lemma EmptyScalarHasNoComments()
    ensures NoComments(EMPTY_SCALAR)
  {
  }

  lemma RelocatingKeepsComments(n: Node, loc: Span)
    ensures Comments(n.WithLoc(loc)) == Comments(n)
    ensures Bare(n) ==> Bare(n.WithLoc(loc))
  {
    SameShape(n, n.WithLoc(loc));
  }

  /** The events that open a node carry no comments into it. */
  lemma NewNodeIsBare(props: Properties, n: Node)
    requires !n.Alias? && n.meta == PropertiesMeta(props)
    ensures Bare(n)
  {
  }

  lemma {:induction false} RelocatedPlainNodeIsBare(n: Node, loc: Span)
    requires PlainTree(n)
    ensures NoComments(n.WithLoc(loc))
  {
    CloneKeepsTheTree(n);
    assert n.OwnComments() <= Comments(n);
    assert |n.LeadingComments()| == |multiset(n.LeadingComments())| <= |n.OwnComments()|;
    RelocatingKeepsComments(n, loc);
  }

  lemma ResolveAliasKeepsComments(o: Options, st: State, name: string, loc: Span)
    requires PlainAnchors(st.anchors)
    ensures var r := ResolveAlias(o, st, name, loc);
            r.Ok? ==> NoComments(r.value.node) && forall c :: Account(r.value.st, c) == Account(st, c)
  {
    hide NoComments;
    hide Expand;
    ChildlessNodeHasNoComments(Node.Alias(name, loc, None, None));
    if o.mode.Resolved? && name in st.anchors {
      ExpandAliasFree(o, st.anchors, st.expanded, st.anchors[name], {}, loc);
      RelocatedPlainNodeIsBare(st.anchors[name], loc);
    }
  }

  lemma ReadingAComment(st: State, c: string)
    requires StartsWithComment(st.rest)
    ensures Account(st.(rest := st.rest[1..], pending := st.pending + [WithHash(st.rest[0].event.text)]), c) ==
            Account(st, c)
  {
  }

  lemma OtherEventsHoldNoComment(st: State, c: string)
    ensures st.rest != [] && !StartsWithComment(st.rest) ==>
              forall depth :: Account(st.(rest := st.rest[1..], depth := depth), c) == Account(st, c)
    ensures forall depth :: Account(st.(depth := depth), c) == Account(st, c)
  {
  }

  lemma {:induction false} BeginNodeKeepsComments(o: Options, st: State, c: string)
    requires PlainAnchors(st.anchors)
    ensures var r := BeginNode(o, st);
            r.Ok? ==> NoComments(r.value.node) && Account(r.value.st, c) == Account(st, c)
    decreases |st.rest|
  {
    hide Account;
    hide CommentTexts;
    hide NoComments;
    hide Bare;
    hide CompleteNode;
    hide ResolveAlias;
    hide PropertiesMeta;
    EmptyScalarHasNoComments();
    OtherEventsHoldNoComment(st, c);
    if !StartsWithClosing(st.rest) && st.rest != [] && st.rest[0].Good? {
      var Good(event, span) := st.rest[0];
      var st1 := st.(rest := st.rest[1..]);
      match event
      case Scalar(value, style, props) =>
        var n := Node.Scalar(value, style, props.tag, span, PropertiesMeta(props));
        NewNodeIsBare(props, n);
        ChildlessNodeHasNoComments(n);
        CompleteNodeKeepsComments(o, st1, n, span);
      case MappingStart(style, props) =>
        var n := Mapping([], style, props.tag, span, PropertiesMeta(props));
        NewNodeIsBare(props, n);
        ChildlessNodeHasNoComments(n);
      case SequenceStart(style, props) =>
        var n := Sequence([], style, props.tag, span, PropertiesMeta(props));
        NewNodeIsBare(props, n);
        ChildlessNodeHasNoComments(n);
      case Alias(name) =>
        ResolveAliasKeepsComments(o, st1, name, span);
      case Comment(text) =>
        ReadingAComment(st, c);
        DrainingKeepsComments(st1.(pending := st1.pending + [WithHash(text)]), c);
        var k := CommentRun(st1.rest);
        BeginNodeKeepsComments(o, st1.(
          rest := st1.rest[k..],
          pending := st1.pending + [WithHash(text)] + Texts(RawComments(st1.rest[..k]))), c);
      case _ =>
    }
  }

  lemma {:induction false} NextEntryKeepsComments(o: Options, st: State, kind: CollectionKind, c: string)
    ensures match NextEntryOf(o, st, kind)
            case Ok(Next(Closed, st')) => Account(st', c) == Account(st, c)
            case Ok(Next(More(comments), st')) => InHand(comments, c) + Account(st', c) == Account(st, c)
            case Err(_) => true
  {
    RunOfComments(st.rest);
    hide RawComments;
    hide Texts;
    hide CommentTexts;
    hide CommentRun;
  }

  lemma {:induction false} AttachEntryKeepsComments(
    o: Options, st: State, n: Node, comments: Option<EntryComments>, c: string)
    requires Bare(n)
    ensures var p := AttachEntryComments(o, st, n, comments);
            && Comments(p.node)[c] + Account(p.st, c) == Comments(n)[c] + InHand(comments, c) + Account(st, c)
            && p.node.TrailingComment() == None
            && p.st.rest == st.rest
  {
    hide SplitComments;
    hide CommentTexts;
    hide Comments;
    hide AttachLeading;
    if comments.Some? {
      var held := comments.value;
      SplitKeepsComments(o, n, held.raw, c);
      var split := SplitComments(o, n, held.raw);
      assert multiset(st.pending + split.after) == multiset(st.pending) + multiset(split.after);
      assert multiset(held.inherited + split.before) == multiset(held.inherited) + multiset(split.before);
      AttachLeadingAddsComments(n, held.inherited + split.before);
    }
  }

  lemma SplitKeepsComments(o: Options, n: Node, raw: seq<RawComment>, c: string)
    ensures var split := SplitComments(o, n, raw);
            multiset(Texts(raw))[c] == multiset(split.before)[c] + multiset(split.after)[c]
  {
    hide PropertiesEnd;
    var split := SplitComments(o, n, raw);
    assert split.before + split.after == Texts(raw);
    assert multiset(Texts(raw)) == multiset(split.before) + multiset(split.after);
  }

  lemma {:induction false} AttachOnLineKeepsComments(o: Options, rest: seq<Item>, n: Node, line: Option<nat>, c: string)
    requires n.TrailingComment() == None
    ensures var a := AttachOnLine(o, rest, n, line);
            Comments(a.node)[c] + multiset(CommentTexts(a.rest))[c] == Comments(n)[c] + multiset(CommentTexts(rest))[c]
  {
    if StartsWithComment(rest) {
      AttachTrailingAddsComment(n, WithHash(rest[0].event.text));
    }
  }

  lemma {:induction false} FinishKeepsComments(
    o: Options, st: State, n: Node, comments: Option<EntryComments>, c: string)
    requires Bare(n)
    ensures var p := FinishKey(o, st, n, comments);
            Comments(p.node)[c] + Account(p.st, c) == Comments(n)[c] + InHand(comments, c) + Account(st, c)
    ensures var p := FinishItem(o, st, n, comments);
            Comments(p.node)[c] + Account(p.st, c) == Comments(n)[c] + InHand(comments, c) + Account(st, c)
    ensures var p := FinishValue(o, st, n);
            Comments(p.node)[c] + Account(p.st, c) == Comments(n)[c] + Account(st, c)
  {
    hide AttachEntryComments;
    hide AttachOnLine;
    hide Comments;
    AttachEntryKeepsComments(o, st, n, comments, c);
    var p := AttachEntryComments(o, st, n, comments);
    AttachOnLineKeepsComments(o, p.st.rest, p.node, KeyCommentLine(o, p.node), c);
    AttachOnLineKeepsComments(o, p.st.rest, p.node, CommentLine(o, p.node), c);
    AttachOnLineKeepsComments(o, st.rest, n, CommentLine(o, n), c);
  }

  /** A collection keeps its children's comments, and its end event holds none. */
  lemma {:induction false} FinishCollectionKeepsComments(o: Options, st: State, n: Node, c: string)
    requires Bare(n)
    ensures var r := FinishCollection(o, st, n);
            r.Ok? ==>
              Bare(r.value.node) && Comments(r.value.node) == Comments(n) && Account(r.value.st, c) == Account(st, c)
  {
    hide Account;
    hide Bare;
    hide Comments;
    hide CompleteNode;
    var ends := StartsWithEnd(st.rest, MappingKind) || StartsWithEnd(st.rest, SequenceKind);
    var loc := if ends then n.loc.(end := st.rest[0].span.end) else n.loc;
    var st1 := st.(rest := if ends then st.rest[1..] else st.rest, depth := st.depth - 1);
    OtherEventsHoldNoComment(st, c);
    RelocatingKeepsComments(n, loc);
    CompleteNodeKeepsComments(o, st1, n.WithLoc(loc), loc);
  }

  lemma {:induction false} ParseNodeKeepsComments(o: Options, st: State, c: string)
    requires Sound(o, st)
    ensures var r := ParseNode(o, st);
            r.Ok? ==> Bare(r.value.node) && Comments(r.value.node)[c] + Account(r.value.st, c) == Account(st, c)
    decreases |st.rest|, 0
  {
    hide Account;
    hide BeginNode;
    hide FinishCollection;
    BeginNodeKeepsComments(o, st, c);
    BeginNodeIsSound(o, st);
    hide Sound;
    var b := BeginNode(o, st);
    if b.Ok? && b.value.follow {
      match b.value.node
      case Mapping(_, style, tag, loc, meta) =>
        ParseEntriesKeepsComments(o, b.value.st, c);
        var p := ParseEntries(o, b.value.st);
        if p.Ok? {
          FinishCollectionKeepsComments(o, p.value.st, Mapping(p.value.entries, style, tag, loc, meta), c);
        }
      case Sequence(_, style, tag, loc, meta) =>
        ParseItemsKeepsComments(o, b.value.st, c);
        var p := ParseItems(o, b.value.st);
        if p.Ok? {
          FinishCollectionKeepsComments(o, p.value.st, Sequence(p.value.items, style, tag, loc, meta), c);
        }
    }
  }

  lemma {:induction false} ParseEntriesKeepsComments(o: Options, st: State, c: string)
    requires Sound(o, st)
    ensures var r := ParseEntries(o, st);
            r.Ok? ==> EntriesComments(r.value.entries)[c] + Account(r.value.st, c) == Account(st, c)
    decreases |st.rest|, 1
  {
    hide Account;
    hide Comments;
    hide NextEntryOf;
    hide FinishKey;
    hide FinishValue;
    hide Sound;
    NextEntryKeepsComments(o, st, MappingKind, c);
    NextEntryIsSound(o, st, MappingKind);
    var next := NextEntryOf(o, st, MappingKind);
    if next.Ok? && next.value.entry.More? {
      ParseNodeKeepsComments(o, next.value.st, c);
      ParseNodeIsSound(o, next.value.st);
      var k := ParseNode(o, next.value.st);
      if k.Ok? {
        FinishKeepsComments(o, k.value.st, k.value.node, next.value.entry.comments, c);
        FinishIsSound(o, k.value.st, k.value.node, next.value.entry.comments);
        var key := FinishKey(o, k.value.st, k.value.node, next.value.entry.comments);
        ParseNodeKeepsComments(o, key.st, c);
        ParseNodeIsSound(o, key.st);
        var v := ParseNode(o, key.st);
        if v.Ok? {
          FinishKeepsComments(o, v.value.st, v.value.node, None, c);
          FinishIsSound(o, v.value.st, v.value.node, None);
          var value := FinishValue(o, v.value.st, v.value.node);
          ParseEntriesKeepsComments(o, value.st, c);
          var more := ParseEntries(o, value.st);
          if more.Ok? {
            assert ([Ast.Entry(key.node, value.node)] + more.value.entries)[1..] == more.value.entries;
          }
        }
      }
    }
  }

  lemma {:induction false} ParseItemsKeepsComments(o: Options, st: State, c: string)
    requires Sound(o, st)
    ensures var r := ParseItems(o, st);
            r.Ok? ==> ItemsComments(r.value.items)[c] + Account(r.value.st, c) == Account(st, c)
    decreases |st.rest|, 1
  {
    hide Account;
    hide Comments;
    hide NextEntryOf;
    hide FinishItem;
    hide Sound;
    NextEntryKeepsComments(o, st, SequenceKind, c);
    NextEntryIsSound(o, st, SequenceKind);
    var next := NextEntryOf(o, st, SequenceKind);
    if next.Ok? && next.value.entry.More? {
      ParseNodeKeepsComments(o, next.value.st, c);
      ParseNodeIsSound(o, next.value.st);
      var i := ParseNode(o, next.value.st);
      if i.Ok? {
        FinishKeepsComments(o, i.value.st, i.value.node, next.value.entry.comments, c);
        FinishIsSound(o, i.value.st, i.value.node, next.value.entry.comments);
        var item := FinishItem(o, i.value.st, i.value.node, next.value.entry.comments);
        ParseItemsKeepsComments(o, item.st, c);
        var more := ParseItems(o, item.st);
        if more.Ok? {
          assert ([item.node] + more.value.items)[1..] == more.value.items;
        }
      }
    }
  }

  // ----- Documents -----

  /** All comments that a document holds: in its tree and in its four fields. */
  function DocumentComments(d: Document): multiset<string> {
    Comments(d.root) + multiset(d.prefixComments) + multiset(d.comments) + multiset(d.endComments)
    + multiset(d.afterEndComments)
  }

  function HeldBy(documents: seq<Document>): multiset<string> {
    if documents == [] then multiset{} else DocumentComments(documents[0]) + HeldBy(documents[1..])
  }

  lemma {:induction false} ParseRootKeepsComments(o: Options, st: State, c: string)
    requires Sound(o, st)
    ensures var r := ParseRoot(o, st);
            r.Ok? ==> Bare(r.value.node) && Comments(r.value.node)[c] + Account(r.value.st, c) == Account(st, c)
  {
    hide ApplySchema;
    hide ParseNode;
    hide Account;
    SchemaKeepsTheRest(o, EMPTY_SCALAR);
    EmptyScalarHasNoComments();
    ParseNodeKeepsComments(o, st, c);
  }

  lemma {:induction false} LoadDocumentKeepsComments(
    o: Options, st: State, start: Event, outside: seq<string>, c: string)
    requires start.DocumentStart?
    ensures var r := LoadDocument(o, st, start, outside);
            r.Ok? ==>
              && DocumentComments(r.value.document)[c] + multiset(CommentTexts(r.value.st.rest))[c]
                 == multiset(outside)[c] + multiset(CommentTexts(st.rest))[c]
              && r.value.document.afterEndComments == []
  {
    hide ParseRoot;
    hide Comments;
    hide FinishValue;
    hide Sound;
    hide CommentTexts;
    ResetIsSound(o, st);
    var r := LoadDocument(o, st, start, outside);
    if r.Ok? {
      RunCount(st.rest, c);
      var st1 := Reset(st).(rest := st.rest[CommentRun(st.rest)..]);
      SoundAnywhere(o, Reset(st), st1.rest);
      ParseRootKeepsComments(o, st1, c);
      var parsed := ParseRoot(o, st1).value;
      FinishKeepsComments(o, parsed.st, parsed.node, None, c);
      var root := FinishValue(o, parsed.st, parsed.node);
      RunCount(root.st.rest, c);
      var k := CommentRun(root.st.rest);
      DocumentEndHoldsNoComment(root.st.rest[k..]);
      DocumentCommentsCount(r.value.document, root.st.pending, Texts(RawComments(root.st.rest[..k])), c);
      hide DocumentComments;
    }
  }

  lemma DocumentCommentsCount(d: Document, pending: seq<string>, after: seq<string>, c: string)
    requires d.endComments == pending + after && d.afterEndComments == []
    ensures DocumentComments(d)[c] ==
            Comments(d.root)[c] + multiset(d.prefixComments)[c] + multiset(d.comments)[c]
            + multiset(pending)[c] + multiset(after)[c]
  {
    hide Comments;
  }

  lemma DocumentEndHoldsNoComment(rest: seq<Item>)
    ensures rest != [] && !StartsWithComment(rest) ==> CommentTexts(rest[1..]) == CommentTexts(rest)
  {
  }

  lemma {:induction false} LoadDocumentsKeepsComments(o: Options, st: State, outside: seq<string>, c: string)
    ensures var r := LoadDocuments(o, st, outside);
            r.Ok? ==>
              HeldBy(r.value.documents)[c] + multiset(r.value.outside)[c] + multiset(CommentTexts(r.value.st.rest))[c]
              == multiset(outside)[c] + multiset(CommentTexts(st.rest))[c]
    ensures var r := LoadDocuments(o, st, outside);
            r.Ok? ==> forall i :: 0 <= i < |r.value.documents| ==> r.value.documents[i].afterEndComments == []
    decreases |st.rest|
  {
    hide LoadDocument;
    hide DocumentComments;
    if st.rest != [] && st.rest[0].Good? {
      var event := st.rest[0].event;
      var st1 := st.(rest := st.rest[1..]);
      if event.DocumentStart? {
        LoadDocumentKeepsComments(o, st1, event, outside, c);
        var d := LoadDocument(o, st1, event, outside);
        if d.Ok? {
          LoadDocumentsKeepsComments(o, d.value.st, [], c);
          var more := LoadDocuments(o, d.value.st, []);
          if more.Ok? {
            assert ([d.value.document] + more.value.documents)[1..] == more.value.documents;
          }
        }
      } else if event.Comment? {
        assert CommentTexts(st.rest) == [WithHash(event.text)] + CommentTexts(st1.rest);
        LoadDocumentsKeepsComments(o, st1, outside + [WithHash(event.text)], c);
      } else if !event.StreamEnd? && !IsNodeEvent(event) {
        LoadDocumentsKeepsComments(o, st1, outside, c);
      }
    }
  }

  lemma {:induction false} GivingToLastAddsComments(documents: seq<Document>, outside: seq<string>, c: string)
    requires forall i :: 0 <= i < |documents| ==> documents[i].afterEndComments == []
    requires documents != []
    ensures HeldBy(GiveToLast(documents, outside))[c] == HeldBy(documents)[c] + multiset(outside)[c]
  {
    var given := GiveToLast(documents, outside);
    if |documents| > 1 {
      hide DocumentComments;
      GivingToLastAddsComments(documents[1..], outside, c);
      assert given[1..] == GiveToLast(documents[1..], outside);
    } else {
      AfterEndComments(documents[0], outside, c);
      hide DocumentComments;
      assert documents[1..] == [] == given[1..];
    }
  }

  lemma AfterEndComments(d: Document, outside: seq<string>, c: string)
    requires d.afterEndComments == []
    ensures DocumentComments(d.(afterEndComments := outside))[c] == DocumentComments(d)[c] + multiset(outside)[c]
  {
    hide Comments;
  }

  lemma {:induction false} RunAccountsFor(o: Options, stream: seq<Item>, c: string)
    requires stream != []
    ensures var r := Run(o, stream);
            r.Ok? ==>
              multiset(CommentTexts(stream))[c] ==
              HeldBy(r.value.documents)[c]
              + multiset(CommentTexts(stream[..1]))[c]
              + multiset(CommentTexts(r.value.st.rest))[c]
              + (if r.value.documents == [] then multiset(r.value.outside)[c] else 0)
  {
    hide HeldBy;
    hide LoadDocuments;
    hide CommentTexts;
    EmptyHoldsNothing();
    var r := Run(o, stream);
    if r.Ok? {
      var st := InitialState(stream[1..]);
      var l := LoadDocuments(o, st, []).value;
      LoadDocumentsKeepsComments(o, st, [], c);
      CommentTextsSplit(stream, 1);
      if l.documents != [] {
        GivingToLastAddsComments(l.documents, l.outside, c);
      }
    }
  }

  /**
   What becomes of every comment of a stream that loads: the documents hold
   it, or it was the first event, or it stands after the end of the stream, or
   there is no document to hold it.
   */
  lemma {:induction false} RunAccountsForComments(o: Options, stream: seq<Item>)
    requires stream != []
    ensures var r := Run(o, stream);
            r.Ok? ==>
              multiset(CommentTexts(stream)) ==
              HeldBy(r.value.documents)
              + multiset(CommentTexts(stream[..1]))
              + multiset(CommentTexts(r.value.st.rest))
              + (if r.value.documents == [] then multiset(r.value.outside) else multiset{})
  {
    hide HeldBy;
    hide Run;
    hide CommentTexts;
    forall c {
      RunAccountsFor(o, stream, c);
    }
  }

  lemma EmptyHoldsNothing()
    ensures HeldBy([]) == multiset{}
  {
  }

  /**
   Conservation, and exactly when it holds: the comments of a stream that
   loads are the comments its documents hold, if and only if the stream does
   not begin with a comment and has none after its end, or has none at all.
   */
  lemma {:induction false} RunKeepsEveryComment(o: Options, stream: seq<Item>)
    requires stream != []
    ensures var r := Run(o, stream);
            r.Ok? ==>
              (multiset(CommentTexts(stream)) == HeldBy(r.value.documents) <==>
               if r.value.documents == [] then CommentTexts(stream) == []
               else !StartsWithComment(stream) && CommentTexts(r.value.st.rest) == [])
  {
    hide HeldBy;
    hide Run;
    RunAccountsForComments(o, stream);
    var r := Run(o, stream);
    if r.Ok? {
      EmptyHoldsNothing();
      var held := HeldBy(r.value.documents);
      var all := CommentTexts(stream);
      assert |multiset(all)| == |all|;
      if r.value.documents != [] {
        var first, unread := CommentTexts(stream[..1]), CommentTexts(r.value.st.rest);
        assert |first| == if StartsWithComment(stream) then 1 else 0;
        assert multiset(all) == held + (multiset(first) + multiset(unread));
        assert |multiset(all)| == |held| + |first| + |unread|;
      }
    }
  }
}
