/**
 How large a loaded tree can be: every event adds at most two nodes, and alias
 expansion adds at most its budget.
 */
module LoaderSize {
  import opened Wrappers
  import opened Events
  import opened Schema
  import opened Ast
  import opened LoaderSpec
  import opened LoaderAnchors

  /** The nodes that a stretch of stream and the budget used in it allow. */
  function Allowance(st: State, st': State): int {
    2 * (|st.rest| - |st'.rest|) + st'.expanded - st.expanded
  }

  lemma {:induction false} CompleteNodeSize(o: Options, st: State, n: Node, span: Span)
    ensures var r := CompleteNode(o, st, n, span);
            r.Ok? ==>
              NodeCount(r.value.node) == NodeCount(n) && r.value.st.rest == st.rest
                && st.expanded <= r.value.st.expanded
  {
    hide ApplySchema;
    SchemaKeepsTheRest(o, n);
  }

  lemma {:induction false} RelocatingKeepsSize(n: Node, loc: Span)
    ensures NodeCount(n.WithLoc(loc)) == NodeCount(n)
  {
  }

  lemma {:induction false} BeginEventSize(o: Options, st: State, event: Event, span: Span)
    requires PlainAnchors(st.anchors)
    ensures var r := BeginEvent(o, st, event, span);
            r.Ok? ==>
              && st.expanded <= r.value.st.expanded
              && (if r.value.follow then r.value.st.expanded == st.expanded
                  else NodeCount(r.value.node) <= 1 + r.value.st.expanded - st.expanded)
  {
    hide CompleteNode;
    hide Expand;
    match event
    case Scalar(value, style, props) =>
      CompleteNodeSize(o, st, Node.Scalar(value, style, props.tag, span, PropertiesMeta(props)), span);
    case Alias(name) =>
      if o.mode.Resolved? && name in st.anchors {
        ExpandAliasFree(o, st.anchors, st.expanded, st.anchors[name], {}, span);
        RelocatingKeepsSize(st.anchors[name], span);
      }
    case _ =>
  }

  lemma {:induction false} BeginNodeSize(o: Options, st: State)
    requires PlainAnchors(st.anchors)
    ensures var r := BeginNode(o, st);
            r.Ok? ==>
              && st.expanded <= r.value.st.expanded
              && (if r.value.follow then r.value.st.expanded == st.expanded && |r.value.st.rest| < |st.rest|
                  else NodeCount(r.value.node) <= 1 + r.value.st.expanded - st.expanded)
    decreases |st.rest|
  {
    hide BeginEvent;
    if !StartsWithClosing(st.rest) && st.rest != [] && st.rest[0].Good? {
      var Good(event, span) := st.rest[0];
      var st1 := st.(rest := st.rest[1..]);
      if event.Comment? {
        var k := CommentRun(st1.rest);
        BeginNodeSize(o, st1.(
          rest := st1.rest[k..],
          pending := st1.pending + [WithHash(event.text)] + Texts(RawComments(st1.rest[..k]))));
      } else {
        BeginEventSize(o, st1, event, span);
      }
    }
  }

  lemma {:induction false} FinishSize(o: Options, st: State, n: Node, comments: Option<EntryComments>)
    ensures NodeCount(FinishKey(o, st, n, comments).node) == NodeCount(n)
    ensures NodeCount(FinishItem(o, st, n, comments).node) == NodeCount(n)
    ensures NodeCount(FinishValue(o, st, n).node) == NodeCount(n)
    ensures FinishKey(o, st, n, comments).st.expanded == st.expanded
    ensures FinishItem(o, st, n, comments).st.expanded == st.expanded
    ensures FinishValue(o, st, n).st.expanded == st.expanded
  {
  }

  /** One more than twice the events used, less two if any event was used. */
  lemma {:induction false} ParseNodeSize(o: Options, st: State)
    requires Sound(o, st)
    ensures var r := ParseNode(o, st);
            r.Ok? ==>
              NodeCount(r.value.node) <= Allowance(st, r.value.st) + (if |r.value.st.rest| < |st.rest| then -1 else 1)
    decreases |st.rest|, 0
  {
    hide BeginNode;
    hide FinishCollection;
    hide Sound;
    SoundHasPlainAnchors(o, st);
    BeginNodeSize(o, st);
    BeginNodeIsSound(o, st);
    var b := BeginNode(o, st);
    if b.Ok? && b.value.follow {
      match b.value.node
      case Mapping(_, style, tag, loc, meta) =>
        ParseEntriesSize(o, b.value.st);
        var p := ParseEntries(o, b.value.st);
        if p.Ok? {
          FinishCollectionSize(o, p.value.st, Mapping(p.value.entries, style, tag, loc, meta));
        }
      case Sequence(_, style, tag, loc, meta) =>
        ParseItemsSize(o, b.value.st);
        var p := ParseItems(o, b.value.st);
        if p.Ok? {
          FinishCollectionSize(o, p.value.st, Sequence(p.value.items, style, tag, loc, meta));
        }
    }
  }

  lemma SoundHasPlainAnchors(o: Options, st: State)
    requires Sound(o, st)
    ensures PlainAnchors(st.anchors)
  {
  }

  lemma {:induction false} FinishCollectionSize(o: Options, st: State, n: Node)
    ensures var r := FinishCollection(o, st, n);
            r.Ok? ==> NodeCount(r.value.node) == NodeCount(n) && st.expanded <= r.value.st.expanded
  {
    hide CompleteNode;
    var ends := StartsWithEnd(st.rest, MappingKind) || StartsWithEnd(st.rest, SequenceKind);
    var loc := if ends then n.loc.(end := st.rest[0].span.end) else n.loc;
    RelocatingKeepsSize(n, loc);
    CompleteNodeSize(o, st.(rest := if ends then st.rest[1..] else st.rest, depth := st.depth - 1), n.WithLoc(loc),
      loc);
  }

  lemma {:induction false} ParseEntriesSize(o: Options, st: State)
    requires Sound(o, st)
    ensures var r := ParseEntries(o, st);
            r.Ok? ==> EntriesCount(r.value.entries) <= Allowance(st, r.value.st)
    decreases |st.rest|, 1
  {
    hide NextEntryOf;
    hide FinishKey;
    hide FinishValue;
    hide Sound;
    hide NodeCount;
    NextEntryIsSound(o, st, MappingKind);
    var next := NextEntryOf(o, st, MappingKind);
    if next.Ok? && next.value.entry.More? {
      ParseNodeSize(o, next.value.st);
      ParseNodeIsSound(o, next.value.st);
      var k := ParseNode(o, next.value.st);
      if k.Ok? {
        FinishSize(o, k.value.st, k.value.node, next.value.entry.comments);
        FinishIsSound(o, k.value.st, k.value.node, next.value.entry.comments);
        var key := FinishKey(o, k.value.st, k.value.node, next.value.entry.comments);
        ParseNodeSize(o, key.st);
        ParseNodeIsSound(o, key.st);
        var v := ParseNode(o, key.st);
        if v.Ok? {
          FinishSize(o, v.value.st, v.value.node, None);
          FinishIsSound(o, v.value.st, v.value.node, None);
          var value := FinishValue(o, v.value.st, v.value.node);
          ParseEntriesSize(o, value.st);
          var more := ParseEntries(o, value.st);
          if more.Ok? {
            assert ([Ast.Entry(key.node, value.node)] + more.value.entries)[1..] == more.value.entries;
          }
        }
      }
    }
  }

  lemma {:induction false} ParseItemsSize(o: Options, st: State)
    requires Sound(o, st)
    ensures var r := ParseItems(o, st);
            r.Ok? ==> ItemsCount(r.value.items) <= Allowance(st, r.value.st)
    decreases |st.rest|, 1
  {
    hide NextEntryOf;
    hide FinishItem;
    hide Sound;
    hide NodeCount;
    NextEntryIsSound(o, st, SequenceKind);
    var next := NextEntryOf(o, st, SequenceKind);
    if next.Ok? && next.value.entry.More? {
      ParseNodeSize(o, next.value.st);
      ParseNodeIsSound(o, next.value.st);
      var i := ParseNode(o, next.value.st);
      if i.Ok? {
        FinishSize(o, i.value.st, i.value.node, next.value.entry.comments);
        FinishIsSound(o, i.value.st, i.value.node, next.value.entry.comments);
        var item := FinishItem(o, i.value.st, i.value.node, next.value.entry.comments);
        ParseItemsSize(o, item.st);
        var more := ParseItems(o, item.st);
        if more.Ok? {
          assert ([item.node] + more.value.items)[1..] == more.value.items;
        }
      }
    }
  }

  /** The size of a document's tree, in either mode. */
  lemma {:induction false} LoadDocumentSize(o: Options, st: State, start: Event, outside: seq<string>)
    requires start.DocumentStart?
    ensures var r := LoadDocument(o, st, start, outside);
            r.Ok? ==> NodeCount(r.value.document.root) <= 1 + 2 * |st.rest| + o.maxExpandedNodes
  {
    hide ParseNode;
    hide ApplySchema;
    hide FinishValue;
    hide NodeCount;
    ResetIsSound(o, st);
    var st1 := Reset(st).(rest := st.rest[CommentRun(st.rest)..]);
    ParseNodeSize(o, st1);
    ParseRootIsSound(o, st1);
    SchemaKeepsTheRest(o, EMPTY_SCALAR);
    EmptyScalarSize();
    var parsed := ParseRoot(o, st1);
    if parsed.Ok? {
      FinishSize(o, parsed.value.st, parsed.value.node, None);
    }
  }

  lemma EmptyScalarSize()
    ensures NodeCount(EMPTY_SCALAR) == 1
  {
  }

  predicate Within(documents: seq<Document>, bound: nat) {
    forall d :: d in documents ==> NodeCount(d.root) <= bound
  }

  lemma {:induction false} LoadDocumentsSize(o: Options, st: State, outside: seq<string>, bound: nat)
    requires 1 + 2 * |st.rest| + o.maxExpandedNodes <= bound
    ensures var r := LoadDocuments(o, st, outside);
            r.Ok? ==> Within(r.value.documents, bound)
    decreases |st.rest|
  {
    hide LoadDocument;
    hide NodeCount;
    if st.rest != [] && st.rest[0].Good? {
      var event := st.rest[0].event;
      var st1 := st.(rest := st.rest[1..]);
      if event.DocumentStart? {
        LoadDocumentSize(o, st1, event, outside);
        var d := LoadDocument(o, st1, event, outside);
        if d.Ok? {
          LoadDocumentsSize(o, d.value.st, [], bound);
        }
      } else if event.Comment? {
        LoadDocumentsSize(o, st1, outside + [WithHash(event.text)], bound);
      } else if !event.StreamEnd? && !IsNodeEvent(event) {
        LoadDocumentsSize(o, st1, outside, bound);
      }
    }
  }

  lemma {:induction false} RunSize(o: Options, stream: seq<Item>)
    ensures var r := Run(o, stream);
            r.Ok? ==> Within(r.value.documents, 1 + 2 * |stream| + o.maxExpandedNodes)
  {
    hide NodeCount;
    hide LoadDocuments;
    LoadDocumentsSize(
      o, InitialState(if stream == [] then [] else stream[1..]), [], 1 + 2 * |stream| + o.maxExpandedNodes);
  }
}
