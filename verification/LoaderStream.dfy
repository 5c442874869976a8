/** How far a load reads: it leaves a rest of the stream, and stops only at its end. */
module LoaderStream {
  import opened Wrappers
  import opened Events
  import opened Schema
  import opened Ast
  import opened LoaderSpec
  import opened LoaderComments
  import opened LoaderResolved
  import LoaderOrder
  import LoaderTokens

  predicate IsSuffix(rest: seq<Item>, all: seq<Item>) {
    |rest| <= |all| && rest == all[|all| - |rest|..]
  }

  lemma SuffixOfSuffix(a: seq<Item>, b: seq<Item>, c: seq<Item>)
    requires IsSuffix(a, b) && IsSuffix(b, c)
    ensures IsSuffix(a, c)
  {
    assert c[|c| - |b|..][|b| - |a|..] == c[|c| - |a|..];
  }

  lemma DropIsSuffix(k: nat, all: seq<Item>)
    requires k <= |all|
    ensures IsSuffix(all[k..], all)
  {
  }

  // ----- Nodes -----

  lemma CompleteNodeTouches(o: Options, st: State, n: Node, span: Span)
    ensures var r := CompleteNode(o, st, n, span);
            r.Ok? ==>
              && ApplySchema(o, n) == Ok(r.value.node)
              && r.value.st.rest == st.rest && r.value.st.pending == st.pending && r.value.st.depth == st.depth
  {
    hide ApplySchema;
  }

  lemma {:induction false} BeginNodeSuffix(o: Options, st: State)
    ensures var r := BeginNode(o, st); r.Ok? ==> IsSuffix(r.value.st.rest, st.rest)
    decreases |st.rest|
  {
    hide BeginEvent;
    if StartsWithComment(st.rest) {
      hide BeginNode;
      hide IsSuffix;
      var k := CommentRun(st.rest[1..]);
      DropIsSuffix(1, st.rest);
      DropIsSuffix(k, st.rest[1..]);
      SuffixOfSuffix(st.rest[1..][k..], st.rest[1..], st.rest);
      BeginNodeSkips(o, st);
      BeginNodeSuffix(o, AfterComments(st));
      var r := BeginNode(o, st);
      if r.Ok? {
        SuffixOfSuffix(r.value.st.rest, st.rest[1..][k..], st.rest);
      }
    }
  }

  lemma NextEntrySuffix(o: Options, st: State, kind: CollectionKind)
    ensures var r := NextEntryOf(o, st, kind); r.Ok? ==> IsSuffix(r.value.st.rest, st.rest)
  {
    DropIsSuffix(CommentRun(st.rest), st.rest);
  }

  lemma AttachOnLineSuffix(o: Options, rest: seq<Item>, n: Node, line: Option<nat>)
    ensures IsSuffix(AttachOnLine(o, rest, n, line).rest, rest)
  {
    hide AttachTrailing;
    if rest != [] {
      DropIsSuffix(1, rest);
    }
  }

  lemma AttachEntryReadsNothing(o: Options, st: State, n: Node, comments: Option<EntryComments>)
    ensures AttachEntryComments(o, st, n, comments).st.rest == st.rest
  {
    hide SplitComments;
    hide AttachLeading;
  }

  lemma FinishSuffix(o: Options, st: State, n: Node, comments: Option<EntryComments>)
    ensures IsSuffix(FinishKey(o, st, n, comments).st.rest, st.rest)
    ensures IsSuffix(FinishItem(o, st, n, comments).st.rest, st.rest)
    ensures IsSuffix(FinishValue(o, st, n).st.rest, st.rest)
  {
    hide IsSuffix;
    hide AttachOnLine;
    hide AttachEntryComments;
    hide CommentLine;
    hide KeyCommentLine;
    AttachEntryReadsNothing(o, st, n, comments);
    var p := AttachEntryComments(o, st, n, comments);
    AttachOnLineSuffix(o, st.rest, p.node, KeyCommentLine(o, p.node));
    AttachOnLineSuffix(o, st.rest, p.node, CommentLine(o, p.node));
    AttachOnLineSuffix(o, st.rest, n, CommentLine(o, n));
  }

  lemma FinishCollectionSuffix(o: Options, st: State, n: Node)
    ensures var r := FinishCollection(o, st, n);
            r.Ok? ==>
              && r.value.st.pending == st.pending
              && r.value.st.rest == (if StartsWithEnd(st.rest, MappingKind) || StartsWithEnd(st.rest, SequenceKind)
                                     then st.rest[1..] else st.rest)
              && IsSuffix(r.value.st.rest, st.rest)
  {
    hide CompleteNode;
    var ends := StartsWithEnd(st.rest, MappingKind) || StartsWithEnd(st.rest, SequenceKind);
    var loc := if ends then n.loc.(end := st.rest[0].span.end) else n.loc;
    CompleteNodeTouches(
      o, st.(rest := if ends then st.rest[1..] else st.rest, depth := st.depth - 1), n.WithLoc(loc), loc);
    DropIsSuffix(0, st.rest);
    assert st.rest[0..] == st.rest;
    if ends {
      DropIsSuffix(1, st.rest);
    }
  }

  /** What is left behind a node is a rest of what was there before it. */
  lemma {:induction false} ParseNodeSuffix(o: Options, st: State)
    ensures var r := ParseNode(o, st); r.Ok? ==> IsSuffix(r.value.st.rest, st.rest)
    decreases |st.rest|, 0
  {
    hide IsSuffix;
    hide BeginNode;
    hide FinishCollection;
    BeginNodeSuffix(o, st);
    var b := BeginNode(o, st);
    if b.Ok? && b.value.follow {
      match b.value.node
      case Mapping(_, style, tag, loc, meta) =>
        ParseEntriesSuffix(o, b.value.st);
        var p := ParseEntries(o, b.value.st);
        if p.Ok? {
          var n := Mapping(p.value.entries, style, tag, loc, meta);
          FinishCollectionSuffix(o, p.value.st, n);
          Through(FinishCollection(o, p.value.st, n), p.value.st, b.value.st, st);
        }
      case Sequence(_, style, tag, loc, meta) =>
        ParseItemsSuffix(o, b.value.st);
        var p := ParseItems(o, b.value.st);
        if p.Ok? {
          var n := Sequence(p.value.items, style, tag, loc, meta);
          FinishCollectionSuffix(o, p.value.st, n);
          Through(FinishCollection(o, p.value.st, n), p.value.st, b.value.st, st);
        }
    }
  }

  lemma Through(r: LoadResult<Parsed>, a: State, b: State, c: State)
    requires r.Ok? ==> IsSuffix(r.value.st.rest, a.rest)
    requires IsSuffix(a.rest, b.rest) && IsSuffix(b.rest, c.rest)
    ensures r.Ok? ==> IsSuffix(r.value.st.rest, c.rest)
  {
    hide IsSuffix;
    if r.Ok? {
      SuffixOfSuffix(a.rest, b.rest, c.rest);
      SuffixOfSuffix(r.value.st.rest, a.rest, c.rest);
    }
  }

  lemma {:induction false} AfterKeySuffix(o: Options, key: Parsed)
    ensures var r := ParseAfterKey(o, key); r.Ok? ==> IsSuffix(r.value.st.rest, key.st.rest)
    decreases |key.st.rest|, 2
  {
    hide IsSuffix;
    hide ParseNode;
    hide ParseEntries;
    hide FinishValue;
    ParseNodeSuffix(o, key.st);
    var v := ParseNode(o, key.st);
    if v.Ok? {
      FinishSuffix(o, v.value.st, v.value.node, None);
      var value := FinishValue(o, v.value.st, v.value.node);
      SuffixOfSuffix(value.st.rest, v.value.st.rest, key.st.rest);
      ParseEntriesSuffix(o, value.st);
      var more := ParseEntries(o, value.st);
      if more.Ok? {
        SuffixOfSuffix(more.value.st.rest, value.st.rest, key.st.rest);
      }
    }
  }

  lemma {:induction false} ParseEntriesSuffix(o: Options, st: State)
    ensures var r := ParseEntries(o, st); r.Ok? ==> IsSuffix(r.value.st.rest, st.rest)
    decreases |st.rest|, 1
  {
    hide *;
    ParseEntriesSteps(o, st);
    NextEntrySuffix(o, st, MappingKind);
    var next := NextEntryOf(o, st, MappingKind);
    if next.Ok? && next.value.entry.More? {
      ParseNodeSuffix(o, next.value.st);
      var k := ParseNode(o, next.value.st);
      if k.Ok? {
        FinishSuffix(o, k.value.st, k.value.node, next.value.entry.comments);
        var key := FinishKey(o, k.value.st, k.value.node, next.value.entry.comments);
        Through(Ok(key), k.value.st, next.value.st, st);
        AfterKeySuffix(o, key);
        var r := ParseAfterKey(o, key);
        if r.Ok? {
          SuffixOfSuffix(r.value.st.rest, key.st.rest, st.rest);
        }
      }
    }
  }

  lemma {:induction false} ParseItemsSuffix(o: Options, st: State)
    ensures var r := ParseItems(o, st); r.Ok? ==> IsSuffix(r.value.st.rest, st.rest)
    decreases |st.rest|, 1
  {
    ItemsStep(o, st);
    hide ParseItems;
    hide ParseNode;
    hide IsSuffix;
    hide NextEntryOf;
    hide FinishItem;
    NextEntrySuffix(o, st, SequenceKind);
    var next := NextEntryOf(o, st, SequenceKind);
    if next.Ok? && next.value.entry.More? {
      ParseNodeSuffix(o, next.value.st);
      var i := ParseNode(o, next.value.st);
      if i.Ok? {
        FinishSuffix(o, i.value.st, i.value.node, next.value.entry.comments);
        var item := FinishItem(o, i.value.st, i.value.node, next.value.entry.comments);
        Through(Ok(item), i.value.st, next.value.st, st);
        ParseItemsSuffix(o, item.st);
        var more := ParseItems(o, item.st);
        if more.Ok? {
          SuffixOfSuffix(more.value.st.rest, item.st.rest, st.rest);
        }
      }
    }
  }

  // ----- Documents -----

  lemma EndDocumentSuffix(
    o: Options, parsed: Parsed, start: Event, outside: seq<string>, comments: seq<string>)
    requires start.DocumentStart?
    ensures var r := EndDocument(o, parsed, start, outside, comments);
            r.Ok? ==> IsSuffix(r.value.st.rest, parsed.st.rest)
  {
    hide IsSuffix;
    hide FinishValue;
    hide CommentRun;
    FinishSuffix(o, parsed.st, parsed.node, None);
    var root := FinishValue(o, parsed.st, parsed.node);
    var run := CommentRun(root.st.rest);
    var rest := root.st.rest[run..];
    DropIsSuffix(run, root.st.rest);
    SuffixOfSuffix(rest, root.st.rest, parsed.st.rest);
    if rest != [] {
      DropIsSuffix(1, rest);
      SuffixOfSuffix(rest[1..], rest, parsed.st.rest);
    }
  }

  lemma {:induction false} LoadDocumentSuffix(o: Options, st: State, start: Event, outside: seq<string>)
    requires start.DocumentStart?
    ensures var r := LoadDocument(o, st, start, outside); r.Ok? ==> IsSuffix(r.value.st.rest, st.rest)
  {
    hide IsSuffix;
    hide ParseNode;
    hide ApplySchema;
    hide EndDocument;
    hide CommentRun;
    var run := CommentRun(st.rest);
    var st1 := Reset(st).(rest := st.rest[run..]);
    DropIsSuffix(run, st.rest);
    DropIsSuffix(0, st1.rest);
    assert st1.rest[0..] == st1.rest;
    ParseNodeSuffix(o, st1);
    var parsed := ParseRoot(o, st1);
    if parsed.Ok? {
      var comments := Texts(RawComments(st.rest[..run]));
      EndDocumentSuffix(o, parsed.value, start, outside, comments);
      var d := EndDocument(o, parsed.value, start, outside, comments);
      if d.Ok? {
        SuffixOfSuffix(parsed.value.st.rest, st1.rest, st.rest);
        SuffixOfSuffix(d.value.st.rest, parsed.value.st.rest, st.rest);
      }
    }
  }

  /** The rest is empty, or it stands right behind a stream end. */
  predicate StopsAtTheEnd(rest: seq<Item>, all: seq<Item>) {
    && IsSuffix(rest, all)
    && (rest == [] || (|rest| < |all| && IsStreamEnd(all[|all| - |rest| - 1])))
  }

  predicate IsStreamEnd(item: Item) {
    item.Good? && item.event.StreamEnd?
  }

  lemma StopsFurther(rest: seq<Item>, part: seq<Item>, all: seq<Item>)
    requires StopsAtTheEnd(rest, part) && IsSuffix(part, all)
    ensures StopsAtTheEnd(rest, all)
  {
    SuffixOfSuffix(rest, part, all);
    if rest != [] {
      assert part[|part| - |rest| - 1] == all[|all| - |rest| - 1];
    }
  }

  lemma {:induction false} LoadDocumentsStops(o: Options, st: State, outside: seq<string>)
    ensures var r := LoadDocuments(o, st, outside); r.Ok? ==> StopsAtTheEnd(r.value.st.rest, st.rest)
    decreases |st.rest|
  {
    hide LoadDocument;
    if st.rest != [] && st.rest[0].Good? {
      var event := st.rest[0].event;
      var st1 := st.(rest := st.rest[1..]);
      DropIsSuffix(1, st.rest);
      var r := LoadDocuments(o, st, outside);
      hide StopsAtTheEnd;
      if event.StreamEnd? {
        StopsHere(st.rest);
      } else if event.DocumentStart? {
        LoadDocumentSuffix(o, st1, event, outside);
        var d := LoadDocument(o, st1, event, outside);
        if r.Ok? {
          LoadDocumentsStops(o, d.value.st, []);
          SuffixOfSuffix(d.value.st.rest, st1.rest, st.rest);
          StopsFurther(r.value.st.rest, d.value.st.rest, st.rest);
        }
      } else if r.Ok? {
        var outside1 := if event.Comment? then outside + [WithHash(event.text)] else outside;
        LoadDocumentsStops(o, st1, outside1);
        StopsFurther(r.value.st.rest, st1.rest, st.rest);
      }
    }
  }

  lemma StopsHere(stream: seq<Item>)
    requires stream != [] && IsStreamEnd(stream[0])
    ensures StopsAtTheEnd(stream[1..], stream)
  {
  }

  /** A load that succeeds has read everything up to a stream end, or everything. */
  lemma {:induction false} RunStopsAtTheEnd(o: Options, stream: seq<Item>)
    requires stream != []
    ensures var r := Run(o, stream); r.Ok? ==> StopsAtTheEnd(r.value.st.rest, stream[1..])
  {
    hide LoadDocuments;
    LoadDocumentsStops(o, InitialState(stream[1..]), []);
  }

  /** A stream as the parser gives it: a start in front, and an end only at the end. */
  predicate IsFramed(stream: seq<Item>) {
    && stream != [] && stream[0].Good? && stream[0].event.StreamStart?
    && forall i :: 0 <= i < |stream| - 1 ==> !IsStreamEnd(stream[i])
  }

  lemma NothingBehindTheEnd(rest: seq<Item>, stream: seq<Item>)
    requires IsFramed(stream) && StopsAtTheEnd(rest, stream[1..])
    ensures rest == []
  {
    var all := stream[1..];
    assert |rest| < |all| ==> all[|all| - |rest| - 1] == stream[|stream| - |rest| - 1];
  }

  /** Of such a stream nothing is left. */
  lemma RunReadsEverything(o: Options, stream: seq<Item>)
    requires IsFramed(stream)
    ensures var r := Run(o, stream); r.Ok? ==> r.value.st.rest == []
  {
    hide Run;
    RunStopsAtTheEnd(o, stream);
    var r := Run(o, stream);
    if r.Ok? {
      NothingBehindTheEnd(r.value.st.rest, stream);
    }
  }

  predicate HasDocument(stream: seq<Item>) {
    exists i :: 0 <= i < |stream| && IsDocumentStart(stream[i])
  }

  predicate IsDocumentStart(item: Item) {
    item.Good? && item.event.DocumentStart?
  }

  lemma HasDocumentBehind(stream: seq<Item>, k: nat)
    requires k <= |stream|
    ensures HasDocument(stream[k..]) ==> HasDocument(stream)
    ensures k == 1 ==> (HasDocument(stream) <==> IsDocumentStart(stream[0]) || HasDocument(stream[1..]))
  {
    if HasDocument(stream[k..]) {
      var i :| 0 <= i < |stream[k..]| && IsDocumentStart(stream[k..][i]);
      assert IsDocumentStart(stream[k + i]);
    }
    if k == 1 && HasDocument(stream) && !IsDocumentStart(stream[0]) {
      var i :| 0 <= i < |stream| && IsDocumentStart(stream[i]);
      assert IsDocumentStart(stream[1..][i - 1]);
    }
  }

  /** Nothing but a start event makes a document, and no start event is passed over. */
  lemma {:induction false} LoadDocumentsNeedsAStart(o: Options, st: State, outside: seq<string>)
    requires forall i :: 0 <= i < |st.rest| - 1 ==> !IsStreamEnd(st.rest[i])
    ensures var r := LoadDocuments(o, st, outside);
            r.Ok? ==> (r.value.documents == [] <==> !HasDocument(st.rest))
    decreases |st.rest|
  {
    hide LoadDocument;
    if st.rest != [] && st.rest[0].Good? {
      var event := st.rest[0].event;
      var st1 := st.(rest := st.rest[1..]);
      HasDocumentBehind(st.rest, 1);
      if !event.StreamEnd? && !event.DocumentStart? && !IsNodeEvent(event) {
        assert forall i :: 0 <= i < |st1.rest| ==> st1.rest[i] == st.rest[i + 1];
        LoadDocumentsNeedsAStart(o, st1, if event.Comment? then outside + [WithHash(event.text)] else outside);
      }
    }
  }

  lemma {:induction false} RunNeedsAStart(o: Options, stream: seq<Item>)
    requires IsFramed(stream)
    ensures var r := Run(o, stream); r.Ok? ==> (r.value.documents == [] <==> !HasDocument(stream))
  {
    hide LoadDocuments;
    hide IsStreamEnd;
    assert forall i :: 0 <= i < |stream[1..]| - 1 ==> stream[1..][i] == stream[i + 1];
    LoadDocumentsNeedsAStart(o, InitialState(stream[1..]), []);
    HasDocumentBehind(stream, 1);
  }

  // ----- What a load of a whole stream keeps -----

  /**
   Conservation for the streams that the parser gives, and exactly when: the
   documents hold the comments of the stream, each as often, if and only if
   the stream has a document or no comment.
   */
  lemma {:induction false} FramedRunKeepsEveryComment(o: Options, stream: seq<Item>)
    requires IsFramed(stream)
    ensures var r := Run(o, stream);
            r.Ok? ==>
              (multiset(CommentTexts(stream)) == HeldBy(r.value.documents) <==>
               HasDocument(stream) || CommentTexts(stream) == [])
  {
    hide Run;
    hide HeldBy;
    hide HasDocument;
    RunReadsEverything(o, stream);
    RunNeedsAStart(o, stream);
    RunKeepsEveryComment(o, stream);
  }

  /** All comments of such a stream come in order. */
  lemma {:induction false} FramedCommentsKeepTheirOrder(o: Options, stream: seq<Item>)
    requires IsFramed(stream) && HasDocument(stream)
    ensures var r := Run(o, stream);
            r.Ok? ==>
              LoaderOrder.Interleaves(
                LoaderOrder.PlacedComments(o, stream),
                LoaderOrder.LeadAll(r.value.documents), LoaderOrder.TrailAll(o, r.value.documents))
  {
    hide Run;
    hide HasDocument;
    hide LoaderOrder.Interleaves;
    hide LoaderOrder.LeadAll;
    hide LoaderOrder.TrailAll;
    RunReadsEverything(o, stream);
    RunNeedsAStart(o, stream);
    LoaderOrder.CommentsKeepTheirOrder(o, stream);
    var r := Run(o, stream);
    if r.Ok? {
      var used :|
        && LoaderOrder.PlacedComments(o, stream[1..]) == used + LoaderOrder.PlacedComments(o, r.value.st.rest)
        && LoaderOrder.Interleaves(used, LoaderOrder.LeadAll(r.value.documents),
           LoaderOrder.TrailAll(o, r.value.documents));
      assert used + [] == used;
    }
  }

  /** The tokens of such a stream, all of them, spell its documents. */
  lemma {:induction false} FramedRunTokens(o: Options, stream: seq<Item>)
    requires o.mode.Lossless? && IsFramed(stream)
    ensures var r := Run(o, stream);
            r.Ok? ==> LoaderTokens.Spells(o, LoaderTokens.StreamTokens(o, stream), r.value.documents)
  {
    hide Run;
    hide LoaderTokens.Spells;
    RunReadsEverything(o, stream);
    LoaderTokens.RunTokens(o, stream);
    var r := Run(o, stream);
    if r.Ok? {
      var tokens :|
        && LoaderTokens.Reads(o, stream[1..], tokens, r.value.st.rest)
        && LoaderTokens.Spells(o, tokens, r.value.documents);
      StartHasNoToken(o, stream);
      assert tokens + [] == tokens;
    }
  }

  lemma StartHasNoToken(o: Options, stream: seq<Item>)
    requires stream != [] && stream[0].Good? && stream[0].event.StreamStart?
    ensures LoaderTokens.StreamTokens(o, stream) == LoaderTokens.StreamTokens(o, stream[1..])
  {
  }
}
