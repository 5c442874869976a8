/**
 Comments never change what is loaded: a stream and the same stream without its
 comments load to the same trees, or fail with the same error, in both modes.
 */
module LoaderTransparent {
  import opened Wrappers
  import opened Events
  import opened Schema
  import opened Ast
  import opened AstLemmas
  import opened LoaderSpec
  import opened LoaderAnchors
  import LoaderRoundTrip

  function WithoutComments(stream: seq<Item>): seq<Item> {
    if stream == [] then []
    else if StartsWithComment(stream) then WithoutComments(stream[1..])
    else [stream[0]] + WithoutComments(stream[1..])
  }

  lemma {:induction false} CommentsAreSkipped(stream: seq<Item>)
    ensures WithoutComments(stream[CommentRun(stream)..]) == WithoutComments(stream)
    ensures CommentRun(WithoutComments(stream)) == 0
  {
    var k := CommentRun(stream);
    if StartsWithComment(stream) {
      CommentsAreSkipped(stream[1..]);
      assert stream[1..][k - 1..] == stream[k..];
    } else {
      assert stream[k..] == stream;
    }
  }

  /** The first event behind the comments is the first without them. */
  lemma NextWithoutComments(stream: seq<Item>)
    requires !StartsWithComment(stream)
    ensures stream == [] <==> WithoutComments(stream) == []
    ensures stream != [] ==>
              WithoutComments(stream)[0] == stream[0] && WithoutComments(stream)[1..] == WithoutComments(stream[1..])
  {
  }

  /** `r` is where `l` is, had there been no comments. */
  ghost predicate SameButComments(l: State, r: State) {
    && r.rest == WithoutComments(l.rest)
    && r.pending == []
    && r.anchors == l.anchors && r.anchorCount == l.anchorCount && r.depth == l.depth && r.expanded == l.expanded
  }

  /** The same outcome, comments aside. */
  ghost predicate SameNode(l: LoadResult<Parsed>, r: LoadResult<Parsed>) {
    if l.Err? then r == Err(l.error)
    else r.Ok? && r.value.node == CloneWithoutComments(l.value.node) && SameButComments(l.value.st, r.value.st)
  }

  ghost predicate SameEntries(l: LoadResult<ParsedEntries>, r: LoadResult<ParsedEntries>) {
    if l.Err? then r == Err(l.error)
    else r.Ok? && r.value.entries == CloneEntries(l.value.entries) && SameButComments(l.value.st, r.value.st)
  }

  ghost predicate SameItems(l: LoadResult<ParsedItems>, r: LoadResult<ParsedItems>) {
    if l.Err? then r == Err(l.error)
    else r.Ok? && r.value.items == CloneItems(l.value.items) && SameButComments(l.value.st, r.value.st)
  }

  // ----- Completing a node -----

  /** The schema does not look at comments. */
  lemma SchemaIgnoresComments(o: Options, n: Node)
    ensures var l, r := ApplySchema(o, n), ApplySchema(o, CloneWithoutComments(n));
            if l.Err? then r == Err(l.error) else r == Ok(CloneWithoutComments(l.value))
  {
    hide ResolveScalar;
    hide ResolvedTag.Uri;
    hide CloneEntries;
    hide CloneItems;
    MetaWithoutBoth(if n.Alias? then None else n.meta);
  }

  lemma MetaWithoutBoth(meta: Option<Meta>)
    ensures ClearTagLoc(MetaWithoutComments(meta)) == MetaWithoutComments(ClearTagLoc(meta))
  {
  }

  ghost predicate SameStates(l: LoadResult<State>, r: LoadResult<State>) {
    if l.Err? then r == Err(l.error) else r.Ok? && SameButComments(l.value, r.value)
  }

  lemma RegisterIgnoresComments(o: Options, l: State, r: State, name: string, n: Node, span: Span)
    requires SameButComments(l, r)
    ensures SameStates(RegisterAnchor(o, l, name, n, span), RegisterAnchor(o, r, name, CloneWithoutComments(n), span))
  {
    CloneKeepsTheTree(n);
    hide CloneWithoutComments;
  }

  lemma CompleteIgnoresComments(o: Options, l: State, r: State, n: Node, span: Span)
    requires SameButComments(l, r)
    ensures SameNode(CompleteNode(o, l, n, span), CompleteNode(o, r, CloneWithoutComments(n), span))
  {
    hide ApplySchema;
    hide CloneWithoutComments;
    hide RegisterAnchor;
    hide SameButComments;
    SchemaIgnoresComments(o, n);
    var a := ApplySchema(o, n);
    if a.Ok? {
      CloneKeepsAnchor(a.value);
      if a.value.Anchor().Some? {
        var anchorSpan := if a.value.AnchorLoc().Some? then a.value.AnchorLoc().value else span;
        RegisterIgnoresComments(o, l, r, a.value.Anchor().value, a.value, anchorSpan);
      }
    }
  }

  // ----- Beginning a node -----

  /** A node just begun has no comments. */
  ghost predicate SameBegin(l: LoadResult<Begun>, r: LoadResult<Begun>) {
    if l.Err? then r == Err(l.error)
    else
      && r.Ok? && r.value.follow == l.value.follow
      && r.value.node == CloneWithoutComments(l.value.node)
      && (l.value.follow ==> r.value.node == l.value.node)
      && SameButComments(l.value.st, r.value.st)
  }

  lemma NewNodeIsItsClone(props: Properties, n: Node)
    requires !n.Alias? && n.meta == PropertiesMeta(props)
    requires (n.Mapping? ==> n.entries == []) && (n.Sequence? ==> n.items == [])
    ensures CloneWithoutComments(n) == n
  {
  }

  lemma AliasIgnoresComments(o: Options, l: State, r: State, name: string, loc: Span)
    requires SameButComments(l, r) && PlainAnchors(l.anchors)
    ensures SameNode(ResolveAlias(o, l, name, loc), ResolveAlias(o, r, name, loc))
  {
    hide CloneWithoutComments;
    hide Expand;
    AliasIsItsClone(name, loc);
    if o.mode.Resolved? && name in l.anchors {
      ExpandAliasFree(o, l.anchors, l.expanded, l.anchors[name], {}, loc);
      PlainNodeRelocates(l.anchors[name], loc);
    }
  }

  lemma AliasIsItsClone(name: string, loc: Span)
    ensures CloneWithoutComments(Node.Alias(name, loc, None, None)) == Node.Alias(name, loc, None, None)
  {
  }

  lemma BeginEventIgnoresComments(o: Options, l: State, r: State, event: Event, span: Span)
    requires SameButComments(l, r) && PlainAnchors(l.anchors)
    ensures SameBegin(BeginEvent(o, l, event, span), BeginEvent(o, r, event, span))
  {
    hide CompleteNode;
    hide ResolveAlias;
    hide PropertiesMeta;
    hide CloneWithoutComments;
    match event
    case Scalar(value, style, props) =>
      var n := Node.Scalar(value, style, props.tag, span, PropertiesMeta(props));
      NewNodeIsItsClone(props, n);
      CompleteIgnoresComments(o, l, r, n, span);
    case MappingStart(style, props) =>
      NewNodeIsItsClone(props, Mapping([], style, props.tag, span, PropertiesMeta(props)));
    case SequenceStart(style, props) =>
      NewNodeIsItsClone(props, Sequence([], style, props.tag, span, PropertiesMeta(props)));
    case Alias(name) =>
      AliasIgnoresComments(o, l, r, name, span);
    case _ =>
      EmptyIsItsClone();
  }

  lemma EmptyIsItsClone()
    ensures CloneWithoutComments(EMPTY_SCALAR) == EMPTY_SCALAR
  {
  }

  lemma {:induction false} BeginNodeIgnoresComments(o: Options, l: State, r: State)
    requires SameButComments(l, r) && PlainAnchors(l.anchors)
    ensures SameBegin(BeginNode(o, l), BeginNode(o, r))
    decreases |l.rest|
  {
    hide BeginEvent;
    hide SameBegin;
    hide CloneWithoutComments;
    if StartsWithComment(l.rest) {
      var st1 := l.(rest := l.rest[1..]);
      var k := CommentRun(st1.rest);
      var l' := st1.(
        rest := st1.rest[k..],
        pending := st1.pending + [WithHash(l.rest[0].event.text)] + Texts(RawComments(st1.rest[..k])));
      CommentsAreSkipped(st1.rest);
      assert BeginNode(o, l) == BeginNode(o, l');
      BeginNodeIgnoresComments(o, l', r);
    } else {
      NextWithoutComments(l.rest);
      NothingBegins(l, r);
      if l.rest != [] && l.rest[0].Good? {
        BeginEventIgnoresComments(o, l.(rest := l.rest[1..]), r.(rest := r.rest[1..]), l.rest[0].event, l.rest[0].span);
      }
      BeginsOrNot(o, l, r);
    }
  }

  lemma NothingBegins(l: State, r: State)
    requires SameButComments(l, r)
    ensures SameBegin(Ok(Begun(EMPTY_SCALAR, false, l)), Ok(Begun(EMPTY_SCALAR, false, r)))
    ensures forall e :: SameBegin(Err(e), Err(e))
  {
    EmptyIsItsClone();
  }

  lemma BeginsOrNot(o: Options, l: State, r: State)
    requires SameButComments(l, r) && !StartsWithComment(l.rest)
    requires l.rest != [] && l.rest[0].Good? ==>
               r.rest != [] && SameBegin(
                 BeginEvent(o, l.(rest := l.rest[1..]), l.rest[0].event, l.rest[0].span),
                 BeginEvent(o, r.(rest := r.rest[1..]), l.rest[0].event, l.rest[0].span))
    ensures SameBegin(BeginNode(o, l), BeginNode(o, r))
  {
    hide BeginEvent;
    NextWithoutComments(l.rest);
    NothingBegins(l, r);
    hide SameBegin;
  }

  // ----- Keys, values and items -----

  /** Comments around a node change nothing else. */
  lemma FinishIgnoresComments(o: Options, st: State, n: Node, comments: Option<EntryComments>)
    ensures ChangesComments(st, n, FinishKey(o, st, n, comments))
    ensures ChangesComments(st, n, FinishItem(o, st, n, comments))
    ensures ChangesComments(st, n, FinishValue(o, st, n))
  {
    hide CloneWithoutComments;
    hide AttachOnLine;
    hide AttachEntryComments;
    AttachEntryIgnoresComments(o, st, n, comments);
    var p := AttachEntryComments(o, st, n, comments);
    AttachOnLineIgnoresComments(o, p.st.rest, p.node, KeyCommentLine(o, p.node));
    AttachOnLineIgnoresComments(o, p.st.rest, p.node, CommentLine(o, p.node));
    AttachOnLineIgnoresComments(o, st.rest, n, CommentLine(o, n));
  }

  ghost predicate ChangesComments(st: State, n: Node, p: Parsed) {
    && CloneWithoutComments(p.node) == CloneWithoutComments(n)
    && WithoutComments(p.st.rest) == WithoutComments(st.rest)
    && p.st == st.(rest := p.st.rest, pending := p.st.pending)
  }

  lemma AttachEntryIgnoresComments(o: Options, st: State, n: Node, comments: Option<EntryComments>)
    ensures var p := AttachEntryComments(o, st, n, comments);
            CloneWithoutComments(p.node) == CloneWithoutComments(n) && p.st == st.(pending := p.st.pending)
  {
    if comments.Some? {
      AttachKeepsTheRest(n, comments.value.inherited + SplitComments(o, n, comments.value.raw).before, "");
    }
  }

  lemma AttachOnLineIgnoresComments(o: Options, rest: seq<Item>, n: Node, line: Option<nat>)
    ensures var a := AttachOnLine(o, rest, n, line);
            CloneWithoutComments(a.node) == CloneWithoutComments(n) && WithoutComments(a.rest) == WithoutComments(rest)
  {
    if StartsWithComment(rest) {
      AttachKeepsTheRest(n, [], WithHash(rest[0].event.text));
    }
  }

  /** Where no comment stands, nothing is attached. */
  lemma NothingToFinish(o: Options, r: State, n: Node)
    requires CommentRun(r.rest) == 0
    ensures FinishKey(o, r, n, None) == FinishItem(o, r, n, None) == FinishValue(o, r, n) == Parsed(n, r)
  {
  }

  /** What follows a node, comments and all, against the node alone. */
  lemma FinishTwins(o: Options, l: State, r: State, n: Node, comments: Option<EntryComments>)
    requires SameButComments(l, r)
    ensures var p, q := FinishKey(o, l, n, comments), FinishKey(o, r, CloneWithoutComments(n), None);
            SameButComments(p.st, q.st) && q.node == CloneWithoutComments(p.node)
    ensures var p, q := FinishItem(o, l, n, comments), FinishItem(o, r, CloneWithoutComments(n), None);
            SameButComments(p.st, q.st) && q.node == CloneWithoutComments(p.node)
    ensures var p, q := FinishValue(o, l, n), FinishValue(o, r, CloneWithoutComments(n));
            SameButComments(p.st, q.st) && q.node == CloneWithoutComments(p.node)
  {
    hide FinishKey;
    hide FinishItem;
    hide FinishValue;
    hide CloneWithoutComments;
    hide WithoutComments;
    CommentsAreSkipped(l.rest);
    FinishIgnoresComments(o, l, n, comments);
    NothingToFinish(o, r, CloneWithoutComments(n));
  }

  ghost predicate SameNext(l: LoadResult<Next>, r: LoadResult<Next>) {
    if l.Err? then r == Err(l.error)
    else
      && r.Ok? && SameButComments(l.value.st, r.value.st)
      && (if l.value.entry.Closed? then r.value.entry.Closed? else r.value.entry == More(None))
  }

  lemma NextEntryIgnoresComments(o: Options, l: State, r: State, kind: CollectionKind)
    requires SameButComments(l, r)
    ensures SameNext(NextEntryOf(o, l, kind), NextEntryOf(o, r, kind))
  {
    hide CommentRun;
    hide RawComments;
    hide Texts;
    hide WithoutComments;
    CommentsAreSkipped(l.rest);
    var rest := l.rest[CommentRun(l.rest)..];
    NextWithoutComments(rest);
    assert r.rest[0..] == r.rest;
    NoTexts(r.rest);
  }

  lemma NoTexts(stream: seq<Item>)
    ensures RawComments(stream[..0]) == [] && Texts([]) == []
  {
  }

  lemma FinishCollectionIgnoresComments(o: Options, l: State, r: State, n: Node)
    requires SameButComments(l, r) && !StartsWithComment(l.rest) && (n.Mapping? || n.Sequence?)
    ensures SameNode(FinishCollection(o, l, n), FinishCollection(o, r, CloneWithoutComments(n)))
  {
    hide CompleteNode;
    NextWithoutComments(l.rest);
    hide WithoutComments;
    var ends := StartsWithEnd(l.rest, MappingKind) || StartsWithEnd(l.rest, SequenceKind);
    var loc := if ends then n.loc.(end := l.rest[0].span.end) else n.loc;
    assert CloneWithoutComments(n).WithLoc(loc) == CloneWithoutComments(n.WithLoc(loc)) by {
      RelocatingCommutes(n, loc);
    }
    CloneKeepsAnchor(n);
    hide CloneWithoutComments;
    CompleteIgnoresComments(
      o, l.(rest := if ends then l.rest[1..] else l.rest, depth := l.depth - 1),
      r.(rest := if ends then r.rest[1..] else r.rest, depth := r.depth - 1), n.WithLoc(loc), loc);
  }

  lemma RelocatingCommutes(n: Node, loc: Span)
    ensures CloneWithoutComments(n).WithLoc(loc) == CloneWithoutComments(n.WithLoc(loc))
  {
  }

  // ----- Nodes -----

  lemma {:induction false} ParseNodeIgnoresComments(o: Options, l: State, r: State)
    requires SameButComments(l, r) && Sound(o, l)
    ensures SameNode(ParseNode(o, l), ParseNode(o, r))
    decreases |l.rest|, 0
  {
    hide SameButComments;
    hide BeginNode;
    hide FinishCollection;
    hide CloneEntries;
    hide CloneItems;
    BeginNodeIgnoresComments(o, l, r);
    BeginNodeIsSound(o, l);
    hide Sound;
    var b, c := BeginNode(o, l), BeginNode(o, r);
    if b.Ok? && b.value.follow {
      match b.value.node
      case Mapping(_, style, tag, loc, meta) =>
        MappingIsItsClone(b.value.node);
        ParseEntriesIgnoresComments(o, b.value.st, c.value.st);
        var p := ParseEntries(o, b.value.st);
        if p.Ok? {
          EndIsNoComment(p.value.st);
          var p' := ParseEntries(o, c.value.st);
          FinishCollectionIgnoresComments(o, p.value.st, p'.value.st, Mapping(p.value.entries, style, tag, loc, meta));
        }
      case Sequence(_, style, tag, loc, meta) =>
        SequenceIsItsClone(b.value.node);
        ParseItemsIgnoresComments(o, b.value.st, c.value.st);
        var p := ParseItems(o, b.value.st);
        if p.Ok? {
          EndIsNoComment(p.value.st);
          var p' := ParseItems(o, c.value.st);
          FinishCollectionIgnoresComments(o, p.value.st, p'.value.st, Sequence(p.value.items, style, tag, loc, meta));
        }
    }
  }

  lemma MappingIsItsClone(n: Node)
    requires n.Mapping? && CloneWithoutComments(n) == n
    ensures MetaWithoutComments(n.meta) == n.meta
  {
  }

  lemma SequenceIsItsClone(n: Node)
    requires n.Sequence? && CloneWithoutComments(n) == n
    ensures MetaWithoutComments(n.meta) == n.meta
  {
  }

  lemma EndIsNoComment(st: State)
    requires StartsWithEnd(st.rest, MappingKind) || StartsWithEnd(st.rest, SequenceKind)
    ensures !StartsWithComment(st.rest)
  {
  }

  lemma {:induction false} ParseEntriesIgnoresComments(o: Options, l: State, r: State)
    requires SameButComments(l, r) && Sound(o, l)
    ensures SameEntries(ParseEntries(o, l), ParseEntries(o, r))
    decreases |l.rest|, 1
  {
    hide SameButComments;
    hide NextEntryOf;
    hide FinishKey;
    hide FinishValue;
    hide CloneWithoutComments;
    hide Sound;
    NextEntryIgnoresComments(o, l, r, MappingKind);
    NextEntryIsSound(o, l, MappingKind);
    var next, next' := NextEntryOf(o, l, MappingKind), NextEntryOf(o, r, MappingKind);
    if next.Ok? && next.value.entry.More? {
      ParseNodeIgnoresComments(o, next.value.st, next'.value.st);
      ParseNodeIsSound(o, next.value.st);
      var k, k' := ParseNode(o, next.value.st), ParseNode(o, next'.value.st);
      if k.Ok? {
        FinishTwins(o, k.value.st, k'.value.st, k.value.node, next.value.entry.comments);
        FinishIsSound(o, k.value.st, k.value.node, next.value.entry.comments);
        var key := FinishKey(o, k.value.st, k.value.node, next.value.entry.comments);
        var key' := FinishKey(o, k'.value.st, k'.value.node, None);
        ParseNodeIgnoresComments(o, key.st, key'.st);
        ParseNodeIsSound(o, key.st);
        var v, v' := ParseNode(o, key.st), ParseNode(o, key'.st);
        if v.Ok? {
          FinishTwins(o, v.value.st, v'.value.st, v.value.node, None);
          FinishIsSound(o, v.value.st, v.value.node, None);
          var value, value' := FinishValue(o, v.value.st, v.value.node), FinishValue(o, v'.value.st, v'.value.node);
          ParseEntriesIgnoresComments(o, value.st, value'.st);
          var more := ParseEntries(o, value.st);
          if more.Ok? {
            OneMoreEntry(Ast.Entry(key.node, value.node), more.value.entries);
          }
        }
      }
    }
  }

  lemma OneMoreEntry(e: Ast.Entry, more: seq<Ast.Entry>)
    ensures CloneEntries([e] + more) ==
            [Ast.Entry(CloneWithoutComments(e.key), CloneWithoutComments(e.value))] + CloneEntries(more)
  {
    hide CloneWithoutComments;
    assert ([e] + more)[1..] == more;
  }

  lemma {:induction false} ParseItemsIgnoresComments(o: Options, l: State, r: State)
    requires SameButComments(l, r) && Sound(o, l)
    ensures SameItems(ParseItems(o, l), ParseItems(o, r))
    decreases |l.rest|, 1
  {
    hide SameButComments;
    hide NextEntryOf;
    hide FinishItem;
    hide CloneWithoutComments;
    hide Sound;
    NextEntryIgnoresComments(o, l, r, SequenceKind);
    NextEntryIsSound(o, l, SequenceKind);
    var next, next' := NextEntryOf(o, l, SequenceKind), NextEntryOf(o, r, SequenceKind);
    if next.Ok? && next.value.entry.More? {
      ParseNodeIgnoresComments(o, next.value.st, next'.value.st);
      ParseNodeIsSound(o, next.value.st);
      var i, i' := ParseNode(o, next.value.st), ParseNode(o, next'.value.st);
      if i.Ok? {
        FinishTwins(o, i.value.st, i'.value.st, i.value.node, next.value.entry.comments);
        FinishIsSound(o, i.value.st, i.value.node, next.value.entry.comments);
        var item := FinishItem(o, i.value.st, i.value.node, next.value.entry.comments);
        var item' := FinishItem(o, i'.value.st, i'.value.node, None);
        ParseItemsIgnoresComments(o, item.st, item'.st);
        var more := ParseItems(o, item.st);
        if more.Ok? {
          OneMoreItem(item.node, more.value.items);
        }
      }
    }
  }

  lemma OneMoreItem(n: Node, more: seq<Node>)
    ensures CloneItems([n] + more) == [CloneWithoutComments(n)] + CloneItems(more)
  {
    hide CloneWithoutComments;
    assert ([n] + more)[1..] == more;
  }

  // ----- Documents -----

  /** The document without any comment. */
  function Bared(d: Document): Document {
    Document(CloneWithoutComments(d.root), d.version, d.tags, [], [], [], [], d.explicitStart, d.explicitEnd)
  }

  function BaredAll(documents: seq<Document>): seq<Document> {
    if documents == [] then [] else [Bared(documents[0])] + BaredAll(documents[1..])
  }

  lemma {:induction false} ParseRootIgnoresComments(o: Options, l: State, r: State)
    requires SameButComments(l, r) && Sound(o, l) && !StartsWithComment(l.rest)
    ensures SameNode(ParseRoot(o, l), ParseRoot(o, r))
  {
    hide ParseNode;
    hide ApplySchema;
    hide CloneWithoutComments;
    EmptyIsItsClone();
    SchemaIgnoresComments(o, EMPTY_SCALAR);
    ParseNodeIgnoresComments(o, l, r);
    NextWithoutComments(l.rest);
  }

  ghost predicate SameLoaded(l: LoadResult<LoadedDocument>, r: LoadResult<LoadedDocument>) {
    if l.Err? then r == Err(l.error)
    else r.Ok? && r.value.document == Bared(l.value.document) && SameButComments(l.value.st, r.value.st)
  }

  lemma EndDocumentIgnoresComments(
    o: Options, p: Parsed, q: Parsed, start: Event, outside: seq<string>, comments: seq<string>)
    requires start.DocumentStart? && SameButComments(p.st, q.st) && q.node == CloneWithoutComments(p.node)
    ensures SameLoaded(EndDocument(o, p, start, outside, comments), EndDocument(o, q, start, [], []))
  {
    hide FinishValue;
    hide CommentRun;
    hide CloneWithoutComments;
    hide RawComments;
    hide Texts;
    hide WithoutComments;
    FinishTwins(o, p.st, q.st, p.node, None);
    var root, root' := FinishValue(o, p.st, p.node), FinishValue(o, q.st, q.node);
    CommentsAreSkipped(root.st.rest);
    assert root'.st.rest[0..] == root'.st.rest;
    NoTexts(root'.st.rest);
    NextWithoutComments(root.st.rest[CommentRun(root.st.rest)..]);
  }

  lemma {:induction false} LoadDocumentIgnoresComments(
    o: Options, l: State, r: State, start: Event, outside: seq<string>)
    requires SameButComments(l, r) && start.DocumentStart?
    ensures SameLoaded(LoadDocument(o, l, start, outside), LoadDocument(o, r, start, []))
  {
    hide ParseRoot;
    hide EndDocument;
    hide CloneWithoutComments;
    hide CommentRun;
    hide WithoutComments;
    hide RawComments;
    hide Texts;
    ResetIsSound(o, l);
    CommentsAreSkipped(l.rest);
    var run := CommentRun(l.rest);
    var l', r' := Reset(l).(rest := l.rest[run..]), Reset(r).(rest := r.rest[CommentRun(r.rest)..]);
    assert r.rest[0..] == r.rest;
    NoTexts(r.rest);
    SoundAnywhere(o, Reset(l), l'.rest);
    assert SameButComments(l', r');
    ParseRootIgnoresComments(o, l', r');
    var p, q := ParseRoot(o, l'), ParseRoot(o, r');
    if p.Ok? {
      hide SameButComments;
      EndDocumentIgnoresComments(o, p.value, q.value, start, outside, Texts(RawComments(l.rest[..run])));
    }
  }

  ghost predicate SameLoads(l: LoadResult<Loaded>, r: LoadResult<Loaded>) {
    if l.Err? then r == Err(l.error)
    else
      && r.Ok? && r.value.documents == BaredAll(l.value.documents) && r.value.outside == []
      && r.value.st.rest == WithoutComments(l.value.st.rest)
  }

  lemma {:induction false} LoadDocumentsIgnoresComments(o: Options, l: State, r: State, outside: seq<string>)
    requires SameButComments(l, r)
    ensures SameLoads(LoadDocuments(o, l, outside), LoadDocuments(o, r, []))
    decreases |l.rest|
  {
    hide LoadDocument;
    hide Bared;
    if StartsWithComment(l.rest) {
      LoadDocumentsIgnoresComments(o, l.(rest := l.rest[1..]), r, outside + [WithHash(l.rest[0].event.text)]);
    } else {
      NextWithoutComments(l.rest);
      if l.rest != [] && l.rest[0].Good? {
        var event := l.rest[0].event;
        var l', r' := l.(rest := l.rest[1..]), r.(rest := r.rest[1..]);
        if event.StreamEnd? {
        } else if event.DocumentStart? {
          LoadDocumentIgnoresComments(o, l', r', event, outside);
          var d, e := LoadDocument(o, l', event, outside), LoadDocument(o, r', event, []);
          if d.Ok? {
            LoadDocumentsIgnoresComments(o, d.value.st, e.value.st, []);
            var more := LoadDocuments(o, d.value.st, []);
            if more.Ok? {
              assert ([d.value.document] + more.value.documents)[1..] == more.value.documents;
            }
          }
        } else if !IsNodeEvent(event) {
          LoadDocumentsIgnoresComments(o, l', r', outside);
        }
      }
    }
  }

  lemma {:induction false} GivingIsBare(documents: seq<Document>, outside: seq<string>)
    ensures BaredAll(GiveToLast(documents, outside)) == BaredAll(documents) == GiveToLast(BaredAll(documents), [])
    decreases |documents|
  {
    hide CloneWithoutComments;
    if |documents| == 1 {
      assert GiveToLast(documents, outside)[1..] == documents[1..] == [];
      assert Bared(GiveToLast(documents, outside)[0]) == Bared(documents[0]);
    } else if documents != [] {
      GivingIsBare(documents[1..], outside);
      assert GiveToLast(documents, outside)[1..] == GiveToLast(documents[1..], outside);
      assert BaredAll(documents)[1..] == BaredAll(documents[1..]);
      assert GiveToLast(BaredAll(documents), [])[1..] == GiveToLast(BaredAll(documents[1..]), []);
      assert GiveToLast(BaredAll(documents), [])[0] == BaredAll(documents)[0];
    }
  }

  /**
   For every stream that does not begin with a comment, in both modes: taking
   its comments out changes nothing of what is loaded but the comments, and
   changes no error.
   */
  lemma {:induction false} CommentsAreTransparent(o: Options, stream: seq<Item>)
    requires !StartsWithComment(stream)
    ensures var l, r := Run(o, stream), Run(o, WithoutComments(stream));
            if l.Err? then r == Err(l.error)
            else r.Ok? && r.value.documents == BaredAll(l.value.documents)
  {
    hide LoadDocuments;
    hide Bared;
    hide GiveToLast;
    NextWithoutComments(stream);
    var rest := if stream == [] then [] else stream[1..];
    LoadDocumentsIgnoresComments(o, InitialState(rest), InitialState(WithoutComments(rest)), []);
    var l := LoadDocuments(o, InitialState(rest), []);
    if l.Ok? {
      GivingIsBare(l.value.documents, l.value.outside);
    }
  }

  /**
   The round trip with comments: however comments are put between the events
   that trees are written as, loading gives back the trees.
   */
  lemma {:induction false} CommentedRoundTrip(
    o: Options, documents: seq<LoaderRoundTrip.Written>, start: Span, end: Span, stream: seq<Item>)
    requires o.mode.Lossless? && (forall w :: w in documents ==> LoaderRoundTrip.WithinLimits(o, w))
    requires !StartsWithComment(stream) && WithoutComments(stream) == LoaderRoundTrip.StreamOf(documents, start, end)
    ensures var r := Run(o, stream);
            r.Ok? && BaredAll(r.value.documents) == LoaderRoundTrip.LoadedDocuments(o, documents)
  {
    hide *;
    LoaderRoundTrip.RoundTrip(o, documents, start, end);
    CommentsAreTransparent(o, stream);
  }
}
