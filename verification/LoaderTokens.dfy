/**
 Lossless loading loses and invents nothing: the tree of a document, written
 out again as tokens, is what its events say, in order, with the tags that the
 schema gives and with every collection running from its start event to the
 end event of its own kind.
 */
module LoaderTokens {
  import opened Wrappers
  import opened Events
  import opened Schema
  import opened Ast
  import opened LoaderSpec
  import opened LoaderAnchors
  import SchemaRegex

  /** What an event says about the tree. */
  datatype Token =
    | ScalarToken(value: string, style: ScalarStyle, tag: Option<string>, anchor: Option<string>, span: Span)
    | AliasToken(name: string, span: Span)
    | OpenToken(kind: CollectionKind, collectionStyle: CollectionStyle, tag: Option<string>, anchor: Option<string>,
      start: nat)
    | CloseToken(kind: CollectionKind, end: nat)

  /** The tag of a loaded scalar: the written one, but `!` is a string, and without one what the tables say. */
  function ScalarTag(o: Options, style: ScalarStyle, value: string, tag: Option<string>): Option<string> {
    if tag == Some("!") then Some("tag:yaml.org,2002:str")
    else if tag.Some? then tag
    else SchemaRegex.TableTag(o.schema, style, value)
  }

  function CollectionTag(kind: CollectionKind, tag: Option<string>): Option<string> {
    if tag == None || tag == Some("!") then
      Some(if kind.MappingKind? then "tag:yaml.org,2002:map" else "tag:yaml.org,2002:seq")
    else tag
  }

  function EventTokens(o: Options, item: Item): seq<Token> {
    if item.Bad? then []
    else match item.event
      case Scalar(value, style, props) =>
        [ScalarToken(value, style, ScalarTag(o, style, value, props.tag), props.anchor, item.span)]
      case Alias(name) => [AliasToken(name, item.span)]
      case MappingStart(style, props) =>
        [OpenToken(MappingKind, style, CollectionTag(MappingKind, props.tag), props.anchor, item.span.start)]
      case SequenceStart(style, props) =>
        [OpenToken(SequenceKind, style, CollectionTag(SequenceKind, props.tag), props.anchor, item.span.start)]
      case MappingEnd => [CloseToken(MappingKind, item.span.end)]
      case SequenceEnd => [CloseToken(SequenceKind, item.span.end)]
      case _ => []
  }

  function StreamTokens(o: Options, stream: seq<Item>): seq<Token> {
    if stream == [] then [] else EventTokens(o, stream[0]) + StreamTokens(o, stream[1..])
  }

  /**
   A tree written out.  A scalar without a tag is a slot that no event filled,
   since the schema gives every scalar a tag.
   */
  function NodeTokens(n: Node): seq<Token> {
    match n
    case Scalar(value, style, tag, loc, _) =>
      if tag == None then [] else [ScalarToken(value, style, tag, n.Anchor(), loc)]
    case Alias(name, loc, _, _) => [AliasToken(name, loc)]
    case Mapping(entries, style, tag, loc, _) =>
      [OpenToken(MappingKind, style, tag, n.Anchor(), loc.start)] + EntriesTokens(entries)
        + [CloseToken(MappingKind, loc.end)]
    case Sequence(items, style, tag, loc, _) =>
      [OpenToken(SequenceKind, style, tag, n.Anchor(), loc.start)] + ItemsTokens(items)
        + [CloseToken(SequenceKind, loc.end)]
  }

  function EntriesTokens(entries: seq<Ast.Entry>): seq<Token> {
    if entries == [] then []
    else
      assert entries[0].key < entries[0];
      NodeTokens(entries[0].key) + NodeTokens(entries[0].value) + EntriesTokens(entries[1..])
  }

  function ItemsTokens(items: seq<Node>): seq<Token> {
    if items == [] then [] else NodeTokens(items[0]) + ItemsTokens(items[1..])
  }

  /** What a step of loading from `st` to `st'` owes to the tokens it used. */
  predicate Emits(o: Options, st: State, tokens: seq<Token>, st': State) {
    StreamTokens(o, st.rest) == tokens + StreamTokens(o, st'.rest)
  }

  // ----- Steps -----

  lemma {:induction false} CommentsHaveNoTokens(o: Options, stream: seq<Item>)
    ensures StreamTokens(o, stream[CommentRun(stream)..]) == StreamTokens(o, stream)
  {
    var k := CommentRun(stream);
    if StartsWithComment(stream) {
      CommentsHaveNoTokens(o, stream[1..]);
      assert stream[1..][k - 1..] == stream[k..];
      assert StreamTokens(o, stream) == StreamTokens(o, stream[1..]);
    } else {
      assert stream[k..] == stream;
    }
  }

  lemma EmitsConcat(o: Options, st: State, a: seq<Token>, st1: State, b: seq<Token>, st2: State)
    requires Emits(o, st, a, st1) && Emits(o, st1, b, st2)
    ensures Emits(o, st, a + b, st2)
  {
    assert a + (b + StreamTokens(o, st2.rest)) == a + b + StreamTokens(o, st2.rest);
  }

  /** The tag a node has once the schema has been applied. */
  lemma {:induction false} SchemaGivesTheTag(o: Options, n: Node)
    ensures var r := ApplySchema(o, n);
            r.Ok? ==>
              && r.value.Anchor() == n.Anchor()
              && match n
                 case Scalar(value, style, tag, loc, _) =>
                   r.value.Scalar? && r.value.value == value && r.value.style == style && r.value.loc == loc
                   && r.value.tag == ScalarTag(o, style, value, tag) && r.value.tag.Some?
                 case Mapping(entries, style, tag, loc, _) =>
                   r.value.Mapping? && r.value.entries == entries && r.value.collectionStyle == style
                   && r.value.loc == loc && r.value.tag == CollectionTag(MappingKind, tag)
                 case Sequence(items, style, tag, loc, _) =>
                   r.value.Sequence? && r.value.items == items && r.value.collectionStyle == style
                   && r.value.loc == loc && r.value.tag == CollectionTag(SequenceKind, tag)
                 case Alias(_, _, _, _) => r.value == n
  {
    hide ResolveCorePlain;
    hide ResolveJsonPlain;
    hide SchemaRegex.TableTag;
    if n.Scalar? {
      SchemaRegex.ResolvesByTheTables(o.schema, n.style, n.value);
    }
  }

  /** The tokens of a node, but with the tag that the schema will give it. */
  function TaggedTokens(o: Options, n: Node): seq<Token> {
    match n
    case Scalar(value, style, tag, loc, _) =>
      [ScalarToken(value, style, ScalarTag(o, style, value, tag), n.Anchor(), loc)]
    case Alias(name, loc, _, _) => [AliasToken(name, loc)]
    case Mapping(entries, style, tag, loc, _) =>
      [OpenToken(MappingKind, style, CollectionTag(MappingKind, tag), n.Anchor(), loc.start)]
      + EntriesTokens(entries) + [CloseToken(MappingKind, loc.end)]
    case Sequence(items, style, tag, loc, _) =>
      [OpenToken(SequenceKind, style, CollectionTag(SequenceKind, tag), n.Anchor(), loc.start)]
      + ItemsTokens(items) + [CloseToken(SequenceKind, loc.end)]
  }

  lemma {:induction false} CompleteNodeTokens(o: Options, st: State, n: Node, span: Span)
    ensures var r := CompleteNode(o, st, n, span);
            r.Ok? ==>
              && NodeTokens(r.value.node) == TaggedTokens(o, n)
              && Height(r.value.node) == Height(n)
              && r.value.st.rest == st.rest && r.value.st.depth == st.depth
  {
    hide ApplySchema;
    hide CollectionTag;
    hide ScalarTag;
    SchemaGivesTheTag(o, n);
  }

  lemma NewNodeAnchor(props: Properties, n: Node)
    requires !n.Alias? && n.meta == PropertiesMeta(props)
    ensures n.Anchor() == props.anchor
  {
  }

  /** The token that the start event of the collection `n` stands for. */
  function OpeningToken(n: Node, kind: CollectionKind): Token
    requires n.Mapping? || n.Sequence?
  {
    OpenToken(kind, n.collectionStyle, CollectionTag(kind, n.tag), n.Anchor(), n.loc.start)
  }

  /** What beginning a node uses: all of a complete node, or one opening event. */
  lemma {:induction false} BeginNodeTokens(o: Options, st: State)
    requires o.mode.Lossless?
    ensures var r := BeginNode(o, st);
            r.Ok? ==>
              if r.value.follow then
                var n := r.value.node;
                && (n.Mapping? ==> Emits(o, st, [OpeningToken(n, MappingKind)], r.value.st))
                && (n.Sequence? ==> Emits(o, st, [OpeningToken(n, SequenceKind)], r.value.st))
                && r.value.st.depth == st.depth + 1 <= o.maxNestingDepth
              else
                && Emits(o, st, NodeTokens(r.value.node), r.value.st)
                && Height(r.value.node) == 0
                && r.value.st.depth == st.depth
    decreases |st.rest|
  {
    hide CompleteNode;
    hide ScalarTag;
    hide CollectionTag;
    hide PropertiesMeta;
    hide Expand;
    hide WithHash;
    if !StartsWithClosing(st.rest) && st.rest != [] && st.rest[0].Good? {
      var Good(event, span) := st.rest[0];
      var st1 := st.(rest := st.rest[1..]);
      match event
      case Scalar(value, style, props) =>
        var n := Node.Scalar(value, style, props.tag, span, PropertiesMeta(props));
        NewNodeAnchor(props, n);
        CompleteNodeTokens(o, st1, n, span);
      case MappingStart(style, props) =>
        NewNodeAnchor(props, Mapping([], style, props.tag, span, PropertiesMeta(props)));
      case SequenceStart(style, props) =>
        NewNodeAnchor(props, Sequence([], style, props.tag, span, PropertiesMeta(props)));
      case Comment(text) =>
        var k := CommentRun(st1.rest);
        CommentsHaveNoTokens(o, st1.rest);
        BeginNodeTokens(o, st1.(
          rest := st1.rest[k..],
          pending := st1.pending + [WithHash(text)] + Texts(RawComments(st1.rest[..k]))));
      case _ =>
    }
  }

  lemma {:induction false} NextEntryTokens(o: Options, st: State, kind: CollectionKind)
    ensures var r := NextEntryOf(o, st, kind);
            r.Ok? ==> Emits(o, st, [], r.value.st) && r.value.st.depth == st.depth
  {
    CommentsHaveNoTokens(o, st.rest);
  }

  /** Comments change neither the tokens of a node nor those left to read. */
  lemma {:induction false} AttachTokens(n: Node, comments: seq<string>, comment: string)
    ensures NodeTokens(AttachLeading(n, comments)) == NodeTokens(n) && Height(AttachLeading(n, comments)) == Height(n)
    ensures NodeTokens(AttachTrailing(n, comment)) == NodeTokens(n) && Height(AttachTrailing(n, comment)) == Height(n)
  {
  }

  lemma {:induction false} AttachOnLineTokens(o: Options, rest: seq<Item>, n: Node, line: Option<nat>)
    ensures var a := AttachOnLine(o, rest, n, line);
            NodeTokens(a.node) == NodeTokens(n) && Height(a.node) == Height(n)
              && StreamTokens(o, a.rest) == StreamTokens(o, rest)
  {
    hide AttachTrailing;
    if StartsWithComment(rest) {
      AttachTokens(n, [], WithHash(rest[0].event.text));
    }
  }

  lemma {:induction false} AttachEntryTokens(o: Options, st: State, n: Node, comments: Option<EntryComments>)
    ensures var p := AttachEntryComments(o, st, n, comments);
            NodeTokens(p.node) == NodeTokens(n) && Height(p.node) == Height(n)
            && p.st.rest == st.rest && p.st.depth == st.depth
  {
    hide AttachLeading;
    hide SplitComments;
    if comments.Some? {
      AttachTokens(n, comments.value.inherited + SplitComments(o, n, comments.value.raw).before, "");
    }
  }

  lemma {:induction false} FinishTokens(o: Options, st: State, n: Node, comments: Option<EntryComments>)
    ensures var p := FinishKey(o, st, n, comments);
            NodeTokens(p.node) == NodeTokens(n) && Height(p.node) == Height(n) && Emits(o, st, [], p.st)
              && p.st.depth == st.depth
    ensures var p := FinishItem(o, st, n, comments);
            NodeTokens(p.node) == NodeTokens(n) && Height(p.node) == Height(n) && Emits(o, st, [], p.st)
              && p.st.depth == st.depth
    ensures var p := FinishValue(o, st, n);
            NodeTokens(p.node) == NodeTokens(n) && Height(p.node) == Height(n) && Emits(o, st, [], p.st)
              && p.st.depth == st.depth
  {
    hide AttachOnLine;
    hide AttachEntryComments;
    hide StreamTokens;
    hide NodeTokens;
    AttachEntryTokens(o, st, n, comments);
    var p := AttachEntryComments(o, st, n, comments);
    AttachOnLineTokens(o, p.st.rest, p.node, KeyCommentLine(o, p.node));
    AttachOnLineTokens(o, p.st.rest, p.node, CommentLine(o, p.node));
    AttachOnLineTokens(o, st.rest, n, CommentLine(o, n));
  }

  /** The collection closes with an end event of its own kind. */
  lemma {:induction false} FinishCollectionTokens(o: Options, st: State, n: Node)
    requires n.Mapping? || n.Sequence?
    requires StartsWithEnd(st.rest, if n.Mapping? then MappingKind else SequenceKind)
    ensures var kind := if n.Mapping? then MappingKind else SequenceKind;
            var r := FinishCollection(o, st, n);
            r.Ok? ==>
              && NodeTokens(r.value.node) ==
                 [OpenToken(kind, n.collectionStyle, CollectionTag(kind, n.tag), n.Anchor(), n.loc.start)]
                 + (if n.Mapping? then EntriesTokens(n.entries) else ItemsTokens(n.items))
                 + [CloseToken(kind, st.rest[0].span.end)]
              && Emits(o, st, [CloseToken(kind, st.rest[0].span.end)], r.value.st)
              && Height(r.value.node) == Height(n)
              && r.value.st.depth == st.depth - 1
  {
    hide CompleteNode;
    hide CollectionTag;
    var loc := n.loc.(end := st.rest[0].span.end);
    CompleteNodeTokens(o, st.(rest := st.rest[1..], depth := st.depth - 1), n.WithLoc(loc), loc);
  }

  // ----- Nodes -----

  /**
   A loaded node uses exactly its own tokens, leaves the depth as it was, and
   nests no deeper than the limit allows.
   */
  lemma {:induction false} ParseNodeTokens(o: Options, st: State)
    requires o.mode.Lossless? && st.depth <= o.maxNestingDepth
    ensures var r := ParseNode(o, st);
            r.Ok? ==>
              && Emits(o, st, NodeTokens(r.value.node), r.value.st)
              && r.value.st.depth == st.depth
              && st.depth + Height(r.value.node) <= o.maxNestingDepth
    decreases |st.rest|, 0
  {
    hide Emits;
    hide CollectionTag;
    hide BeginNode;
    hide FinishCollection;
    hide NodeTokens;
    BeginNodeTokens(o, st);
    var b := BeginNode(o, st);
    if b.Ok? && b.value.follow {
      match b.value.node
      case Mapping(_, style, tag, loc, meta) =>
        ParseEntriesTokens(o, b.value.st);
        var p := ParseEntries(o, b.value.st);
        if p.Ok? {
          var n := Mapping(p.value.entries, style, tag, loc, meta);
          FinishCollectionTokens(o, p.value.st, n);
          var open := OpenToken(MappingKind, style, CollectionTag(MappingKind, tag), n.Anchor(), loc.start);
          var close := CloseToken(MappingKind, p.value.st.rest[0].span.end);
          EmitsConcat(o, st, [open], b.value.st, EntriesTokens(p.value.entries), p.value.st);
          var r := FinishCollection(o, p.value.st, n);
          if r.Ok? {
            EmitsConcat(o, st, [open] + EntriesTokens(p.value.entries), p.value.st, [close], r.value.st);
          }
        }
      case Sequence(_, style, tag, loc, meta) =>
        ParseItemsTokens(o, b.value.st);
        var p := ParseItems(o, b.value.st);
        if p.Ok? {
          var n := Sequence(p.value.items, style, tag, loc, meta);
          FinishCollectionTokens(o, p.value.st, n);
          var open := OpenToken(SequenceKind, style, CollectionTag(SequenceKind, tag), n.Anchor(), loc.start);
          var close := CloseToken(SequenceKind, p.value.st.rest[0].span.end);
          EmitsConcat(o, st, [open], b.value.st, ItemsTokens(p.value.items), p.value.st);
          var r := FinishCollection(o, p.value.st, n);
          if r.Ok? {
            EmitsConcat(o, st, [open] + ItemsTokens(p.value.items), p.value.st, [close], r.value.st);
          }
        }
    }
  }

  lemma {:induction false} ParseEntriesTokens(o: Options, st: State)
    requires o.mode.Lossless? && st.depth <= o.maxNestingDepth
    ensures var r := ParseEntries(o, st);
            r.Ok? ==>
              && Emits(o, st, EntriesTokens(r.value.entries), r.value.st)
              && r.value.st.depth == st.depth
              && st.depth + EntriesHeight(r.value.entries) <= o.maxNestingDepth
    decreases |st.rest|, 1
  {
    hide Emits;
    hide NodeTokens;
    hide Height;
    hide NextEntryOf;
    hide FinishKey;
    hide FinishValue;
    NextEntryTokens(o, st, MappingKind);
    var next := NextEntryOf(o, st, MappingKind);
    if next.Ok? && next.value.entry.More? {
      ParseNodeTokens(o, next.value.st);
      var k := ParseNode(o, next.value.st);
      if k.Ok? {
        FinishTokens(o, k.value.st, k.value.node, next.value.entry.comments);
        var key := FinishKey(o, k.value.st, k.value.node, next.value.entry.comments);
        ParseNodeTokens(o, key.st);
        var v := ParseNode(o, key.st);
        if v.Ok? {
          FinishTokens(o, v.value.st, v.value.node, None);
          var value := FinishValue(o, v.value.st, v.value.node);
          ParseEntriesTokens(o, value.st);
          var more := ParseEntries(o, value.st);
          if more.Ok? {
            assert ([Ast.Entry(key.node, value.node)] + more.value.entries)[1..] == more.value.entries;
            var kt, vt := NodeTokens(key.node), NodeTokens(value.node);
            EmitsSkip(o, st, next.value.st, kt, k.value.st, key.st);
            EmitsSkip(o, key.st, key.st, vt, v.value.st, value.st);
            EmitsConcat(o, st, kt, key.st, vt, value.st);
            EmitsConcat(o, st, kt + vt, value.st, EntriesTokens(more.value.entries), more.value.st);
          }
        }
      }
    }
  }

  /** Comment-only steps before and after a node do not show. */
  lemma EmitsSkip(o: Options, st0: State, st1: State, tokens: seq<Token>, st2: State, st3: State)
    requires st0 == st1 || Emits(o, st0, [], st1)
    requires Emits(o, st1, tokens, st2) && Emits(o, st2, [], st3)
    ensures Emits(o, st0, tokens, st3)
  {
    hide StreamTokens;
    assert [] + StreamTokens(o, st1.rest) == StreamTokens(o, st1.rest);
    assert [] + StreamTokens(o, st3.rest) == StreamTokens(o, st3.rest);
  }

  lemma {:induction false} ParseItemsTokens(o: Options, st: State)
    requires o.mode.Lossless? && st.depth <= o.maxNestingDepth
    ensures var r := ParseItems(o, st);
            r.Ok? ==>
              && Emits(o, st, ItemsTokens(r.value.items), r.value.st)
              && r.value.st.depth == st.depth
              && st.depth + ItemsHeight(r.value.items) <= o.maxNestingDepth
    decreases |st.rest|, 1
  {
    hide Emits;
    hide NodeTokens;
    hide Height;
    hide NextEntryOf;
    hide FinishItem;
    NextEntryTokens(o, st, SequenceKind);
    var next := NextEntryOf(o, st, SequenceKind);
    if next.Ok? && next.value.entry.More? {
      ParseNodeTokens(o, next.value.st);
      var i := ParseNode(o, next.value.st);
      if i.Ok? {
        FinishTokens(o, i.value.st, i.value.node, next.value.entry.comments);
        var item := FinishItem(o, i.value.st, i.value.node, next.value.entry.comments);
        ParseItemsTokens(o, item.st);
        var more := ParseItems(o, item.st);
        if more.Ok? {
          assert ([item.node] + more.value.items)[1..] == more.value.items;
          var it := NodeTokens(item.node);
          EmitsSkip(o, st, next.value.st, it, i.value.st, item.st);
          EmitsConcat(o, st, it, item.st, ItemsTokens(more.value.items), more.value.st);
        }
      }
    }
  }

  // ----- Documents -----

  /** The root of a document without content: no event stands for it. */
  predicate IsEmptyRoot(o: Options, root: Node) {
    ApplySchema(o, EMPTY_SCALAR) == Ok(root)
  }

  lemma {:induction false} LoadDocumentTokens(o: Options, st: State, start: Event, outside: seq<string>)
    requires o.mode.Lossless? && st.depth <= o.maxNestingDepth && start.DocumentStart?
    ensures var r := LoadDocument(o, st, start, outside);
            r.Ok? ==>
              && (Emits(o, st, NodeTokens(r.value.document.root), r.value.st)
                  || (exists root :: IsEmptyRoot(o, root) && NodeTokens(r.value.document.root) == NodeTokens(root)
                                     && Emits(o, st, [], r.value.st)))
              && r.value.st.depth == st.depth
              && st.depth + Height(r.value.document.root) <= o.maxNestingDepth
  {
    hide NodeTokens;
    hide ParseNode;
    hide ApplySchema;
    hide FinishValue;
    hide StreamTokens;
    var run := CommentRun(st.rest);
    var st1 := Reset(st).(rest := st.rest[run..]);
    CommentsHaveNoTokens(o, st.rest);
    ParseNodeTokens(o, st1);
    EmptyRootHeight(o);
    var parsed := ParseRoot(o, st1);
    if parsed.Ok? {
      FinishTokens(o, parsed.value.st, parsed.value.node, None);
      var root := FinishValue(o, parsed.value.st, parsed.value.node);
      CommentsHaveNoTokens(o, root.st.rest);
      DocumentEndHasNoToken(o, root.st.rest[CommentRun(root.st.rest)..]);
      assert StartsWithDocumentEnd(st1.rest) ==> IsEmptyRoot(o, parsed.value.node);
    }
  }

  lemma EmptyRootHeight(o: Options)
    ensures forall root :: IsEmptyRoot(o, root) ==> Height(root) == 0
  {
    hide ApplySchema;
    SchemaGivesTheTag(o, EMPTY_SCALAR);
  }

  lemma DocumentEndHasNoToken(o: Options, rest: seq<Item>)
    ensures rest != [] && rest[0].Good? && rest[0].event.DocumentEnd? ==>
              StreamTokens(o, rest[1..]) == StreamTokens(o, rest)
  {
  }

  /** Outside the documents only ends of collections are skipped. */
  predicate AreClosing(tokens: seq<Token>) {
    forall i :: 0 <= i < |tokens| ==> tokens[i].CloseToken?
  }

  /** `tokens` spell the documents, one after the other, each from its first token to its last. */
  ghost predicate Spells(o: Options, tokens: seq<Token>, documents: seq<Document>) {
    if documents == [] then AreClosing(tokens)
    else exists i, j :: SpellsFirst(o, tokens, documents[0].root, i, j) && Spells(o, tokens[j..], documents[1..])
  }

  /** From `i` to `j` stands the first root. */
  ghost predicate SpellsFirst(o: Options, tokens: seq<Token>, root: Node, i: int, j: int) {
    && 0 <= i <= j <= |tokens|
    && AreClosing(tokens[..i])
    && SpellsRoot(o, tokens[i..j], root)
  }

  ghost predicate SpellsRoot(o: Options, tokens: seq<Token>, root: Node) {
    tokens == NodeTokens(root)
    || (tokens == [] && exists empty :: IsEmptyRoot(o, empty) && NodeTokens(root) == NodeTokens(empty))
  }

  /** What was read between two points of the stream. */
  ghost predicate Reads(o: Options, before: seq<Item>, tokens: seq<Token>, after: seq<Item>) {
    StreamTokens(o, before) == tokens + StreamTokens(o, after)
  }

  /**
   No node of a run is lost, and none is made up: the tokens read are those of
   the documents, in order, with every collection closed where it ends.
   */
  lemma {:induction false} LoadDocumentsTokens(o: Options, st: State, outside: seq<string>)
    requires o.mode.Lossless? && st.depth <= o.maxNestingDepth
    ensures var r := LoadDocuments(o, st, outside);
            r.Ok? ==>
              && (exists tokens :: Reads(o, st.rest, tokens, r.value.st.rest) && Spells(o, tokens, r.value.documents))
              && forall i :: 0 <= i < |r.value.documents| ==>
                 st.depth + Height(r.value.documents[i].root) <= o.maxNestingDepth
    decreases |st.rest|
  {
    hide LoadDocument;
    hide NodeTokens;
    hide Height;
    hide IsEmptyRoot;
    hide SpellsRoot;
    hide EventTokens;
    hide SpellsFirst;
    hide Emits;
    var r := LoadDocuments(o, st, outside);
    if r.Ok? && st.rest != [] {
      var event := st.rest[0].event;
      var st1 := st.(rest := st.rest[1..]);
      OutsideIsClosing(o, st.rest[0]);
      if event.StreamEnd? {
        assert Reads(o, st.rest, [], r.value.st.rest);
      } else if event.DocumentStart? {
        LoadDocumentTokens(o, st1, event, outside);
        var d := LoadDocument(o, st1, event, outside).value;
        LoadDocumentsTokens(o, d.st, []);
        DocumentReads(o, st1, d.document.root, d.st);
        ReadingOne(o, st1.rest, d.document, d.st.rest, LoadDocuments(o, d.st, []).value);
        SkippingOne(o, st.rest, r.value.st.rest, r.value.documents);
      } else {
        var outside1 := if event.Comment? then outside + [WithHash(event.text)] else outside;
        LoadDocumentsTokens(o, st1, outside1);
        SkippingOne(o, st.rest, r.value.st.rest, r.value.documents);
      }
    } else if r.Ok? {
      assert Reads(o, st.rest, [], r.value.st.rest);
    }
  }

  lemma OutsideIsClosing(o: Options, item: Item)
    requires item.Good?
    ensures !IsNodeEvent(item.event) ==> AreClosing(EventTokens(o, item))
    ensures item.event.StreamEnd? || item.event.DocumentStart? ==> EventTokens(o, item) == []
  {
  }

  lemma DocumentReads(o: Options, st: State, root: Node, st': State)
    requires Emits(o, st, NodeTokens(root), st')
             || (exists empty ::
                   IsEmptyRoot(o, empty) && NodeTokens(root) == NodeTokens(empty) && Emits(o, st, [], st'))
    ensures exists tokens :: Reads(o, st.rest, tokens, st'.rest) && SpellsRoot(o, tokens, root)
  {
    hide NodeTokens;
    hide IsEmptyRoot;
    if Emits(o, st, NodeTokens(root), st') {
      assert Reads(o, st.rest, NodeTokens(root), st'.rest);
    } else {
      assert Reads(o, st.rest, [], st'.rest);
      assert SpellsRoot(o, [], root);
    }
  }

  lemma SpellsOneMore(o: Options, first: seq<Token>, d: Document, rest: seq<Token>, more: seq<Document>)
    requires SpellsRoot(o, first, d.root) && Spells(o, rest, more)
    ensures Spells(o, first + rest, [d] + more)
  {
    hide SpellsRoot;
    var all, documents, n := first + rest, [d] + more, |first|;
    assert all[0..n] == first && all[n..] == rest && all[..0] == [];
    assert documents[0] == d && documents[1..] == more && documents != [];
    assert SpellsFirst(o, all, documents[0].root, 0, n);
    assert Spells(o, all[n..], documents[1..]);
  }

  /** Ends of collections in front of the first document are skipped. */
  lemma SpellsBehind(o: Options, skipped: seq<Token>, tokens: seq<Token>, documents: seq<Document>)
    requires AreClosing(skipped) && Spells(o, tokens, documents)
    ensures Spells(o, skipped + tokens, documents)
  {
    hide SpellsRoot;
    if documents != [] {
      var i, j :| SpellsFirst(o, tokens, documents[0].root, i, j) && Spells(o, tokens[j..], documents[1..]);
      var n, all := |skipped|, skipped + tokens;
      assert all[..n + i] == skipped + tokens[..i] && all[n + i..n + j] == tokens[i..j] && all[n + j..] == tokens[j..];
      assert SpellsFirst(o, all, documents[0].root, n + i, n + j);
    }
  }

  lemma ReadingOne(o: Options, a: seq<Item>, d: Document, b: seq<Item>, more: Loaded)
    requires exists tokens :: Reads(o, a, tokens, b) && SpellsRoot(o, tokens, d.root)
    requires exists tokens :: Reads(o, b, tokens, more.st.rest) && Spells(o, tokens, more.documents)
    ensures exists tokens :: Reads(o, a, tokens, more.st.rest) && Spells(o, tokens, [d] + more.documents)
  {
    hide Reads;
    hide SpellsRoot;
    hide Spells;
    var first :| Reads(o, a, first, b) && SpellsRoot(o, first, d.root);
    var rest :| Reads(o, b, rest, more.st.rest) && Spells(o, rest, more.documents);
    SpellsOneMore(o, first, d, rest, more.documents);
    ReadsConcat(o, a, first, b, rest, more.st.rest);
  }

  lemma SkippingOne(o: Options, stream: seq<Item>, rest: seq<Item>, documents: seq<Document>)
    requires stream != [] && AreClosing(EventTokens(o, stream[0]))
    requires exists tokens :: Reads(o, stream[1..], tokens, rest) && Spells(o, tokens, documents)
    ensures exists tokens :: Reads(o, stream, tokens, rest) && Spells(o, tokens, documents)
  {
    hide EventTokens;
    hide Spells;
    var tokens :| Reads(o, stream[1..], tokens, rest) && Spells(o, tokens, documents);
    var skipped := EventTokens(o, stream[0]);
    SpellsBehind(o, skipped, tokens, documents);
    assert skipped + (tokens + StreamTokens(o, rest)) == skipped + tokens + StreamTokens(o, rest);
    assert Reads(o, stream, skipped + tokens, rest);
  }

  lemma ReadsConcat(o: Options, a: seq<Item>, first: seq<Token>, b: seq<Item>, rest: seq<Token>, c: seq<Item>)
    requires Reads(o, a, first, b) && Reads(o, b, rest, c)
    ensures Reads(o, a, first + rest, c)
  {
    assert first + (rest + StreamTokens(o, c)) == first + rest + StreamTokens(o, c);
  }

  /** The same for a whole stream, with the nesting limit kept by every tree. */
  lemma {:induction false} RunTokens(o: Options, stream: seq<Item>)
    requires o.mode.Lossless? && stream != []
    ensures var r := Run(o, stream);
            r.Ok? ==>
              && (exists tokens ::
                    Reads(o, stream[1..], tokens, r.value.st.rest) && Spells(o, tokens, r.value.documents))
              && forall i :: 0 <= i < |r.value.documents| ==> Height(r.value.documents[i].root) <= o.maxNestingDepth
  {
    hide LoadDocuments;
    hide Spells;
    hide Height;
    var st := InitialState(stream[1..]);
    LoadDocumentsTokens(o, st, []);
    var l := LoadDocuments(o, st, []);
    if l.Ok? {
      var tokens :| Reads(o, stream[1..], tokens, l.value.st.rest) && Spells(o, tokens, l.value.documents);
      SpellsByRoots(o, tokens, l.value.documents, GiveToLast(l.value.documents, l.value.outside));
    }
  }

  lemma {:induction false} SpellsByRoots(
    o: Options, tokens: seq<Token>, documents: seq<Document>, others: seq<Document>)
    requires Spells(o, tokens, documents) && |documents| == |others|
    requires forall i :: 0 <= i < |documents| ==> documents[i].root == others[i].root
    ensures Spells(o, tokens, others)
  {
    hide SpellsRoot;
    if documents != [] {
      var i, j :| SpellsFirst(o, tokens, documents[0].root, i, j) && Spells(o, tokens[j..], documents[1..]);
      SpellsByRoots(o, tokens[j..], documents[1..], others[1..]);
      assert SpellsFirst(o, tokens, others[0].root, i, j);
    }
  }
}
