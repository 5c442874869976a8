/**
 What the loader computes, as functions of the options, the loader state and
 the events still in the stream.  `Loader.LoadState` is proved against these
 functions; the properties of loading are proved about them.
 */
module LoaderSpec {
  import opened Positions
  import opened Wrappers
  import opened Events
  import opened Schema
  import opened Ast

  datatype LoadMode = Lossless | Resolved

  /**
   The options, with the line index of the input.  The index is an arbitrary
   function from byte offsets to lines and columns: nothing below depends on
   which comment stands on which line.
   */
  datatype Options = Options(
    maxNestingDepth: nat,
    maxAnchors: nat,
    maxExpandedNodes: nat,
    mode: LoadMode,
    schema: Schema,
    lineColumn: nat -> (nat, nat))
  {
    function Line(offset: nat): nat {
      lineColumn(offset).0
    }

    function PosAt(offset: nat): Pos {
      Pos(offset, lineColumn(offset).0, lineColumn(offset).1)
    }
  }

  datatype LoadError =
    | Parse(pos: Pos, kind: ErrorKind)
    | UnexpectedEndOfStream
    | NestingDepthLimitExceeded(limit: nat, pos: Pos)
    | AnchorCountLimitExceeded(limit: nat, pos: Pos)
    | AliasExpansionLimitExceeded(limit: nat, pos: Pos)
    | CircularAlias(name: string, pos: Pos)
    | UndefinedAlias(name: string, pos: Pos)
    | UnresolvedScalar(pos: Pos)

  type LoadResult<+T> = Result<T, LoadError>

  /** The loader state together with the events not yet read. */
  datatype State = State(
    rest: seq<Item>,
    anchors: map<string, Node>,
    anchorCount: nat,
    depth: int,
    expanded: nat,
    pending: seq<string>)

  datatype Begun = Begun(node: Node, follow: bool, st: State)
  datatype Parsed = Parsed(node: Node, st: State)
  datatype ParsedEntries = ParsedEntries(entries: seq<Entry>, st: State)
  datatype ParsedItems = ParsedItems(items: seq<Node>, st: State)

  datatype RawComment = RawComment(text: string, start: nat)
  datatype EntryComments = EntryComments(raw: seq<RawComment>, inherited: seq<string>)
  datatype NextEntry = Closed | More(comments: Option<EntryComments>)
  datatype Next = Next(entry: NextEntry, st: State)
  datatype Split = Split(before: seq<string>, after: seq<string>)
  datatype Attached = Attached(node: Node, rest: seq<Item>)

  // ----- Schema and anchors -----

  function ClearTagLoc(meta: Option<Meta>): Option<Meta> {
    if meta.None? then None else meta.value.(tagLoc := None).IntoOption()
  }

  function ApplySchema(o: Options, n: Node): LoadResult<Node> {
    match n
    case Scalar(value, style, tag, loc, meta) =>
      if tag == Some("!") then Ok(n.WithTagAndMeta(Some(Str.Uri()), meta))
      else (
        match ResolveScalar(o.schema, style, value, tag)
        case Ok(Some(resolved)) => Ok(n.WithTagAndMeta(Some(resolved.Uri()), ClearTagLoc(meta)))
        case Ok(None) => Ok(n)
        case Err(_) => Err(LoadError.UnresolvedScalar(o.PosAt(loc.start)))
      )
    case Mapping(_, _, tag, _, meta) => Ok(ApplyCollectionSchema(o, n, MappingKind, tag, meta))
    case Sequence(_, _, tag, _, meta) => Ok(ApplyCollectionSchema(o, n, SequenceKind, tag, meta))
    case Alias(_, _, _, _) => Ok(n)
  }

  function ApplyCollectionSchema(
    o: Options, n: Node, kind: CollectionKind, tag: Option<string>, meta: Option<Meta>): Node
  {
    var nonSpecific := tag == Some("!");
    var effective := if nonSpecific then None else tag;
    match ResolveCollection(o.schema, kind, effective)
    case Some(resolved) => n.WithTagAndMeta(Some(resolved.Uri()), if nonSpecific then meta else ClearTagLoc(meta))
    case None => n
  }

  function RegisterAnchor(o: Options, st: State, name: string, n: Node, anchorSpan: Span): LoadResult<State> {
    var pos := o.PosAt(anchorSpan.start);
    var count := if name in st.anchors then st.anchorCount else st.anchorCount + 1;
    if name !in st.anchors && count > o.maxAnchors then Err(AnchorCountLimitExceeded(o.maxAnchors, pos))
    else if o.mode.Lossless? then
      Ok(st.(anchors := st.anchors[name := EMPTY_SCALAR], anchorCount := count))
    else if st.expanded + 1 > o.maxExpandedNodes then
      Err(AliasExpansionLimitExceeded(o.maxExpandedNodes, pos))
    else
      Ok(st.(anchors := st.anchors[name := CloneWithoutComments(n)], anchorCount := count, expanded := st.expanded + 1))
  }

  function CompleteNode(o: Options, st: State, n: Node, span: Span): LoadResult<Parsed> {
    var node :- ApplySchema(o, n);
    match node.Anchor()
    case None => Ok(Parsed(node, st))
    case Some(name) =>
      var anchorSpan := if node.AnchorLoc().Some? then node.AnchorLoc().value else span;
      var st1 :- RegisterAnchor(o, st, name, node, anchorSpan);
      Ok(Parsed(node, st1))
  }

  // ----- Aliases -----

  datatype Expansion = Expansion(node: Node, expanded: nat)
  datatype ExpandedEntries = ExpandedEntries(entries: seq<Ast.Entry>, expanded: nat)
  datatype ExpandedItems = ExpandedItems(items: seq<Node>, expanded: nat)

  /**
   The expansion of a node: every alias inside it is replaced by the expansion
   of its anchor, and every node counts toward the budget.  The anchor map is
   arbitrary, and may be cyclic.
   */
  function Expand(
    o: Options, anchors: map<string, Node>, expanded: nat, n: Node, inProgress: set<string>, aliasLoc: Span)
    : LoadResult<Expansion>
    decreases anchors.Keys - inProgress, n
  {
    if expanded + 1 > o.maxExpandedNodes then
      Err(AliasExpansionLimitExceeded(o.maxExpandedNodes, o.PosAt(aliasLoc.start)))
    else match n
      case Alias(name, loc, _, _) =>
        if name in inProgress then Err(CircularAlias(name, o.PosAt(loc.start)))
        else if name !in anchors then Err(UndefinedAlias(name, o.PosAt(loc.start)))
        else
          assert name in anchors.Keys - inProgress;
          var e :- Expand(o, anchors, expanded + 1, anchors[name], inProgress + {name}, loc);
          Ok(e.(node := e.node.WithLoc(loc)))
      case Mapping(entries, style, tag, loc, meta) =>
        var e :- ExpandEntries(o, anchors, expanded + 1, entries, inProgress, aliasLoc);
        Ok(Expansion(Mapping(e.entries, style, tag, loc, meta), e.expanded))
      case Sequence(items, style, tag, loc, meta) =>
        var e :- ExpandItems(o, anchors, expanded + 1, items, inProgress, aliasLoc);
        Ok(Expansion(Sequence(e.items, style, tag, loc, meta), e.expanded))
      case Scalar(_, _, _, _, _) => Ok(Expansion(n, expanded + 1))
  }

  function ExpandEntries(
    o: Options, anchors: map<string, Node>, expanded: nat, entries: seq<Ast.Entry>, inProgress: set<string>,
    aliasLoc: Span)
    : LoadResult<ExpandedEntries>
    decreases anchors.Keys - inProgress, entries
  {
    if entries == [] then Ok(ExpandedEntries([], expanded))
    else
      assert entries[0].key < entries[0];
      var k :- Expand(o, anchors, expanded, entries[0].key, inProgress, aliasLoc);
      var v :- Expand(o, anchors, k.expanded, entries[0].value, inProgress, aliasLoc);
      var more :- ExpandEntries(o, anchors, v.expanded, entries[1..], inProgress, aliasLoc);
      Ok(ExpandedEntries([Ast.Entry(k.node, v.node)] + more.entries, more.expanded))
  }

  function ExpandItems(
    o: Options, anchors: map<string, Node>, expanded: nat, items: seq<Node>, inProgress: set<string>, aliasLoc: Span)
    : LoadResult<ExpandedItems>
    decreases anchors.Keys - inProgress, items
  {
    if items == [] then Ok(ExpandedItems([], expanded))
    else
      var e :- Expand(o, anchors, expanded, items[0], inProgress, aliasLoc);
      var more :- ExpandItems(o, anchors, e.expanded, items[1..], inProgress, aliasLoc);
      Ok(ExpandedItems([e.node] + more.items, more.expanded))
  }

  function ResolveAlias(o: Options, st: State, name: string, loc: Span): LoadResult<Parsed> {
    if o.mode.Lossless? then Ok(Parsed(Node.Alias(name, loc, None, None), st))
    else if name !in st.anchors then Err(UndefinedAlias(name, o.PosAt(loc.start)))
    else
      var e :- Expand(o, st.anchors, st.expanded, st.anchors[name], {}, loc);
      Ok(Parsed(e.node.WithLoc(loc), st.(expanded := e.expanded)))
  }

  // ----- Comments -----

  function RawComments(comments: seq<Item>): (raw: seq<RawComment>)
    requires forall i :: 0 <= i < |comments| ==> comments[i].Good? && comments[i].event.Comment?
    ensures |raw| == |comments|
  {
    seq(|comments|, i requires 0 <= i < |comments| =>
      RawComment(WithHash(comments[i].event.text), comments[i].span.start))
  }

  function Texts(raw: seq<RawComment>): (texts: seq<string>)
    ensures |texts| == |raw|
  {
    seq(|raw|, i requires 0 <= i < |raw| => raw[i].text)
  }

  lemma FirstOfRaw(some: seq<Item>)
    requires some != [] && forall i :: 0 <= i < |some| ==> some[i].Good? && some[i].event.Comment?
    ensures Texts(RawComments(some)) == [WithHash(some[0].event.text)] + Texts(RawComments(some[1..]))
  {
    hide WithHash;
  }

  /** Where the properties of an empty node end, if the node is one. */
  function PropertiesEnd(n: Node): Option<nat> {
    if n.Scalar? && n.style.Plain? && n.meta.Some? && n.value == "" then
      match (n.meta.value.anchorLoc, n.meta.value.tagLoc)
      case (Some(a), Some(t)) => Some(Max(a.end, t.end))
      case (Some(a), None) => Some(a.end)
      case (None, Some(t)) => Some(t.end)
      case (None, None) => None
    else None
  }

  /** The number of leading comments that stand at or above `line`. */
  function UpToLine(o: Options, raw: seq<RawComment>, line: nat): (k: nat)
    ensures k <= |raw|
  {
    if raw == [] || o.Line(raw[0].start) > line then 0 else 1 + UpToLine(o, raw[1..], line)
  }

  function SplitComments(o: Options, n: Node, raw: seq<RawComment>): Split {
    var at := match PropertiesEnd(n)
      case None => |raw|
      case Some(end) => UpToLine(o, raw, o.Line(end));
    Split(Texts(raw)[..at], Texts(raw)[at..])
  }

  function AttachEntryComments(o: Options, st: State, n: Node, comments: Option<EntryComments>): Parsed {
    match comments
    case None => Parsed(n, st)
    case Some(c) =>
      var split := SplitComments(o, n, c.raw);
      Parsed(AttachLeading(n, c.inherited + split.before), st.(pending := st.pending + split.after))
  }

  predicate IsBlockScalar(n: Node) {
    n.Scalar? && (n.style.Literal? || n.style.Folded?)
  }

  /** The line on which the text of a node ends; none for a node without text. */
  function NodeEndLine(o: Options, n: Node): Option<nat> {
    if n.loc.end == n.loc.start then None
    else
      var (line, column) := o.lineColumn(n.loc.end);
      Some(if column == 0 && line > 0 then line - 1 else line)
  }

  function CommentLine(o: Options, n: Node): Option<nat> {
    if IsBlockScalar(n) then Some(o.Line(n.loc.start)) else NodeEndLine(o, n)
  }

  function KeyCommentLine(o: Options, n: Node): Option<nat> {
    if CommentLine(o, n).Some? then CommentLine(o, n) else Some(o.Line(n.loc.start))
  }

  /** The next event becomes the trailing comment if it is a comment on `line`. */
  function AttachOnLine(o: Options, rest: seq<Item>, n: Node, line: Option<nat>): Attached {
    if StartsWithComment(rest) && line.Some? && o.Line(rest[0].span.start) == line.value then
      Attached(AttachTrailing(n, WithHash(rest[0].event.text)), rest[1..])
    else Attached(n, rest)
  }

  // ----- Nodes -----

  /** What the next node event starts; any other event leaves the slot empty. */
  function BeginEvent(o: Options, st: State, event: Event, span: Span): (r: LoadResult<Begun>)
    ensures r.Ok? ==> r.value.st.rest == st.rest
    ensures r.Ok? && r.value.follow ==> r.value.node.Mapping? || r.value.node.Sequence?
  {
    match event
    case Scalar(value, style, props) =>
      var p :- CompleteNode(o, st, Node.Scalar(value, style, props.tag, span, PropertiesMeta(props)), span);
      Ok(Begun(p.node, false, p.st))
    case MappingStart(style, props) =>
      var st1 :- EnterCollection(o, st, span);
      Ok(Begun(Mapping([], style, props.tag, span, PropertiesMeta(props)), true, st1))
    case SequenceStart(style, props) =>
      var st1 :- EnterCollection(o, st, span);
      Ok(Begun(Sequence([], style, props.tag, span, PropertiesMeta(props)), true, st1))
    case Alias(name) =>
      var p :- ResolveAlias(o, st, name, span);
      Ok(Begun(p.node, false, p.st))
    case _ => Ok(Begun(EMPTY_SCALAR, false, st))
  }

  function BeginNode(o: Options, st: State): (r: LoadResult<Begun>)
    ensures r.Ok? ==> |r.value.st.rest| <= |st.rest|
    ensures r.Ok? && r.value.follow ==>
              |r.value.st.rest| < |st.rest| && (r.value.node.Mapping? || r.value.node.Sequence?)
    ensures r.Ok? && st.rest != [] && !StartsWithClosing(st.rest) ==> |r.value.st.rest| < |st.rest|
    decreases |st.rest|
  {
    if StartsWithClosing(st.rest) || st.rest == [] then Ok(Begun(EMPTY_SCALAR, false, st))
    else if st.rest[0].Bad? then Err(Parse(st.rest[0].error.pos, st.rest[0].error.kind))
    else
      var Good(event, span) := st.rest[0];
      var st1 := st.(rest := st.rest[1..]);
      if event.Comment? then
        var k := CommentRun(st1.rest);
        BeginNode(o, st1.(
          rest := st1.rest[k..],
          pending := st1.pending + [WithHash(event.text)] + Texts(RawComments(st1.rest[..k]))))
      else BeginEvent(o, st1, event, span)
  }

  /** The state once the comments in front are waiting. */
  function AfterComments(st: State): State
    requires StartsWithComment(st.rest)
  {
    var k := CommentRun(st.rest[1..]);
    st.(rest := st.rest[1..][k..],
        pending := st.pending + [WithHash(st.rest[0].event.text)] + Texts(RawComments(st.rest[1..][..k])))
  }

  lemma BeginNodeSkips(o: Options, st: State)
    requires StartsWithComment(st.rest)
    ensures BeginNode(o, st) == BeginNode(o, AfterComments(st))
  {
    hide BeginEvent;
    hide Texts;
    hide RawComments;
    hide CommentRun;
  }

  function PropertiesMeta(props: Properties): Option<Meta> {
    Meta(props.anchor, props.anchorLoc, props.tagLoc, None, None).IntoOption()
  }

  function EnterCollection(o: Options, st: State, span: Span): LoadResult<State> {
    if st.depth + 1 > o.maxNestingDepth then
      Err(NestingDepthLimitExceeded(o.maxNestingDepth, o.PosAt(span.start)))
    else Ok(st.(depth := st.depth + 1))
  }

  function ParseNode(o: Options, st: State): (r: LoadResult<Parsed>)
    ensures r.Ok? ==> |r.value.st.rest| <= |st.rest|
    ensures r.Ok? && st.rest != [] && !StartsWithClosing(st.rest) ==> |r.value.st.rest| < |st.rest|
    decreases |st.rest|, 0
  {
    var b :- BeginNode(o, st);
    if !b.follow then Ok(Parsed(b.node, b.st))
    else match b.node
      case Mapping(_, style, tag, loc, meta) =>
        var p :- ParseEntries(o, b.st);
        FinishCollection(o, p.st, Mapping(p.entries, style, tag, loc, meta))
      case Sequence(_, style, tag, loc, meta) =>
        var p :- ParseItems(o, b.st);
        FinishCollection(o, p.st, Sequence(p.items, style, tag, loc, meta))
  }

  function ParseEntries(o: Options, st: State): (r: LoadResult<ParsedEntries>)
    ensures r.Ok? ==> |r.value.st.rest| <= |st.rest|
    ensures r.Ok? ==> StartsWithEnd(r.value.st.rest, MappingKind)
    decreases |st.rest|, 1
  {
    var next :- NextEntryOf(o, st, MappingKind);
    match next.entry
    case Closed => Ok(ParsedEntries([], next.st))
    case More(comments) =>
      var k :- ParseNode(o, next.st);
      var key := FinishKey(o, k.st, k.node, comments);
      var v :- ParseNode(o, key.st);
      var value := FinishValue(o, v.st, v.node);
      var more :- ParseEntries(o, value.st);
      Ok(ParsedEntries([Ast.Entry(key.node, value.node)] + more.entries, more.st))
  }

  function ParseItems(o: Options, st: State): (r: LoadResult<ParsedItems>)
    ensures r.Ok? ==> |r.value.st.rest| <= |st.rest|
    ensures r.Ok? ==> StartsWithEnd(r.value.st.rest, SequenceKind)
    decreases |st.rest|, 1
  {
    var next :- NextEntryOf(o, st, SequenceKind);
    match next.entry
    case Closed => Ok(ParsedItems([], next.st))
    case More(comments) =>
      var i :- ParseNode(o, next.st);
      var item := FinishItem(o, i.st, i.node, comments);
      var more :- ParseItems(o, item.st);
      Ok(ParsedItems([item.node] + more.items, more.st))
  }

  /** A node of one event. */
  lemma OneEventLoads(o: Options, st: State, event: Event, span: Span, p: Parsed)
    requires st.rest != [] && st.rest[0] == Good(event, span) && (event.Scalar? || event.Alias?)
    requires BeginEvent(o, st.(rest := st.rest[1..]), event, span) == Ok(Begun(p.node, false, p.st))
    ensures ParseNode(o, st) == Ok(p)
  {
    hide BeginEvent;
  }

  /** Whether the collection has another key or item, and the comments before it. */
  function NextEntryOf(o: Options, st: State, kind: CollectionKind): (r: LoadResult<Next>)
    ensures r.Ok? ==> r.value.st == st.(rest := st.rest[CommentRun(st.rest)..], pending := r.value.st.pending)
    ensures r.Ok? && r.value.entry.More? ==> r.value.st.rest != [] && !StartsWithClosing(r.value.st.rest)
    ensures r.Ok? && r.value.entry.Closed? ==> StartsWithEnd(r.value.st.rest, kind)
  {
    var run := CommentRun(st.rest);
    var raw := RawComments(st.rest[..run]);
    var st1 := st.(rest := st.rest[run..], pending := []);
    if st1.rest == [] then Err(UnexpectedEndOfStream)
    else if st1.rest[0].Bad? then Err(Parse(st1.rest[0].error.pos, st1.rest[0].error.kind))
    else if st1.rest[0].event.StreamEnd? then Err(UnexpectedEndOfStream)
    else if StartsWithEnd(st1.rest, kind) then Ok(Next(Closed, st1.(pending := st.pending + Texts(raw))))
    else if StartsWithClosing(st1.rest) then Err(UnbalancedEnd(o, st1.rest[0].span))
    else if raw == [] && st.pending == [] then Ok(Next(More(None), st1))
    else Ok(Next(More(Some(EntryComments(raw, st.pending))), st1))
  }

  predicate StartsWithEnd(stream: seq<Item>, kind: CollectionKind) {
    stream != [] && stream[0].Good?
    && (if kind.MappingKind? then stream[0].event.MappingEnd? else stream[0].event.SequenceEnd?)
  }

  function UnbalancedEnd(o: Options, span: Span): LoadError {
    Parse(o.PosAt(span.start), Syntax)
  }

  function MisplacedNode(o: Options, span: Span): LoadError {
    Parse(o.PosAt(span.start), Syntax)
  }

  function FinishKey(o: Options, st: State, key: Node, comments: Option<EntryComments>): (p: Parsed)
    ensures |p.st.rest| <= |st.rest|
  {
    var p := AttachEntryComments(o, st, key, comments);
    var a := AttachOnLine(o, p.st.rest, p.node, KeyCommentLine(o, p.node));
    Parsed(a.node, p.st.(rest := a.rest))
  }

  function FinishValue(o: Options, st: State, value: Node): (p: Parsed)
    ensures |p.st.rest| <= |st.rest|
  {
    var a := AttachOnLine(o, st.rest, value, CommentLine(o, value));
    Parsed(a.node, st.(rest := a.rest))
  }

  function FinishItem(o: Options, st: State, item: Node, comments: Option<EntryComments>): (p: Parsed)
    ensures |p.st.rest| <= |st.rest|
  {
    var p := AttachEntryComments(o, st, item, comments);
    FinishValue(o, p.st, p.node)
  }

  /** Consume the end event, leave the nesting level, and complete the node. */
  function FinishCollection(o: Options, st: State, n: Node): (r: LoadResult<Parsed>)
    ensures r.Ok? ==> |r.value.st.rest| <= |st.rest|
  {
    var ends := StartsWithEnd(st.rest, MappingKind) || StartsWithEnd(st.rest, SequenceKind);
    var loc := if ends then n.loc.(end := st.rest[0].span.end) else n.loc;
    var st1 := st.(rest := if ends then st.rest[1..] else st.rest, depth := st.depth - 1);
    CompleteNode(o, st1, n.WithLoc(loc), loc)
  }

  ghost function PrependEntries(entries: seq<Ast.Entry>, r: LoadResult<ParsedEntries>): LoadResult<ParsedEntries> {
    if r.Err? then r else Ok(r.value.(entries := entries + r.value.entries))
  }

  ghost function PrependItems(items: seq<Node>, r: LoadResult<ParsedItems>): LoadResult<ParsedItems> {
    if r.Err? then r else Ok(r.value.(items := items + r.value.items))
  }

  /** A node is one event, or a collection: its start, what is inside, and its end. */
  lemma NodeStep(o: Options, st: State)
    ensures var b := BeginNode(o, st);
            ParseNode(o, st)
            == if b.Err? then Err(b.error)
               else if !b.value.follow then Ok(Parsed(b.value.node, b.value.st))
               else if b.value.node.Mapping? then
                 var p := ParseEntries(o, b.value.st);
                 if p.Err? then Err(p.error)
                 else FinishCollection(o, p.value.st, b.value.node.(entries := p.value.entries))
               else
                 var p := ParseItems(o, b.value.st);
                 if p.Err? then Err(p.error)
                 else FinishCollection(o, p.value.st, b.value.node.(items := p.value.items))
  {
    hide BeginNode;
    hide FinishCollection;
    hide ParseEntries;
    hide ParseItems;
  }

  /** One round of the loop over the entries of a mapping. */
  lemma EntriesStep(o: Options, st: State)
    ensures var next := NextEntryOf(o, st, MappingKind);
            var all := ParseEntries(o, st);
            if next.Err? then all == Err(next.error)
            else if next.value.entry.Closed? then all == Ok(ParsedEntries([], next.value.st))
            else
              var k := ParseNode(o, next.value.st);
              if k.Err? then all == Err(k.error)
              else
                var key := FinishKey(o, k.value.st, k.value.node, next.value.entry.comments);
                var v := ParseNode(o, key.st);
                if v.Err? then all == Err(v.error)
                else
                  var value := FinishValue(o, v.value.st, v.value.node);
                  all == PrependEntries([Ast.Entry(key.node, value.node)], ParseEntries(o, value.st))
  {
    hide NextEntryOf;
    hide ParseNode;
    hide FinishKey;
    hide FinishValue;
  }

  /** One round of the loop over the items of a sequence. */
  lemma ItemsStep(o: Options, st: State)
    ensures var next := NextEntryOf(o, st, SequenceKind);
            var all := ParseItems(o, st);
            if next.Err? then all == Err(next.error)
            else if next.value.entry.Closed? then all == Ok(ParsedItems([], next.value.st))
            else
              var i := ParseNode(o, next.value.st);
              if i.Err? then all == Err(i.error)
              else
                var item := FinishItem(o, i.value.st, i.value.node, next.value.entry.comments);
                all == PrependItems([item.node], ParseItems(o, item.st))
  {
    hide NextEntryOf;
    hide ParseNode;
    hide FinishItem;
  }

  // ----- Documents -----

  datatype LoadedDocument = LoadedDocument(document: Document, st: State)
  datatype Loaded = Loaded(documents: seq<Document>, outside: seq<string>, st: State)

  function Reset(st: State): State {
    st.(anchors := map[], anchorCount := 0, expanded := 0, pending := [])
  }

  predicate StartsWithDocumentEnd(stream: seq<Item>) {
    stream == [] || (stream[0].Good? && (stream[0].event.DocumentEnd? || stream[0].event.StreamEnd?))
  }

  predicate StartsWithNode(stream: seq<Item>) {
    stream != [] && stream[0].Good? && IsNodeEvent(stream[0].event)
  }

  predicate IsNodeEvent(e: Event) {
    e.Scalar? || e.Alias? || e.MappingStart? || e.SequenceStart?
  }

  function ParseRoot(o: Options, st: State): (r: LoadResult<Parsed>)
    ensures r.Ok? ==> |r.value.st.rest| <= |st.rest|
  {
    if StartsWithDocumentEnd(st.rest) then
      var root :- ApplySchema(o, EMPTY_SCALAR);
      Ok(Parsed(root, st))
    else ParseNode(o, st)
  }

  /** Give the root its comment, and the document the comments and the end event after it. */
  function EndDocument(o: Options, parsed: Parsed, start: Event, outside: seq<string>, comments: seq<string>)
    : (r: LoadResult<LoadedDocument>)
    requires start.DocumentStart?
    ensures r.Ok? ==> |r.value.st.rest| <= |parsed.st.rest|
  {
    var root := FinishValue(o, parsed.st, parsed.node);
    var run := CommentRun(root.st.rest);
    var endComments := root.st.pending + Texts(RawComments(root.st.rest[..run]));
    var rest := root.st.rest[run..];
    if StartsWithEnd(rest, MappingKind) || StartsWithEnd(rest, SequenceKind) then Err(UnbalancedEnd(o, rest[0].span))
    else if StartsWithNode(rest) then Err(MisplacedNode(o, rest[0].span))
    else
      var ends := rest != [] && rest[0].Good? && rest[0].event.DocumentEnd?;
      var document := Document(
        root.node, start.version, start.tagDirectives, outside, comments, endComments, [],
        start.explicitStart, ends && rest[0].event.explicitEnd);
      Ok(LoadedDocument(document, root.st.(rest := if ends then rest[1..] else rest, pending := [])))
  }

  /** The document whose start event has just been read. */
  function LoadDocument(o: Options, st: State, start: Event, outside: seq<string>): (r: LoadResult<LoadedDocument>)
    requires start.DocumentStart?
    ensures r.Ok? ==> |r.value.st.rest| <= |st.rest|
  {
    var run := CommentRun(st.rest);
    var parsed :- ParseRoot(o, Reset(st).(rest := st.rest[run..]));
    EndDocument(o, parsed, start, outside, Texts(RawComments(st.rest[..run])))
  }

  function LoadDocuments(o: Options, st: State, outside: seq<string>): (r: LoadResult<Loaded>)
    decreases |st.rest|
  {
    if st.rest == [] then Ok(Loaded([], outside, st))
    else if st.rest[0].Bad? then Err(Parse(st.rest[0].error.pos, st.rest[0].error.kind))
    else
      var Good(event, span) := st.rest[0];
      var st1 := st.(rest := st.rest[1..]);
      if event.StreamEnd? then Ok(Loaded([], outside, st1))
      else if event.DocumentStart? then
        var d :- LoadDocument(o, st1, event, outside);
        var more :- LoadDocuments(o, d.st, []);
        Ok(more.(documents := [d.document] + more.documents))
      else if event.Comment? then LoadDocuments(o, st1, outside + [WithHash(event.text)])
      else if IsNodeEvent(event) then Err(MisplacedNode(o, span))
      else LoadDocuments(o, st1, outside)
  }

  function InitialState(stream: seq<Item>): State {
    State(stream, map[], 0, 0, 0, [])
  }

  /** The comments after the last document go to that document. */
  function GiveToLast(documents: seq<Document>, outside: seq<string>): seq<Document> {
    if documents == [] then []
    else documents[|documents| - 1 := documents[|documents| - 1].(afterEndComments := outside)]
  }

  /** Load a whole stream: the documents, and the events left unread. */
  function Run(o: Options, stream: seq<Item>): LoadResult<Loaded> {
    if stream != [] && stream[0].Bad? then Err(Parse(stream[0].error.pos, stream[0].error.kind))
    else
      var l :- LoadDocuments(o, InitialState(if stream == [] then [] else stream[1..]), []);
      Ok(l.(documents := GiveToLast(l.documents, l.outside)))
  }
}
