/**
 The errors of a load.  One pass over the events, with a stack of the open
 collections and the set of the anchors seen, finds the error that a load
 reports: with its kind, its limit and its position.
 */
module LoaderScan {
  import opened Positions
  import opened Wrappers
  import opened Events
  import opened Schema
  import opened Ast
  import opened LoaderSpec
  import opened LoaderAnchors
  import opened LoaderResolved
  import opened LoaderPlaces
  import opened AliasSemantics
  import LoaderTokens
  import SchemaRegex

  // ----- The scan -----

  /** An anchor with the offset of its definition. */
  datatype Anchored = Anchored(name: string, at: nat)

  /** A collection that is still open, with the anchor it will have when it ends. */
  datatype Frame = InMapping(valueNext: bool, anchor: Option<Anchored>) | InSequence(anchor: Option<Anchored>)

  /** Where the next event stands; with no collection open inside a document, it stands behind the root. */
  datatype Place = Outside | RootNext | Inside(open: seq<Frame>) {
    predicate ValueNext() {
      Inside? && open != [] && open[0].InMapping? && open[0].valueNext
    }

    /** In which order places are passed where there is no event to read. */
    function Rank(): nat {
      if Outside? then 1 else if RootNext? || ValueNext() then 4 else 2
    }
  }

  /** The place behind a node. */
  function BehindIt(open: seq<Frame>): (place: Place)
    ensures place.Rank() == 2 || (open != [] && open[0].InMapping? && !open[0].valueNext)
  {
    if open != [] && open[0].InMapping? then Inside([open[0].(valueNext := !open[0].valueNext)] + open[1..])
    else Inside(open)
  }

  function AnchorOf(props: Properties, span: Span): Option<Anchored> {
    if props.anchor.None? then None
    else Some(Anchored(
      props.anchor.value, if props.anchorLoc.Some? then props.anchorLoc.value.start else span.start))
  }

  predicate HasRoom(o: Options, anchor: Option<Anchored>, names: set<string>) {
    anchor.Some? && anchor.value.name !in names ==> |names| < o.maxAnchors
  }

  function Defining(anchor: Option<Anchored>, names: set<string>): set<string> {
    if anchor.Some? then names + {anchor.value.name} else names
  }

  predicate Ends(frame: Frame, event: Event) {
    if frame.InMapping? then event.MappingEnd? else event.SequenceEnd?
  }

  predicate StartsANode(event: Event) {
    event.Scalar? || event.Alias? || event.MappingStart? || event.SequenceStart?
  }

  function At(o: Options, offset: nat): Pos {
    Pos(offset, o.lineColumn(offset).0, o.lineColumn(offset).1)
  }

  function Misplaced(o: Options, offset: nat): LoadError {
    Parse(At(o, offset), Syntax)
  }

  /** The error of the scan from here on, if there is one. */
  function Scan(o: Options, stream: seq<Item>, place: Place, names: set<string>): Option<LoadError>
    decreases |stream|, place.Rank()
  {
    if StartsWithComment(stream) then Scan(o, stream[1..], place, names)
    else match place
      case Outside =>
        if stream == [] then None
        else if stream[0].Bad? then Some(Parse(stream[0].error.pos, stream[0].error.kind))
        else if stream[0].event.StreamEnd? then None
        else if stream[0].event.DocumentStart? then Scan(o, stream[1..], RootNext, {})
        else if StartsANode(stream[0].event) then Some(Misplaced(o, stream[0].span.start))
        else Scan(o, stream[1..], Outside, names)
      case RootNext =>
        if stream == [] || (stream[0].Good? && (stream[0].event.DocumentEnd? || stream[0].event.StreamEnd?)) then
          if LoaderTokens.ScalarTag(o, Plain, "", None).None? then Some(LoadError.UnresolvedScalar(At(o, 0)))
          else Scan(o, stream, Inside([]), names)
        else ScanNode(o, stream, [], names)
      case Inside(open) =>
        if place.ValueNext() then ScanNode(o, stream, open, names)
        else if open != [] then
          if stream == [] || (stream[0].Good? && stream[0].event.StreamEnd?) then Some(UnexpectedEndOfStream)
          else if stream[0].Bad? then Some(Parse(stream[0].error.pos, stream[0].error.kind))
          else if Ends(open[0], stream[0].event) then
            if !HasRoom(o, open[0].anchor, names) then
              Some(AnchorCountLimitExceeded(o.maxAnchors, At(o, open[0].anchor.value.at)))
            else Scan(o, stream[1..], BehindIt(open[1..]), Defining(open[0].anchor, names))
          else if StartsWithClosing(stream) then Some(Misplaced(o, stream[0].span.start))
          else ScanEvent(o, stream, open, names)
        else if stream == [] || stream[0].Bad? then Scan(o, stream, Outside, names)
        else if stream[0].event.DocumentEnd? then Scan(o, stream[1..], Outside, names)
        else if StartsWithClosing(stream) || StartsANode(stream[0].event) then
          Some(Misplaced(o, stream[0].span.start))
        else Scan(o, stream, Outside, names)
  }

  /** The scan where a node is next, within the collections `open`. */
  function ScanNode(o: Options, stream: seq<Item>, open: seq<Frame>, names: set<string>): Option<LoadError>
    requires open == [] || (open[0].InMapping? && open[0].valueNext)
    decreases |stream|, 3
  {
    if stream == [] || StartsWithClosing(stream) then Scan(o, stream, BehindIt(open), names)
    else if stream[0].Bad? then Some(Parse(stream[0].error.pos, stream[0].error.kind))
    else ScanEvent(o, stream, open, names)
  }

  /** The scan at the event of a node. */
  function ScanEvent(o: Options, stream: seq<Item>, open: seq<Frame>, names: set<string>): Option<LoadError>
    requires stream != [] && stream[0].Good?
    decreases |stream|, 0
  {
    var Good(event, span) := stream[0];
    match event
    case Scalar(value, style, props) =>
      var anchor := AnchorOf(props, span);
      if LoaderTokens.ScalarTag(o, style, value, props.tag).None? then
        Some(LoadError.UnresolvedScalar(At(o, span.start)))
      else if !HasRoom(o, anchor, names) then
        Some(AnchorCountLimitExceeded(o.maxAnchors, At(o, anchor.value.at)))
      else Scan(o, stream[1..], BehindIt(open), Defining(anchor, names))
    case MappingStart(_, props) =>
      if |open| >= o.maxNestingDepth then Some(NestingDepthLimitExceeded(o.maxNestingDepth, At(o, span.start)))
      else Scan(o, stream[1..], Inside([InMapping(false, AnchorOf(props, span))] + open), names)
    case SequenceStart(_, props) =>
      if |open| >= o.maxNestingDepth then Some(NestingDepthLimitExceeded(o.maxNestingDepth, At(o, span.start)))
      else Scan(o, stream[1..], Inside([InSequence(AnchorOf(props, span))] + open), names)
    case _ => Scan(o, stream[1..], BehindIt(open), names)
  }

  function ScanStream(o: Options, stream: seq<Item>): Option<LoadError> {
    if stream == [] then None
    else if stream[0].Bad? then Some(Parse(stream[0].error.pos, stream[0].error.kind))
    else Scan(o, stream[1..], Outside, {})
  }

  // ----- Steps -----

  /** The errors that only the meaning of aliases decides. */
  predicate IsOfAliases(o: Options, e: LoadError) {
    o.mode.Resolved? && (e.AliasExpansionLimitExceeded? || e.UndefinedAlias?)
  }

  /** The scan finds the error of the load. */
  predicate Finds(o: Options, scan: Option<LoadError>, e: LoadError) {
    IsOfAliases(o, e) || scan == Some(e)
  }

  function NamesOf(st: State): set<string> {
    st.anchors.Keys
  }

  function NodeAnchor(n: Node, span: Span): Option<Anchored> {
    if n.Anchor().None? then None
    else Some(Anchored(n.Anchor().value, if n.AnchorLoc().Some? then n.AnchorLoc().value.start else span.start))
  }

  lemma {:induction false} CommentsAreSkipped(o: Options, stream: seq<Item>, place: Place, names: set<string>)
    ensures Scan(o, SkipComments(stream), place, names) == Scan(o, stream, place, names)
    decreases |stream|
  {
    hide ScanNode;
    hide ScanEvent;
    if StartsWithComment(stream) {
      assert SkipComments(stream) == SkipComments(stream[1..]);
      CommentsAreSkipped(o, stream[1..], place, names);
    } else {
      assert SkipComments(stream) == stream;
    }
  }

  lemma SchemaFails(o: Options, n: Node)
    ensures var r := ApplySchema(o, n);
            if n.Scalar? && LoaderTokens.ScalarTag(o, n.style, n.value, n.tag).None? then
              r == Err(LoadError.UnresolvedScalar(At(o, n.loc.start)))
            else
              r.Ok? && r.value.Anchor() == n.Anchor() && r.value.AnchorLoc() == n.AnchorLoc()
  {
    hide ResolveCorePlain;
    hide ResolveJsonPlain;
    hide SchemaRegex.TableTag;
    SchemaKeepsTheRest(o, n);
    hide AliasFree;
    hide Comments;
    hide NodeCount;
    if n.Scalar? {
      SchemaRegex.ResolvesByTheTables(o.schema, n.style, n.value);
    }
  }

  lemma KeysOfUpdate(anchors: map<string, Node>, name: string, n: Node)
    ensures anchors[name := n].Keys == anchors.Keys + {name} && |anchors| == |anchors.Keys|
  {
  }

  lemma RegisterFinds(o: Options, st: State, name: string, n: Node, anchorSpan: Span)
    requires Sound(o, st)
    ensures var r := RegisterAnchor(o, st, name, n, anchorSpan);
            var anchor := Some(Anchored(name, anchorSpan.start));
            if r.Err? then
              || IsOfAliases(o, r.error)
              || (!HasRoom(o, anchor, NamesOf(st))
                  && r.error == AnchorCountLimitExceeded(o.maxAnchors, At(o, anchorSpan.start)))
            else
              && HasRoom(o, anchor, NamesOf(st)) && NamesOf(r.value) == Defining(anchor, NamesOf(st))
              && r.value.depth == st.depth && r.value.rest == st.rest
  {
    hide CloneWithoutComments;
    hide PlainAnchors;
    KeysOfUpdate(st.anchors, name, EMPTY_SCALAR);
    KeysOfUpdate(st.anchors, name, CloneWithoutComments(n));
    var known := name in st.anchors;
    assert known == (name in NamesOf(st)) && |NamesOf(st)| == st.anchorCount;
    if known {
      assert NamesOf(st) + {name} == NamesOf(st);
    }
  }

  /** How completing a node fails, or what it defines. */
  ghost predicate Completes(o: Options, st: State, n: Node, anchor: Option<Anchored>, r: LoadResult<Parsed>) {
    var unresolved := n.Scalar? && LoaderTokens.ScalarTag(o, n.style, n.value, n.tag).None?;
    if r.Err? then
      || IsOfAliases(o, r.error)
      || (unresolved && r.error == LoadError.UnresolvedScalar(At(o, n.loc.start)))
      || (!unresolved && !HasRoom(o, anchor, NamesOf(st))
          && r.error == AnchorCountLimitExceeded(o.maxAnchors, At(o, anchor.value.at)))
    else
      && !unresolved && HasRoom(o, anchor, NamesOf(st))
      && NamesOf(r.value.st) == Defining(anchor, NamesOf(st))
      && r.value.st.depth == st.depth && r.value.st.rest == st.rest
  }

  lemma CompleteFinds(o: Options, st: State, n: Node, span: Span)
    requires Sound(o, st)
    ensures Completes(o, st, n, NodeAnchor(n, span), CompleteNode(o, st, n, span))
  {
    SchemaFails(o, n);
    hide ApplySchema;
    hide Sound;
    hide RegisterAnchor;
    hide LoaderTokens.ScalarTag;
    var node := ApplySchema(o, n);
    if node.Ok? && node.value.Anchor().Some? {
      var anchorSpan := if node.value.AnchorLoc().Some? then node.value.AnchorLoc().value else span;
      RegisterFinds(o, st, node.value.Anchor().value, node.value, anchorSpan);
    }
  }

  /** The frame of a collection that has begun. */
  function StartFrame(n: Node): Frame {
    if n.Mapping? then InMapping(false, NodeAnchor(n, n.loc)) else InSequence(NodeAnchor(n, n.loc))
  }

  lemma PropertiesAreKept(props: Properties, n: Node, span: Span)
    requires !n.Alias? && n.meta == PropertiesMeta(props)
    ensures NodeAnchor(n, span) == AnchorOf(props, span)
  {
  }

  lemma AliasFinds(o: Options, st: State, name: string, loc: Span)
    requires Sound(o, st)
    ensures var r := ResolveAlias(o, st, name, loc);
            if r.Err? then IsOfAliases(o, r.error)
            else NamesOf(r.value.st) == NamesOf(st) && r.value.st.depth == st.depth && r.value.st.rest == st.rest
  {
    hide Expand;
    if o.mode.Resolved? && name in st.anchors {
      ExpandAliasFree(o, st.anchors, st.expanded, st.anchors[name], {}, loc);
    }
  }

  /** The scan behind the start of a node. */
  ghost predicate BeginsScanned(
    o: Options, before: Option<LoadError>, open: seq<Frame>, r: LoadResult<Begun>)
  {
    if r.Err? then Finds(o, before, r.error)
    else if r.value.follow then
      && before == Scan(o, r.value.st.rest, Inside([StartFrame(r.value.node)] + open), NamesOf(r.value.st))
      && r.value.st.depth == |open| + 1
    else before == Scan(o, r.value.st.rest, BehindIt(open), NamesOf(r.value.st)) && r.value.st.depth == |open|
  }

  lemma EventIsScanned(o: Options, st: State, stream: seq<Item>, open: seq<Frame>)
    requires Sound(o, st) && st.depth == |open|
    requires stream != [] && stream[0].Good? && stream[1..] == st.rest
    ensures BeginsScanned(
              o, ScanEvent(o, stream, open, NamesOf(st)), open, BeginEvent(o, st, stream[0].event, stream[0].span))
  {
    hide Scan;
    hide Sound;
    hide CompleteNode;
    hide ResolveAlias;
    hide PropertiesMeta;
    hide AnchorOf;
    hide NodeAnchor;
    hide HasRoom;
    hide Defining;
    hide LoaderTokens.ScalarTag;
    var Good(event, span) := stream[0];
    match event
    case Scalar(value, style, props) =>
      var n := Node.Scalar(value, style, props.tag, span, PropertiesMeta(props));
      PropertiesAreKept(props, n, span);
      CompleteFinds(o, st, n, span);
    case MappingStart(style, props) =>
      PropertiesAreKept(props, Mapping([], style, props.tag, span, PropertiesMeta(props)), span);
    case SequenceStart(style, props) =>
      PropertiesAreKept(props, Sequence([], style, props.tag, span, PropertiesMeta(props)), span);
    case Alias(name) => AliasFinds(o, st, name, span);
    case _ =>
  }

  /** The scan where a node is next, behind the comments. */
  function NodeAt(o: Options, stream: seq<Item>, open: seq<Frame>, names: set<string>): Option<LoadError> {
    var node := SkipComments(stream);
    if node == [] || StartsWithClosing(node) then Scan(o, node, BehindIt(open), names)
    else if node[0].Bad? then Some(Parse(node[0].error.pos, node[0].error.kind))
    else ScanEvent(o, node, open, names)
  }

  lemma BeginIsScanned(o: Options, st: State, open: seq<Frame>)
    requires Sound(o, st) && st.depth == |open|
    ensures BeginsScanned(o, NodeAt(o, st.rest, open, NamesOf(st)), open, BeginNode(o, st))
  {
    BeginNodeDrains(o, st);
    var d := Drained(st);
    assert Sound(o, d);
    hide Sound;
    hide Scan;
    hide ScanEvent;
    hide BeginEvent;
    hide CommentRun;
    hide RawComments;
    hide Texts;
    if d.rest != [] && !StartsWithClosing(d.rest) && d.rest[0].Good? {
      var st1 := d.(rest := d.rest[1..]);
      SoundAnywhere(o, d, st1.rest);
      EventIsScanned(o, st1, d.rest, open);
    }
  }

  predicate KeyOrItemNext(open: seq<Frame>) {
    open != [] && (open[0].InMapping? ==> !open[0].valueNext)
  }

  /** What the scan does where the next key or item, or the end, stands. */
  lemma ScanBetween(o: Options, stream: seq<Item>, open: seq<Frame>, names: set<string>)
    requires KeyOrItemNext(open) && !StartsWithComment(stream)
    ensures var before := Scan(o, stream, Inside(open), names);
            if stream == [] then before == Some(UnexpectedEndOfStream)
            else if stream[0].Bad? then before == Some(Parse(stream[0].error.pos, stream[0].error.kind))
            else if stream[0].event.StreamEnd? then before == Some(UnexpectedEndOfStream)
            else if Ends(open[0], stream[0].event) then true
            else if StartsWithClosing(stream) then before == Some(Misplaced(o, stream[0].span.start))
            else before == ScanEvent(o, stream, open, names)
  {
    hide ScanNode;
    hide ScanEvent;
  }

  lemma NextIs(o: Options, st: State, kind: CollectionKind)
    ensures var node := SkipComments(st.rest);
            var r := NextEntryOf(o, st, kind);
            if node == [] then r == Err(UnexpectedEndOfStream)
            else if node[0].Bad? then r == Err(Parse(node[0].error.pos, node[0].error.kind))
            else if node[0].event.StreamEnd? then r == Err(UnexpectedEndOfStream)
            else if !StartsWithEnd(node, kind) && StartsWithClosing(node) then
              r == Err(Parse(At(o, node[0].span.start), Syntax))
            else
              && r.Ok? && r.value.st == st.(rest := node, pending := r.value.st.pending)
              && r.value.entry.Closed? == StartsWithEnd(node, kind)
  {
    hide CommentRun;
    hide RawComments;
    hide Texts;
  }

  /** The scan where the next key or item, or the end, stands. */
  lemma NextIsScanned(o: Options, st: State, kind: CollectionKind, open: seq<Frame>)
    requires KeyOrItemNext(open) && open[0].InMapping? == kind.MappingKind?
    ensures var r := NextEntryOf(o, st, kind);
            var before := Scan(o, st.rest, Inside(open), NamesOf(st));
            if r.Err? then before == Some(r.error)
            else
              && r.value.st.depth == st.depth && NamesOf(r.value.st) == NamesOf(st)
              && if r.value.entry.Closed? then before == Scan(o, r.value.st.rest, Inside(open), NamesOf(st))
                 else before == NodeAt(o, r.value.st.rest, open, NamesOf(st))
  {
    CommentsAreSkipped(o, st.rest, Inside(open), NamesOf(st));
    SkipIsIdempotent(st.rest);
    var node := SkipComments(st.rest);
    assert !StartsWithComment(node);
    ScanBetween(o, node, open, NamesOf(st));
    NextIs(o, st, kind);
    hide Scan;
    hide ScanEvent;
    hide NextEntryOf;
    hide SkipComments;
    hide BehindIt;
  }

  /** The scan where a value is next. */
  lemma ValueIsNext(o: Options, stream: seq<Item>, open: seq<Frame>, names: set<string>)
    requires open != [] && open[0].InMapping? && open[0].valueNext
    ensures Scan(o, stream, Inside(open), names) == NodeAt(o, stream, open, names)
  {
    CommentsAreSkipped(o, stream, Inside(open), names);
    var node := SkipComments(stream);
    assert !StartsWithComment(node);
    assert Scan(o, node, Inside(open), names) == ScanNode(o, node, open, names);
    hide Scan;
    hide ScanEvent;
    hide CommentRun;
  }

  lemma FinishIsScanned(o: Options, st: State, n: Node, comments: Option<EntryComments>, place: Place)
    ensures forall p | p in {FinishKey(o, st, n, comments), FinishItem(o, st, n, comments), FinishValue(o, st, n)} ::
              && Scan(o, p.st.rest, place, NamesOf(st)) == Scan(o, st.rest, place, NamesOf(st))
              && NamesOf(p.st) == NamesOf(st) && p.st.depth == st.depth
  {
    FinishChangesOnlyComments(o, st, n, comments);
    hide FinishKey;
    hide FinishItem;
    hide FinishValue;
    hide CloneWithoutComments;
    hide ResolveNode;
    hide Scan;
    CommentsAreSkipped(o, st.rest, place, NamesOf(st));
    forall p | p in {FinishKey(o, st, n, comments), FinishItem(o, st, n, comments), FinishValue(o, st, n)}
      ensures Scan(o, p.st.rest, place, NamesOf(st)) == Scan(o, st.rest, place, NamesOf(st))
    {
      CommentsAreSkipped(o, p.st.rest, place, NamesOf(st));
    }
  }

  /** The scan where a collection ends. */
  lemma EndIsScanned(o: Options, st: State, n: Node, open: seq<Frame>)
    requires Sound(o, st) && st.depth == |open| + 1
    requires || (n.Mapping? && StartsWithEnd(st.rest, MappingKind))
             || (n.Sequence? && StartsWithEnd(st.rest, SequenceKind))
    ensures var r := FinishCollection(o, st, n);
            var before := Scan(o, st.rest, Inside([StartFrame(n)] + open), NamesOf(st));
            if r.Err? then Finds(o, before, r.error)
            else
              && before == Scan(o, r.value.st.rest, BehindIt(open), NamesOf(r.value.st))
              && r.value.st.depth == |open|
  {
    var loc := n.loc.(end := st.rest[0].span.end);
    var m := n.WithLoc(loc);
    assert NodeAnchor(m, loc) == NodeAnchor(n, n.loc);
    var st1 := st.(rest := st.rest[1..], depth := st.depth - 1);
    assert Sound(o, st1);
    CompleteFinds(o, st1, m, loc);
    EndAtTheEnd(o, st.rest, StartFrame(n), open, NamesOf(st));
    hide Scan;
    hide Sound;
    hide CompleteNode;
    hide NodeAnchor;
    hide HasRoom;
    hide Defining;
  }

  lemma EndAtTheEnd(o: Options, stream: seq<Item>, frame: Frame, open: seq<Frame>, names: set<string>)
    requires stream != [] && stream[0].Good? && Ends(frame, stream[0].event)
    requires frame.InMapping? ==> !frame.valueNext
    ensures Scan(o, stream, Inside([frame] + open), names)
         == if !HasRoom(o, frame.anchor, names) then
              Some(AnchorCountLimitExceeded(o.maxAnchors, At(o, frame.anchor.value.at)))
            else Scan(o, stream[1..], BehindIt(open), Defining(frame.anchor, names))
  {
    hide ScanNode;
    hide ScanEvent;
    hide BehindIt;
    hide HasRoom;
    hide Defining;
    assert ([frame] + open)[1..] == open;
  }

  // ----- Trees -----

  /** The scan over a node finds the error of its load, or goes on behind it. */
  lemma {:induction false} NodeIsScanned(o: Options, st: State, open: seq<Frame>)
    requires Sound(o, st) && st.depth == |open|
    ensures var r := ParseNode(o, st);
            var before := NodeAt(o, st.rest, open, NamesOf(st));
            if r.Err? then Finds(o, before, r.error)
            else before == Scan(o, r.value.st.rest, BehindIt(open), NamesOf(r.value.st))
    decreases |st.rest|, 0
  {
    hide Scan;
    hide NodeAt;
    hide BehindIt;
    hide StartFrame;
    hide NamesOf;
    hide BeginNode;
    hide ParseNode;
    hide FinishCollection;
    NodeStep(o, st);
    BeginIsScanned(o, st, open);
    BeginNodeIsSound(o, st);
    hide Sound;
    var b := BeginNode(o, st);
    if b.Ok? && b.value.follow {
      var n := b.value.node;
      var inner := [StartFrame(n)] + open;
      StartFrames(n);
      if n.Mapping? {
        EntriesAreScanned(o, b.value.st, inner);
        ParseEntriesIsSound(o, b.value.st);
        var p := ParseEntries(o, b.value.st);
        if p.Ok? {
          var m := n.(entries := p.value.entries);
          SameFrame(n, m);
          EndIsScanned(o, p.value.st, m, open);
        }
      } else {
        ItemsAreScanned(o, b.value.st, inner);
        ParseItemsIsSound(o, b.value.st);
        var p := ParseItems(o, b.value.st);
        if p.Ok? {
          var m := n.(items := p.value.items);
          SameFrame(n, m);
          EndIsScanned(o, p.value.st, m, open);
        }
      }
    }
  }

  lemma StartFrames(n: Node)
    ensures if n.Mapping? then StartFrame(n).InMapping? && !StartFrame(n).valueNext else StartFrame(n).InSequence?
  {
  }

  lemma SameFrame(n: Node, m: Node)
    requires n.loc == m.loc && !n.Alias? && !m.Alias? && n.meta == m.meta && n.Mapping? == m.Mapping?
    ensures StartFrame(n) == StartFrame(m)
  {
  }

  /** The scan over entries finds the error of their load, or goes on at their end. */
  lemma {:induction false} EntriesAreScanned(o: Options, st: State, open: seq<Frame>)
    requires Sound(o, st) && st.depth == |open|
    requires open != [] && open[0].InMapping? && !open[0].valueNext
    ensures var r := ParseEntries(o, st);
            var before := Scan(o, st.rest, Inside(open), NamesOf(st));
            if r.Err? then Finds(o, before, r.error)
            else before == Scan(o, r.value.st.rest, Inside(open), NamesOf(r.value.st))
    decreases |st.rest|, 1
  {
    hide Scan;
    hide NodeAt;
    hide NamesOf;
    hide ParseNode;
    hide ParseEntries;
    hide ParseAfterKey;
    hide NextEntryOf;
    hide FinishKey;
    hide FinishValue;
    EntriesStep(o, st);
    NextIsScanned(o, st, MappingKind, open);
    NextEntryIsSound(o, st, MappingKind);
    hide Sound;
    var next := NextEntryOf(o, st, MappingKind);
    if next.Ok? && next.value.entry.More? {
      NodeIsScanned(o, next.value.st, open);
      ParseNodeIsSound(o, next.value.st);
      var k := ParseNode(o, next.value.st);
      if k.Ok? {
        var behind := [open[0].(valueNext := true)] + open[1..];
        FinishIsScanned(o, k.value.st, k.value.node, next.value.entry.comments, Inside(behind));
        FinishIsSound(o, k.value.st, k.value.node, next.value.entry.comments);
        var key := FinishKey(o, k.value.st, k.value.node, next.value.entry.comments);
        ValueIsNext(o, key.st.rest, behind, NamesOf(key.st));
        NodeIsScanned(o, key.st, behind);
        ParseNodeIsSound(o, key.st);
        var v := ParseNode(o, key.st);
        if v.Ok? {
          assert [behind[0].(valueNext := false)] + behind[1..] == open;
          FinishIsScanned(o, v.value.st, v.value.node, None, Inside(open));
          FinishIsSound(o, v.value.st, v.value.node, None);
          EntriesAreScanned(o, FinishValue(o, v.value.st, v.value.node).st, open);
        }
      }
    }
  }

  lemma {:induction false} ItemsAreScanned(o: Options, st: State, open: seq<Frame>)
    requires Sound(o, st) && st.depth == |open|
    requires open != [] && open[0].InSequence?
    ensures var r := ParseItems(o, st);
            var before := Scan(o, st.rest, Inside(open), NamesOf(st));
            if r.Err? then Finds(o, before, r.error)
            else before == Scan(o, r.value.st.rest, Inside(open), NamesOf(r.value.st))
    decreases |st.rest|, 1
  {
    hide Scan;
    hide NodeAt;
    hide NamesOf;
    hide ParseNode;
    hide ParseItems;
    hide NextEntryOf;
    hide FinishItem;
    ItemsStep(o, st);
    NextIsScanned(o, st, SequenceKind, open);
    NextEntryIsSound(o, st, SequenceKind);
    hide Sound;
    var next := NextEntryOf(o, st, SequenceKind);
    if next.Ok? && next.value.entry.More? {
      NodeIsScanned(o, next.value.st, open);
      ParseNodeIsSound(o, next.value.st);
      var i := ParseNode(o, next.value.st);
      if i.Ok? {
        FinishIsScanned(o, i.value.st, i.value.node, next.value.entry.comments, Inside(open));
        FinishIsSound(o, i.value.st, i.value.node, next.value.entry.comments);
        ItemsAreScanned(o, FinishItem(o, i.value.st, i.value.node, next.value.entry.comments).st, open);
      }
    }
  }

  // ----- Documents -----

  lemma RootIsScanned(o: Options, st: State)
    requires Sound(o, st) && st.depth == 0
    ensures var r := ParseRoot(o, st.(rest := SkipComments(st.rest)));
            var before := Scan(o, st.rest, RootNext, NamesOf(st));
            if r.Err? then Finds(o, before, r.error)
            else before == Scan(o, r.value.st.rest, Inside([]), NamesOf(r.value.st)) && r.value.st.depth == 0
  {
    CommentsAreSkipped(o, st.rest, RootNext, NamesOf(st));
    SkipIsIdempotent(st.rest);
    var st1 := st.(rest := SkipComments(st.rest));
    SoundAnywhere(o, st, st1.rest);
    ParseNodeIsSound(o, st1);
    NodeIsScanned(o, st1, []);
    RootNextIs(o, st1.rest, NamesOf(st));
    SchemaFails(o, EMPTY_SCALAR);
    hide Scan;
    hide ScanEvent;
    hide ParseNode;
    hide ApplySchema;
    hide CommentRun;
    hide LoaderTokens.ScalarTag;
  }

  lemma RootNextIs(o: Options, stream: seq<Item>, names: set<string>)
    requires !StartsWithComment(stream) && SkipComments(stream) == stream
    ensures Scan(o, stream, RootNext, names)
         == if StartsWithDocumentEnd(stream) then
              if LoaderTokens.ScalarTag(o, Plain, "", None).None? then
                Some(LoadError.UnresolvedScalar(At(o, 0)))
              else Scan(o, stream, Inside([]), names)
            else NodeAt(o, stream, [], names)
  {
    RootScansANode(o, stream, names);
    hide Scan;
    hide ScanEvent;
    hide SkipComments;
    hide BehindIt;
    hide LoaderTokens.ScalarTag;
  }

  lemma RootScansANode(o: Options, stream: seq<Item>, names: set<string>)
    requires !StartsWithComment(stream)
    ensures Scan(o, stream, RootNext, names)
         == if StartsWithDocumentEnd(stream) then
              if LoaderTokens.ScalarTag(o, Plain, "", None).None? then
                Some(LoadError.UnresolvedScalar(At(o, 0)))
              else Scan(o, stream, Inside([]), names)
            else ScanNode(o, stream, [], names)
  {
    hide ScanNode;
    hide ScanEvent;
    hide LoaderTokens.ScalarTag;
  }

  lemma DocumentEndIsScanned(
    o: Options, p: Parsed, start: Event, outside: seq<string>, comments: seq<string>, names: set<string>)
    requires start.DocumentStart?
    ensures var r := EndDocument(o, p, start, outside, comments);
            var before := Scan(o, p.st.rest, Inside([]), names);
            if r.Err? then before == Some(r.error)
            else before == Scan(o, r.value.st.rest, Outside, names) && r.value.st.depth == p.st.depth
  {
    hide FinishValue;
    FinishChangesOnlyComments(o, p.st, p.node, None);
    hide CloneWithoutComments;
    hide ResolveNode;
    CommentsAreSkipped(o, p.st.rest, Inside([]), names);
    SkipIsIdempotent(p.st.rest);
    BehindTheRoot(o, SkipComments(p.st.rest), names);
    hide Scan;
    hide CommentRun;
    hide RawComments;
    hide Texts;
  }

  lemma BehindTheRoot(o: Options, stream: seq<Item>, names: set<string>)
    requires !StartsWithComment(stream)
    ensures Scan(o, stream, Inside([]), names)
         == if StartsWithEnd(stream, MappingKind) || StartsWithEnd(stream, SequenceKind) || StartsWithNode(stream) then
              Some(Parse(At(o, stream[0].span.start), Syntax))
            else Scan(o, if StartsWithClosing(stream) then stream[1..] else stream, Outside, names)
  {
    hide ScanNode;
    hide ScanEvent;
  }

  lemma DocumentIsScanned(o: Options, st: State, start: Event, outside: seq<string>)
    requires start.DocumentStart? && st.depth == 0
    ensures var r := LoadDocument(o, st, start, outside);
            var before := Scan(o, st.rest, RootNext, {});
            if r.Err? then Finds(o, before, r.error)
            else
              && (exists names :: before == Scan(o, r.value.st.rest, Outside, names))
              && r.value.st.depth == 0
  {
    hide Scan;
    hide ParseRoot;
    hide EndDocument;
    hide CommentRun;
    hide RawComments;
    hide Texts;
    ResetIsSound(o, st);
    RootIsScanned(o, Reset(st));
    hide Sound;
    var p := ParseRoot(o, Reset(st).(rest := SkipComments(st.rest)));
    assert NamesOf(Reset(st)) == {};
    if p.Ok? {
      var comments := Texts(RawComments(st.rest[..CommentRun(st.rest)]));
      DocumentEndIsScanned(o, p.value, start, outside, comments, NamesOf(p.value.st));
    }
  }

  lemma {:induction false} DocumentsAreScanned(o: Options, st: State, outside: seq<string>, names: set<string>)
    requires st.depth == 0
    ensures var r := LoadDocuments(o, st, outside);
            var before := Scan(o, st.rest, Outside, names);
            if r.Err? then Finds(o, before, r.error) else before.None?
    decreases |st.rest|
  {
    hide LoadDocument;
    hide ScanNode;
    hide ScanEvent;
    if st.rest != [] && st.rest[0].Good? {
      var event := st.rest[0].event;
      var st1 := st.(rest := st.rest[1..]);
      if event.DocumentStart? {
        DocumentIsScanned(o, st1, event, outside);
        var before := Scan(o, st1.rest, RootNext, {});
        assert Scan(o, st.rest, Outside, names) == before;
        var d := LoadDocument(o, st1, event, outside);
        hide Scan;
        if d.Ok? {
          var names' :| before == Scan(o, d.value.st.rest, Outside, names');
          DocumentsAreScanned(o, d.value.st, [], names');
        }
      } else if event.Comment? {
        DocumentsAreScanned(o, st1, outside + [WithHash(event.text)], names);
      } else if !event.StreamEnd? && !IsNodeEvent(event) {
        DocumentsAreScanned(o, st1, outside, names);
      }
    }
  }

  /**
   For every stream: a load fails with the error that the scan finds, and
   succeeds if the scan finds none.  In resolved mode the meaning of an alias may
   fail it before.
   */
  lemma RunFailsAsScanned(o: Options, stream: seq<Item>)
    ensures var r := Run(o, stream);
            if r.Err? then IsOfAliases(o, r.error) || ScanStream(o, stream) == Some(r.error)
            else ScanStream(o, stream) == None
  {
    hide LoadDocuments;
    hide Scan;
    var st := InitialState(if stream == [] then [] else stream[1..]);
    DocumentsAreScanned(o, st, [], {});
    if stream == [] {
      NothingToScan(o);
    }
  }

  lemma NothingToScan(o: Options)
    ensures Scan(o, [], Outside, {}) == None
  {
  }
}
