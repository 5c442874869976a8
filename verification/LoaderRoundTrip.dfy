/**
 Round trip: the events of any list of trees within the limits load as exactly
 those trees, with the tags that the schema gives.
 */
module LoaderRoundTrip {
  import opened Wrappers
  import opened Events
  import opened Schema
  import opened Ast
  import opened LoaderSpec
  import LoaderTokens
  import SchemaRegex

  /** A tree as a parser sees it: what is written, and where. */
  datatype Tree =
    | Leaf(value: string, style: ScalarStyle, props: Properties, span: Span)
    | Reference(name: string, span: Span)
    | Map(pairs: seq<Pair>, collectionStyle: CollectionStyle, props: Properties, open: Span, close: Span)
    | List(elements: seq<Tree>, collectionStyle: CollectionStyle, props: Properties, open: Span, close: Span)

  datatype Pair = Pair(key: Tree, value: Tree)

  // ----- The events of a tree -----

  function TreeEvents(t: Tree): (items: seq<Item>)
    ensures items != [] && items[0].Good? && IsNodeEvent(items[0].event)
  {
    match t
    case Leaf(value, style, props, span) => [Good(Event.Scalar(value, style, props), span)]
    case Reference(name, span) => [Good(Event.Alias(name), span)]
    case Map(pairs, style, props, open, close) =>
      [Good(MappingStart(style, props), open)] + (PairsEvents(pairs) + [Good(MappingEnd, close)])
    case List(elements, style, props, open, close) =>
      [Good(SequenceStart(style, props), open)] + (ListEvents(elements) + [Good(SequenceEnd, close)])
  }

  function PairsEvents(pairs: seq<Pair>): seq<Item> {
    if pairs == [] then []
    else
      assert pairs[0].key < pairs[0];
      TreeEvents(pairs[0].key) + (TreeEvents(pairs[0].value) + PairsEvents(pairs[1..]))
  }

  function ListEvents(elements: seq<Tree>): seq<Item> {
    if elements == [] then [] else TreeEvents(elements[0]) + ListEvents(elements[1..])
  }

  // ----- The node a tree should load as -----

  /** A tag that the schema supplies has no place in the source. */
  function LoadedMeta(props: Properties): Option<Meta> {
    var tagLoc := if props.tag.None? then None else props.tagLoc;
    if props.anchor.None? && props.anchorLoc.None? && tagLoc.None? then None
    else Some(Meta(props.anchor, props.anchorLoc, tagLoc, None, None))
  }

  function AsLoaded(o: Options, t: Tree): Node {
    match t
    case Leaf(value, style, props, span) =>
      Node.Scalar(value, style, LoaderTokens.ScalarTag(o, style, value, props.tag), span, LoadedMeta(props))
    case Reference(name, span) => Node.Alias(name, span, None, None)
    case Map(pairs, style, props, open, close) =>
      Mapping(LoadedPairs(o, pairs), style, LoaderTokens.CollectionTag(MappingKind, props.tag),
              Span(open.start, close.end), LoadedMeta(props))
    case List(elements, style, props, open, close) =>
      Sequence(LoadedList(o, elements), style, LoaderTokens.CollectionTag(SequenceKind, props.tag),
               Span(open.start, close.end), LoadedMeta(props))
  }

  function LoadedPairs(o: Options, pairs: seq<Pair>): seq<Ast.Entry> {
    if pairs == [] then []
    else
      assert pairs[0].key < pairs[0];
      [Ast.Entry(AsLoaded(o, pairs[0].key), AsLoaded(o, pairs[0].value))] + LoadedPairs(o, pairs[1..])
  }

  function LoadedList(o: Options, elements: seq<Tree>): seq<Node> {
    if elements == [] then [] else [AsLoaded(o, elements[0])] + LoadedList(o, elements[1..])
  }

  // ----- The limits -----

  function Name(props: Properties): set<string> {
    if props.anchor.Some? then {props.anchor.value} else {}
  }

  function Names(t: Tree): set<string> {
    match t
    case Leaf(_, _, props, _) => Name(props)
    case Reference(_, _) => {}
    case Map(pairs, _, props, _, _) => PairsNames(pairs) + Name(props)
    case List(elements, _, props, _, _) => ListNames(elements) + Name(props)
  }

  function PairsNames(pairs: seq<Pair>): set<string> {
    if pairs == [] then {}
    else
      assert pairs[0].key < pairs[0];
      Names(pairs[0].key) + Names(pairs[0].value) + PairsNames(pairs[1..])
  }

  function ListNames(elements: seq<Tree>): set<string> {
    if elements == [] then {} else Names(elements[0]) + ListNames(elements[1..])
  }

  /** The tree nests within `room` levels, and the schema knows its scalars. */
  predicate Fits(o: Options, t: Tree, room: int) {
    match t
    case Leaf(value, style, props, _) => props.tag.Some? || SchemaRegex.TableTag(o.schema, style, value).Some?
    case Reference(_, _) => true
    case Map(pairs, _, _, _, _) => 0 < room && PairsFit(o, pairs, room - 1)
    case List(elements, _, _, _, _) => 0 < room && ListFits(o, elements, room - 1)
  }

  predicate PairsFit(o: Options, pairs: seq<Pair>, room: int) {
    if pairs == [] then true
    else
      assert pairs[0].key < pairs[0];
      Fits(o, pairs[0].key, room) && Fits(o, pairs[0].value, room) && PairsFit(o, pairs[1..], room)
  }

  predicate ListFits(o: Options, elements: seq<Tree>, room: int) {
    elements == [] || (Fits(o, elements[0], room) && ListFits(o, elements[1..], room))
  }

  /** The anchor map once `names` are registered too. */
  function Registered(anchors: map<string, Node>, names: set<string>): map<string, Node> {
    anchors + map name | name in names :: EMPTY_SCALAR
  }

  /** The state after reading everything up to `rest`, with `names` registered. */
  function After(st: State, names: set<string>, rest: seq<Item>): State {
    st.(rest := rest, anchors := Registered(st.anchors, names), anchorCount := |st.anchors.Keys + names|)
  }

  /** A state in which comment-free trees with these names can be loaded. */
  predicate Ready(o: Options, st: State, names: set<string>) {
    && o.mode.Lossless?
    && st.pending == []
    && st.anchorCount == |st.anchors.Keys|
    && |st.anchors.Keys + names| <= o.maxAnchors
  }

  lemma RegisteredKeys(anchors: map<string, Node>, names: set<string>)
    ensures Registered(anchors, names).Keys == anchors.Keys + names
  {
  }

  lemma RegisteredTwice(anchors: map<string, Node>, a: set<string>, b: set<string>)
    ensures Registered(Registered(anchors, a), b) == Registered(anchors, a + b)
  {
  }

  lemma AfterTwice(st: State, a: set<string>, x: seq<Item>, b: set<string>, y: seq<Item>)
    ensures After(After(st, a, x), b, y) == After(st, a + b, y)
  {
    hide Registered;
    RegisteredTwice(st.anchors, a, b);
    RegisteredKeys(st.anchors, a);
    assert st.anchors.Keys + a + b == st.anchors.Keys + (a + b);
  }

  lemma ReadyAfter(o: Options, st: State, a: set<string>, x: seq<Item>, b: set<string>)
    requires Ready(o, st, a + b)
    ensures Ready(o, After(st, a, x), b)
    ensures Ready(o, st, a)
  {
    hide Registered;
    RegisteredKeys(st.anchors, a);
    assert st.anchors.Keys + a + b == st.anchors.Keys + (a + b);
    SubsetIsSmaller(st.anchors.Keys + a, st.anchors.Keys + (a + b));
  }

  lemma {:induction false} SubsetIsSmaller(a: set<string>, b: set<string>)
    requires a <= b
    ensures |a| <= |b|
  {
    if a != {} {
      var x :| x in a;
      SubsetIsSmaller(a - {x}, b - {x});
    }
  }

  // ----- Steps -----

  lemma SchemaFillsTheTag(o: Options, n: Node, props: Properties)
    requires n.Mapping? || n.Sequence?
    requires n.meta == PropertiesMeta(props) && n.tag == props.tag
    ensures ApplySchema(o, n) == Ok(n.WithTagAndMeta(
              LoaderTokens.CollectionTag(if n.Mapping? then MappingKind else SequenceKind, props.tag),
              LoadedMeta(props)))
  {
  }

  lemma SchemaFillsTheScalarTag(o: Options, t: Tree)
    requires t.Leaf? && Fits(o, t, 0)
    ensures ApplySchema(o, Node.Scalar(t.value, t.style, t.props.tag, t.span, PropertiesMeta(t.props))) ==
            Ok(AsLoaded(o, t))
  {
    hide ResolveCorePlain;
    hide ResolveJsonPlain;
    hide SchemaRegex.TableTag;
    SchemaRegex.ResolvesByTheTables(o.schema, t.style, t.value);
  }

  lemma MetaKeepsTheAnchor(props: Properties, n: Node)
    requires !n.Alias? && n.meta == LoadedMeta(props)
    ensures n.Anchor() == props.anchor
  {
  }

  lemma Completes(o: Options, st: State, raw: Node, props: Properties, n: Node, span: Span, rest: seq<Item>)
    requires Ready(o, st, Name(props)) && st.rest == rest
    requires !n.Alias? && n.meta == LoadedMeta(props)
    requires ApplySchema(o, raw) == Ok(n)
    ensures CompleteNode(o, st, raw, span) == Ok(Parsed(n, After(st, Name(props), rest)))
  {
    hide ApplySchema;
    hide LoadedMeta;
    MetaKeepsTheAnchor(props, n);
    RegistersName(o, st, props, n);
  }

  lemma RegistersName(o: Options, st: State, props: Properties, n: Node)
    requires Ready(o, st, Name(props))
    ensures props.anchor.None? ==> st == After(st, Name(props), st.rest)
    ensures props.anchor.Some? ==> forall span ::
              RegisterAnchor(o, st, props.anchor.value, n, span) == Ok(After(st, Name(props), st.rest))
  {
    if props.anchor.Some? {
      var name := props.anchor.value;
      RegisteredOne(st.anchors, name);
      hide Registered;
      hide CloneWithoutComments;
      if name in st.anchors {
        assert st.anchors.Keys + {name} == st.anchors.Keys;
      }
    } else {
      NothingRegistered(st);
    }
  }

  lemma RegisteredOne(anchors: map<string, Node>, name: string)
    ensures Registered(anchors, {name}) == anchors[name := EMPTY_SCALAR]
  {
  }

  lemma NothingRegistered(st: State)
    requires st.anchorCount == |st.anchors.Keys|
    ensures After(st, {}, st.rest) == st
  {
    assert st.anchors.Keys + {} == st.anchors.Keys;
    assert Registered(st.anchors, {}) == st.anchors;
  }

  /** Where no comment stands, nothing is attached. */
  lemma NothingToAttach(o: Options, st: State, n: Node)
    requires !StartsWithComment(st.rest)
    ensures FinishKey(o, st, n, None) == FinishItem(o, st, n, None) == FinishValue(o, st, n) == Parsed(n, st)
  {
  }

  lemma NextIs(o: Options, st: State, kind: CollectionKind)
    requires st.pending == [] && st.rest != [] && st.rest[0].Good?
    ensures IsNodeEvent(st.rest[0].event) ==> NextEntryOf(o, st, kind) == Ok(Next(More(None), st))
    ensures StartsWithEnd(st.rest, kind) ==> NextEntryOf(o, st, kind) == Ok(Next(Closed, st))
  {
    if !st.rest[0].event.Comment? {
      assert CommentRun(st.rest) == 0;
      assert st.rest[0..] == st.rest;
      assert st.(rest := st.rest[0..], pending := []) == st;
      var none := Texts(RawComments(st.rest[..0]));
      assert |none| == 0 && st.pending + none == st.pending;
    }
  }

  // ----- The round trip -----

  lemma {:induction false} TreeLoads(o: Options, st: State, t: Tree, tail: seq<Item>)
    requires st.rest == TreeEvents(t) + tail
    requires Ready(o, st, Names(t)) && Fits(o, t, o.maxNestingDepth - st.depth)
    ensures ParseNode(o, st) == Ok(Parsed(AsLoaded(o, t), After(st, Names(t), tail)))
    decreases t, 2
  {
    hide CompleteNode;
    hide After;
    hide ApplySchema;
    hide LoadedMeta;
    match t
    case Leaf(value, style, props, span) =>
      assert st.rest[1..] == tail;
      LeafLoads(o, st, t, tail);
    case Reference(name, span) =>
      assert st.rest[1..] == tail;
      RegistersName(o, st, Properties(None, None, None, None), EMPTY_SCALAR);
      AfterTwice(st.(rest := tail), {}, tail, {}, tail);
      ReferenceLoads(o, st, t, tail);
    case Map(pairs, style, props, open, close) =>
      MapLoads(o, st, t, tail);
    case List(elements, style, props, open, close) =>
      ListLoads(o, st, t, tail);
  }

  lemma LeafBegins(o: Options, st: State, t: Tree, tail: seq<Item>)
    requires t.Leaf? && Ready(o, st, Names(t)) && Fits(o, t, 0) && st.rest == tail
    ensures BeginEvent(o, st, Event.Scalar(t.value, t.style, t.props), t.span)
            == Ok(Begun(AsLoaded(o, t), false, After(st, Names(t), tail)))
  {
    hide CompleteNode;
    hide ApplySchema;
    hide LoadedMeta;
    hide PropertiesMeta;
    hide Ready;
    hide After;
    var raw := Node.Scalar(t.value, t.style, t.props.tag, t.span, PropertiesMeta(t.props));
    SchemaFillsTheScalarTag(o, t);
    Completes(o, st, raw, t.props, AsLoaded(o, t), t.span, tail);
  }

  lemma AfterFromAnywhere(o: Options, st: State, names: set<string>, tail: seq<Item>)
    requires Ready(o, st, names)
    ensures After(st.(rest := tail), names, tail) == After(st, names, tail) && Ready(o, st.(rest := tail), names)
  {
  }

  lemma LeafLoads(o: Options, st: State, t: Tree, tail: seq<Item>)
    requires t.Leaf? && st.rest == TreeEvents(t) + tail && Ready(o, st, Names(t)) && Fits(o, t, 0)
    ensures ParseNode(o, st) == Ok(Parsed(AsLoaded(o, t), After(st, Names(t), tail)))
  {
    var event := Event.Scalar(t.value, t.style, t.props);
    assert st.rest[0] == Good(event, t.span) && st.rest[1..] == tail;
    hide *;
    AfterFromAnywhere(o, st, Names(t), tail);
    LeafBegins(o, st.(rest := tail), t, tail);
    OneEventLoads(o, st, event, t.span, Parsed(AsLoaded(o, t), After(st, Names(t), tail)));
  }

  lemma ReferenceLoads(o: Options, st: State, t: Tree, tail: seq<Item>)
    requires t.Reference? && st.rest == TreeEvents(t) + tail && Ready(o, st, {})
    ensures ParseNode(o, st) == Ok(Parsed(AsLoaded(o, t), After(st, {}, tail)))
  {
    hide ParseEntries;
    hide ParseItems;
    hide FinishCollection;
    hide CompleteNode;
    assert st.rest[1..] == tail;
    assert st.anchors.Keys + {} == st.anchors.Keys;
    assert After(st, {}, tail).anchors == st.anchors;
  }

  /** The state after the start event of a collection. */
  function Inside(st: State): State
    requires st.rest != []
  {
    st.(rest := st.rest[1..], depth := st.depth + 1)
  }

  lemma ReadyInside(o: Options, st: State, a: set<string>, end: seq<Item>, b: set<string>)
    requires Ready(o, st, a + b) && st.rest != []
    ensures Ready(o, Inside(st), a) && Ready(o, After(Inside(st), a, end), b)
  {
    ReadyAfter(o, Inside(st), a, end, b);
  }

  /** With its start and its entries read, a mapping is left to be closed. */
  lemma MapIsLeftToClose(o: Options, st: State, b: Begun, p: ParsedEntries)
    requires BeginNode(o, st) == Ok(b) && b.follow && b.node.Mapping? && ParseEntries(o, b.st) == Ok(p)
    ensures ParseNode(o, st) == FinishCollection(o, p.st, b.node.(entries := p.entries))
  {
    hide BeginNode;
    hide ParseEntries;
    hide FinishCollection;
  }

  lemma ListIsLeftToClose(o: Options, st: State, b: Begun, p: ParsedItems)
    requires BeginNode(o, st) == Ok(b) && b.follow && b.node.Sequence? && ParseItems(o, b.st) == Ok(p)
    ensures ParseNode(o, st) == FinishCollection(o, p.st, b.node.(items := p.items))
  {
    hide BeginNode;
    hide ParseItems;
    hide FinishCollection;
  }

  /** What the end event makes of the children. */
  lemma MapEndLoads(o: Options, st: State, t: Tree, tail: seq<Item>)
    requires t.Map? && st.rest != [] && Ready(o, st, Names(t))
    ensures var n := Mapping(LoadedPairs(o, t.pairs), t.collectionStyle, t.props.tag, t.open, PropertiesMeta(t.props));
            FinishCollection(o, After(Inside(st), PairsNames(t.pairs), [Good(MappingEnd, t.close)] + tail), n)
            == Ok(Parsed(AsLoaded(o, t), After(st, Names(t), tail)))
  {
    hide FinishCollection;
    hide LoadedMeta;
    hide PropertiesMeta;
    hide Ready;
    hide LoadedPairs;
    hide LoaderTokens.CollectionTag;
    var names, end := PairsNames(t.pairs), [Good(MappingEnd, t.close)] + tail;
    ReadyInside(o, st, names, end, Name(t.props));
    AfterThroughCollection(st, Inside(st), names, end, Name(t.props), tail);
    var n := Mapping(LoadedPairs(o, t.pairs), t.collectionStyle, t.props.tag, t.open, PropertiesMeta(t.props));
    assert After(Inside(st), names, end).rest == end;
    hide After;
    CloseLoads(o, After(Inside(st), names, end), n, t.props, t.close, tail, AsLoaded(o, t));
  }

  /** The part after the last child. */
  lemma MapCloses(o: Options, st: State, t: Tree, tail: seq<Item>)
    requires t.Map? && st.rest == TreeEvents(t) + tail
    requires Ready(o, st, Names(t)) && Fits(o, t, o.maxNestingDepth - st.depth)
    requires ParseEntries(o, Inside(st)) ==
             Ok(ParsedEntries(
               LoadedPairs(o, t.pairs), After(Inside(st), PairsNames(t.pairs), [Good(MappingEnd, t.close)] + tail)))
    ensures ParseNode(o, st) == Ok(Parsed(AsLoaded(o, t), After(st, Names(t), tail)))
  {
    hide ParseEntries;
    hide ParseNode;
    hide TreeEvents;
    hide Fits;
    hide Ready;
    hide After;
    hide AsLoaded;
    hide LoadedPairs;
    hide PairsNames;
    hide Names;
    assert Inside(st) == st.(rest := st.rest[1..], depth := st.depth + 1);
    hide *;
    Opens(o, st, t, tail);
    MapIsLeftToClose(o, st, BeginNode(o, st).value, ParseEntries(o, Inside(st)).value);
    MapEndLoads(o, st, t, tail);
  }

  lemma {:induction false} MapLoads(o: Options, st: State, t: Tree, tail: seq<Item>)
    requires t.Map? && st.rest == TreeEvents(t) + tail
    requires Ready(o, st, Names(t)) && Fits(o, t, o.maxNestingDepth - st.depth)
    ensures ParseNode(o, st) == Ok(Parsed(AsLoaded(o, t), After(st, Names(t), tail)))
    decreases t, 0
  {
    hide SchemaRegex.TableTag;
    hide BeginNode;
    hide ParseNode;
    hide PairsNames;
    hide PairsFit;
    hide PairsEvents;
    hide LoadedPairs;
    hide Name;
    hide After;
    hide Ready;
    hide TreeEvents;
    hide AsLoaded;
    Opens(o, st, t, tail);
    var end := [Good(MappingEnd, t.close)] + tail;
    ReadyInside(o, st, PairsNames(t.pairs), end, Name(t.props));
    PairsLoad(o, Inside(st), t.pairs, end);
    MapCloses(o, st, t, tail);
  }

  /** What the end event makes of the children. */
  lemma ListEndLoads(o: Options, st: State, t: Tree, tail: seq<Item>)
    requires t.List? && st.rest != [] && Ready(o, st, Names(t))
    ensures var n :=
            Sequence(LoadedList(o, t.elements), t.collectionStyle, t.props.tag, t.open, PropertiesMeta(t.props));
            FinishCollection(o, After(Inside(st), ListNames(t.elements), [Good(SequenceEnd, t.close)] + tail), n)
            == Ok(Parsed(AsLoaded(o, t), After(st, Names(t), tail)))
  {
    hide FinishCollection;
    hide LoadedMeta;
    hide PropertiesMeta;
    hide Ready;
    hide LoadedList;
    hide LoaderTokens.CollectionTag;
    var names, end := ListNames(t.elements), [Good(SequenceEnd, t.close)] + tail;
    ReadyInside(o, st, names, end, Name(t.props));
    AfterThroughCollection(st, Inside(st), names, end, Name(t.props), tail);
    var n := Sequence(LoadedList(o, t.elements), t.collectionStyle, t.props.tag, t.open, PropertiesMeta(t.props));
    assert After(Inside(st), names, end).rest == end;
    hide After;
    CloseLoads(o, After(Inside(st), names, end), n, t.props, t.close, tail, AsLoaded(o, t));
  }

  /** The part after the last child. */
  lemma ListCloses(o: Options, st: State, t: Tree, tail: seq<Item>)
    requires t.List? && st.rest == TreeEvents(t) + tail
    requires Ready(o, st, Names(t)) && Fits(o, t, o.maxNestingDepth - st.depth)
    requires ParseItems(o, Inside(st)) ==
             Ok(ParsedItems(
               LoadedList(o, t.elements),
               After(Inside(st), ListNames(t.elements), [Good(SequenceEnd, t.close)] + tail)))
    ensures ParseNode(o, st) == Ok(Parsed(AsLoaded(o, t), After(st, Names(t), tail)))
  {
    hide ParseItems;
    hide ParseNode;
    hide TreeEvents;
    hide Fits;
    hide Ready;
    hide After;
    hide AsLoaded;
    hide LoadedList;
    hide ListNames;
    hide Names;
    assert Inside(st) == st.(rest := st.rest[1..], depth := st.depth + 1);
    hide *;
    Opens(o, st, t, tail);
    ListIsLeftToClose(o, st, BeginNode(o, st).value, ParseItems(o, Inside(st)).value);
    ListEndLoads(o, st, t, tail);
  }

  lemma {:induction false} ListLoads(o: Options, st: State, t: Tree, tail: seq<Item>)
    requires t.List? && st.rest == TreeEvents(t) + tail
    requires Ready(o, st, Names(t)) && Fits(o, t, o.maxNestingDepth - st.depth)
    ensures ParseNode(o, st) == Ok(Parsed(AsLoaded(o, t), After(st, Names(t), tail)))
    decreases t, 0
  {
    hide SchemaRegex.TableTag;
    hide BeginNode;
    hide ParseNode;
    hide ListNames;
    hide ListFits;
    hide ListEvents;
    hide LoadedList;
    hide Name;
    hide After;
    hide Ready;
    hide TreeEvents;
    hide AsLoaded;
    Opens(o, st, t, tail);
    var end := [Good(SequenceEnd, t.close)] + tail;
    ReadyInside(o, st, ListNames(t.elements), end, Name(t.props));
    ElementsLoad(o, Inside(st), t.elements, end);
    ListCloses(o, st, t, tail);
  }

  /** The start event opens an empty collection, one level deeper. */
  lemma Opens(o: Options, st: State, t: Tree, tail: seq<Item>)
    requires (t.Map? || t.List?) && st.rest == TreeEvents(t) + tail && Fits(o, t, o.maxNestingDepth - st.depth)
    ensures st.rest[1..] ==
            if t.Map? then PairsEvents(t.pairs) + ([Good(MappingEnd, t.close)] + tail)
            else ListEvents(t.elements) + ([Good(SequenceEnd, t.close)] + tail)
    ensures BeginNode(o, st) == Ok(Begun(
              if t.Map? then Mapping([], t.collectionStyle, t.props.tag, t.open, PropertiesMeta(t.props))
              else Sequence([], t.collectionStyle, t.props.tag, t.open, PropertiesMeta(t.props)),
              true, st.(rest := st.rest[1..], depth := st.depth + 1)))
  {
    hide SchemaRegex.TableTag;
    hide WithHash;
    hide PropertiesMeta;
    hide PairsEvents;
    hide ListEvents;
    FirstEvent(t, tail);
    assert st.depth + 1 <= o.maxNestingDepth;
    hide TreeEvents;
    hide Fits;
    hide CompleteNode;
    hide ResolveAlias;
  }

  lemma FirstEvent(t: Tree, tail: seq<Item>)
    requires t.Map? || t.List?
    ensures TreeEvents(t) + tail ==
            if t.Map? then
              [Good(MappingStart(t.collectionStyle, t.props), t.open)]
              + (PairsEvents(t.pairs) + ([Good(MappingEnd, t.close)] + tail))
            else
              [Good(SequenceStart(t.collectionStyle, t.props), t.open)]
              + (ListEvents(t.elements) + ([Good(SequenceEnd, t.close)] + tail))
  {
    hide PairsEvents;
    hide ListEvents;
  }

  lemma ReadyWithOther(o: Options, st: State, st1: State, names: set<string>)
    requires Ready(o, st, names) && st1 == st.(rest := st1.rest, depth := st1.depth)
    ensures Ready(o, st1, names)
  {
  }

  lemma AfterThroughCollection(
    st: State, st1: State, a: set<string>, x: seq<Item>, b: set<string>, tail: seq<Item>)
    requires st1 == st.(rest := st1.rest, depth := st.depth + 1)
    ensures After(After(st1, a, x).(rest := tail, depth := st.depth), b, tail) == After(st, a + b, tail)
    ensures After(st1, a, x).depth == st.depth + 1 && After(st1, a, x).rest == x
  {
    AfterTwice(st, a, x, b, tail);
    assert After(st1, a, x).(rest := tail, depth := st.depth).anchors == After(st, a, x).anchors;
  }

  /** The end event completes the collection, and its span runs to that event. */
  lemma CloseLoads(o: Options, st: State, n: Node, props: Properties, close: Span, tail: seq<Item>, loaded: Node)
    requires n.Mapping? || n.Sequence?
    requires n.meta == PropertiesMeta(props) && n.tag == props.tag
    requires st.rest == [Good(if n.Mapping? then MappingEnd else SequenceEnd, close)] + tail
    requires Ready(o, st, Name(props))
    requires loaded == n.WithLoc(Span(n.loc.start, close.end)).WithTagAndMeta(
                         LoaderTokens.CollectionTag(if n.Mapping? then MappingKind else SequenceKind, props.tag),
                         LoadedMeta(props))
    ensures FinishCollection(o, st, n) ==
            Ok(Parsed(loaded, After(st.(rest := tail, depth := st.depth - 1), Name(props), tail)))
  {
    hide CompleteNode;
    hide ApplySchema;
    hide After;
    hide LoadedMeta;
    hide LoaderTokens.CollectionTag;
    assert st.rest[1..] == tail;
    var at := n.WithLoc(Span(n.loc.start, close.end));
    var st1 := st.(rest := tail, depth := st.depth - 1);
    SchemaFillsTheTag(o, at, props);
    ReadyWithOther(o, st, st1, Name(props));
    Completes(o, st1, at, props, loaded, at.loc, tail);
  }

  /** One key and value without comments, then the others. */
  lemma BareEntryStep(o: Options, st: State, key: Parsed, value: Parsed)
    requires NextEntryOf(o, st, MappingKind) == Ok(Next(More(None), st))
    requires ParseNode(o, st) == Ok(key) && !StartsWithComment(key.st.rest)
    requires ParseNode(o, key.st) == Ok(value) && !StartsWithComment(value.st.rest)
    ensures var more := ParseEntries(o, value.st);
            ParseEntries(o, st) ==
            if more.Err? then Err(more.error)
            else Ok(ParsedEntries([Ast.Entry(key.node, value.node)] + more.value.entries, more.value.st))
  {
    hide *;
    EntriesStep(o, st);
    NothingToAttach(o, key.st, key.node);
    NothingToAttach(o, value.st, value.node);
    PrependIs([Ast.Entry(key.node, value.node)], ParseEntries(o, value.st));
  }

  lemma PrependIs(entries: seq<Ast.Entry>, r: LoadResult<ParsedEntries>)
    ensures PrependEntries(entries, r) ==
            if r.Err? then Err(r.error) else Ok(ParsedEntries(entries + r.value.entries, r.value.st))
  {
  }

  lemma {:induction false} FirstPairLoads(
    o: Options, st: State, pair: Pair, after: seq<Item>, names: set<string>)
    requires st.rest == TreeEvents(pair.key) + (TreeEvents(pair.value) + after) && !StartsWithComment(after)
    requires Ready(o, st, Names(pair.key) + (Names(pair.value) + names))
    requires Fits(o, pair.key, o.maxNestingDepth - st.depth) && Fits(o, pair.value, o.maxNestingDepth - st.depth)
    ensures var st1 := After(st, Names(pair.key) + Names(pair.value), after);
            && Ready(o, st1, names)
            && var more := ParseEntries(o, st1);
               ParseEntries(o, st) ==
               if more.Err? then Err(more.error)
               else Ok(ParsedEntries([Ast.Entry(AsLoaded(o, pair.key), AsLoaded(o, pair.value))] + more.value.entries,
                 more.value.st))
    decreases pair
  {
    hide ParseNode;
    hide ParseEntries;
    hide NextEntryOf;
    hide AsLoaded;
    hide Fits;
    hide Names;
    hide After;
    hide Ready;
    var ks, vs := Names(pair.key), Names(pair.value);
    var middle := TreeEvents(pair.value) + after;
    FirstIsNode(pair.key, middle);
    FirstIsNode(pair.value, after);
    ReadyAfter(o, st, ks, middle, vs + names);
    ReadyIsQuiet(o, st, ks + (vs + names));
    NextIs(o, st, MappingKind);
    TreeLoads(o, st, pair.key, middle);
    var st1 := After(st, ks, middle);
    AfterKeeps(st, ks, middle);
    ReadyAfter(o, st1, vs, after, names);
    TreeLoads(o, st1, pair.value, after);
    AfterKeeps(st1, vs, after);
    BareEntryStep(o, st, Parsed(AsLoaded(o, pair.key), st1), Parsed(AsLoaded(o, pair.value), After(st1, vs, after)));
    AfterTwice(st, ks, middle, vs, after);
  }

  lemma NothingLeft(o: Options, st: State, names: set<string>)
    requires Ready(o, st, names) && names == {}
    ensures StartsWithEnd(st.rest, MappingKind) ==>
              ParseEntries(o, st) == Ok(ParsedEntries([], After(st, names, st.rest)))
    ensures StartsWithEnd(st.rest, SequenceKind) ==> ParseItems(o, st) == Ok(ParsedItems([], After(st, names, st.rest)))
  {
    hide NextEntryOf;
    hide ParseNode;
    hide After;
    NothingRegistered(st);
    if StartsWithEnd(st.rest, MappingKind) {
      NextIs(o, st, MappingKind);
    } else if StartsWithEnd(st.rest, SequenceKind) {
      NextIs(o, st, SequenceKind);
    }
  }

  lemma ReadyIsQuiet(o: Options, st: State, names: set<string>)
    requires Ready(o, st, names)
    ensures st.pending == []
  {
  }

  lemma PairsUnfold(o: Options, pairs: seq<Pair>, room: int, tail: seq<Item>)
    requires pairs != [] && StartsWithEnd(tail, MappingKind)
    ensures PairsEvents(pairs) + tail ==
            TreeEvents(pairs[0].key) + (TreeEvents(pairs[0].value) + (PairsEvents(pairs[1..]) + tail))
    ensures !StartsWithComment(PairsEvents(pairs[1..]) + tail)
    ensures PairsNames(pairs) == Names(pairs[0].key) + (Names(pairs[0].value) + PairsNames(pairs[1..]))
    ensures LoadedPairs(o, pairs) ==
            [Ast.Entry(AsLoaded(o, pairs[0].key), AsLoaded(o, pairs[0].value))] + LoadedPairs(o, pairs[1..])
    ensures PairsFit(o, pairs, room) ==>
              Fits(o, pairs[0].key, room) && Fits(o, pairs[0].value, room) && PairsFit(o, pairs[1..], room)
  {
    hide TreeEvents;
    hide Names;
    hide AsLoaded;
    hide Fits;
  }

  lemma {:induction false} PairsLoad(o: Options, st: State, pairs: seq<Pair>, tail: seq<Item>)
    requires st.rest == PairsEvents(pairs) + tail && StartsWithEnd(tail, MappingKind)
    requires Ready(o, st, PairsNames(pairs)) && PairsFit(o, pairs, o.maxNestingDepth - st.depth)
    ensures ParseEntries(o, st) == Ok(ParsedEntries(LoadedPairs(o, pairs), After(st, PairsNames(pairs), tail)))
    decreases pairs, 1
  {
    hide After;
    hide Ready;
    hide ParseEntries;
    hide TreeEvents;
    if pairs == [] {
      assert st.rest == tail;
      NothingLeft(o, st, {});
    } else {
      hide PairsEvents;
      hide PairsNames;
      hide PairsFit;
      hide LoadedPairs;
      var pair, more := pairs[0], pairs[1..];
      var names := Names(pair.key) + Names(pair.value);
      var after := PairsEvents(more) + tail;
      hide StartsWithEnd;
      hide Fits;
      hide Names;
      PairsUnfold(o, pairs, o.maxNestingDepth - st.depth, tail);
      FirstPairLoads(o, st, pair, after, PairsNames(more));
      assert PairsNames(pairs) == names + PairsNames(more);
      AfterKeeps(st, names, after);
      AfterTwice(st, names, after, PairsNames(more), tail);
      PairsLoad(o, After(st, names, after), more, tail);
    }
  }

  /** One item without comments, then the others. */
  lemma BareItemStep(o: Options, st: State, item: Parsed)
    requires NextEntryOf(o, st, SequenceKind) == Ok(Next(More(None), st))
    requires ParseNode(o, st) == Ok(item) && !StartsWithComment(item.st.rest)
    ensures var more := ParseItems(o, item.st);
            ParseItems(o, st) ==
            if more.Err? then Err(more.error) else Ok(ParsedItems([item.node] + more.value.items, more.value.st))
  {
    hide *;
    ItemsStep(o, st);
    NothingToAttach(o, item.st, item.node);
    PrependItemsIs([item.node], ParseItems(o, item.st));
  }

  lemma PrependItemsIs(items: seq<Node>, r: LoadResult<ParsedItems>)
    ensures PrependItems(items, r) ==
            if r.Err? then Err(r.error) else Ok(ParsedItems(items + r.value.items, r.value.st))
  {
  }

  lemma {:induction false} FirstElementLoads(
    o: Options, st: State, element: Tree, after: seq<Item>, names: set<string>)
    requires st.rest == TreeEvents(element) + after && !StartsWithComment(after)
    requires Ready(o, st, Names(element) + names) && Fits(o, element, o.maxNestingDepth - st.depth)
    ensures var st1 := After(st, Names(element), after);
            && Ready(o, st1, names)
            && var more := ParseItems(o, st1);
               ParseItems(o, st) ==
               if more.Err? then Err(more.error)
               else Ok(ParsedItems([AsLoaded(o, element)] + more.value.items, more.value.st))
    decreases element, 3
  {
    hide ParseNode;
    hide ParseItems;
    hide NextEntryOf;
    hide AsLoaded;
    hide Fits;
    hide Names;
    hide After;
    hide Ready;
    FirstIsNode(element, after);
    ReadyAfter(o, st, Names(element), after, names);
    ReadyIsQuiet(o, st, Names(element) + names);
    AfterKeeps(st, Names(element), after);
    NextIs(o, st, SequenceKind);
    TreeLoads(o, st, element, after);
    BareItemStep(o, st, Parsed(AsLoaded(o, element), After(st, Names(element), after)));
  }

  lemma FirstIsNode(t: Tree, after: seq<Item>)
    ensures var s := TreeEvents(t) + after;
            s != [] && s[0].Good? && IsNodeEvent(s[0].event) && !StartsWithComment(s)
  {
  }

  lemma ListUnfolds(o: Options, elements: seq<Tree>, room: int, tail: seq<Item>)
    requires elements != [] && StartsWithEnd(tail, SequenceKind)
    ensures ListEvents(elements) + tail == TreeEvents(elements[0]) + (ListEvents(elements[1..]) + tail)
    ensures !StartsWithComment(ListEvents(elements[1..]) + tail)
    ensures ListNames(elements) == Names(elements[0]) + ListNames(elements[1..])
    ensures LoadedList(o, elements) == [AsLoaded(o, elements[0])] + LoadedList(o, elements[1..])
    ensures ListFits(o, elements, room) ==> Fits(o, elements[0], room) && ListFits(o, elements[1..], room)
  {
    hide TreeEvents;
    hide Names;
    hide AsLoaded;
    hide Fits;
  }

  lemma {:induction false} ElementsLoad(o: Options, st: State, elements: seq<Tree>, tail: seq<Item>)
    requires st.rest == ListEvents(elements) + tail && StartsWithEnd(tail, SequenceKind)
    requires Ready(o, st, ListNames(elements)) && ListFits(o, elements, o.maxNestingDepth - st.depth)
    ensures ParseItems(o, st) == Ok(ParsedItems(LoadedList(o, elements), After(st, ListNames(elements), tail)))
    decreases elements, 1
  {
    hide After;
    hide Ready;
    hide ParseItems;
    hide TreeEvents;
    if elements == [] {
      assert st.rest == tail;
      NothingLeft(o, st, {});
    } else {
      hide ListEvents;
      hide ListNames;
      hide ListFits;
      hide LoadedList;
      var element, more := elements[0], elements[1..];
      var after := ListEvents(more) + tail;
      ListUnfolds(o, elements, o.maxNestingDepth - st.depth, tail);
      FirstElementLoads(o, st, element, after, ListNames(more));
      AfterKeeps(st, Names(element), after);
      AfterTwice(st, Names(element), after, ListNames(more), tail);
      ElementsLoad(o, After(st, Names(element), after), more, tail);
    }
  }

  lemma AfterKeeps(st: State, names: set<string>, rest: seq<Item>)
    ensures After(st, names, rest).rest == rest && After(st, names, rest).depth == st.depth
  {
  }

  // ----- Documents -----

  /** A document as it is written: its markers, its directives and its tree. */
  datatype Written = Written(
    tree: Tree, explicitStart: bool, version: Option<(nat, nat)>, tags: seq<(string, string)>, startSpan: Span,
    explicitEnd: bool, endSpan: Span)

  function StartEvent(w: Written): Event {
    DocumentStart(w.explicitStart, w.version, w.tags)
  }

  function WrittenEvents(documents: seq<Written>): seq<Item> {
    if documents == [] then []
    else
      var w := documents[0];
      [Good(StartEvent(w), w.startSpan)]
      + (TreeEvents(w.tree) + ([Good(DocumentEnd(w.explicitEnd), w.endSpan)] + WrittenEvents(documents[1..])))
  }

  function StreamOf(documents: seq<Written>, start: Span, end: Span): seq<Item> {
    [Good(StreamStart, start)] + (WrittenEvents(documents) + [Good(StreamEnd, end)])
  }

  function LoadedDocument(o: Options, w: Written): Document {
    Document(AsLoaded(o, w.tree), w.version, w.tags, [], [], [], [], w.explicitStart, w.explicitEnd)
  }

  function LoadedDocuments(o: Options, documents: seq<Written>): seq<Document> {
    if documents == [] then [] else [LoadedDocument(o, documents[0])] + LoadedDocuments(o, documents[1..])
  }

  predicate WithinLimits(o: Options, w: Written) {
    Fits(o, w.tree, o.maxNestingDepth) && |Names(w.tree)| <= o.maxAnchors
  }

  lemma ResetIsReady(o: Options, st: State, names: set<string>)
    requires o.mode.Lossless? && |names| <= o.maxAnchors
    ensures Ready(o, Reset(st), names)
  {
    assert Reset(st).anchors.Keys + names == names;
  }

  lemma RunIsEmpty(rest: seq<Item>)
    requires !StartsWithComment(rest)
    ensures CommentRun(rest) == 0 && rest[0..] == rest && Texts(RawComments(rest[..0])) == []
  {
  }

  lemma DocumentEnds(o: Options, parsed: Parsed, w: Written, rest: seq<Item>)
    requires parsed.st.rest == [Good(DocumentEnd(w.explicitEnd), w.endSpan)] + rest && parsed.st.pending == []
    requires parsed.node == AsLoaded(o, w.tree)
    ensures EndDocument(o, parsed, StartEvent(w), [], []) ==
            Ok(LoaderSpec.LoadedDocument(LoadedDocument(o, w), parsed.st.(rest := rest)))
  {
    hide AsLoaded;
    NothingToAttach(o, parsed.st, parsed.node);
    hide FinishValue;
    RunIsEmpty(parsed.st.rest);
    hide CommentRun;
    hide RawComments;
    assert parsed.st.rest[1..] == rest;
    assert parsed.st.pending + Texts(RawComments(parsed.st.rest[..0])) == [];
    assert parsed.st.(rest := rest, pending := []) == parsed.st.(rest := rest);
  }

  lemma DocumentLoads(o: Options, st: State, w: Written, rest: seq<Item>)
    requires o.mode.Lossless? && st.depth == 0 && WithinLimits(o, w)
    requires st.rest == TreeEvents(w.tree) + ([Good(DocumentEnd(w.explicitEnd), w.endSpan)] + rest)
    ensures var r := LoadDocument(o, st, StartEvent(w), []);
            r.Ok? && r.value.document == LoadedDocument(o, w) && r.value.st.rest == rest && r.value.st.depth == 0
  {
    hide AsLoaded;
    hide TreeEvents;
    hide Fits;
    hide Names;
    hide Ready;
    hide ParseNode;
    hide EndDocument;
    var after := [Good(DocumentEnd(w.explicitEnd), w.endSpan)] + rest;
    FirstIsNode(w.tree, after);
    RunIsEmpty(st.rest);
    var st1 := Reset(st).(rest := st.rest[0..]);
    ResetIsReady(o, st, Names(w.tree));
    ReadyWithOther(o, Reset(st), st1, Names(w.tree));
    TreeLoads(o, st1, w.tree, after);
    AfterIsQuiet(o, st1, Names(w.tree), after);
    DocumentEnds(o, Parsed(AsLoaded(o, w.tree), After(st1, Names(w.tree), after)), w, rest);
  }

  lemma AfterIsQuiet(o: Options, st: State, names: set<string>, rest: seq<Item>)
    requires Ready(o, st, names)
    ensures var s := After(st, names, rest); s.rest == rest && s.depth == st.depth && s.pending == []
  {
    hide Registered;
  }

  lemma {:induction false} DocumentsLoad(o: Options, st: State, documents: seq<Written>, end: Span)
    requires o.mode.Lossless? && st.depth == 0
    requires forall w :: w in documents ==> WithinLimits(o, w)
    requires st.rest == WrittenEvents(documents) + [Good(StreamEnd, end)]
    ensures var r := LoadDocuments(o, st, []);
            r.Ok? && r.value.documents == LoadedDocuments(o, documents) && r.value.outside == []
              && r.value.st.rest == []
    decreases |documents|
  {
    hide LoadDocument;
    hide LoadedDocument;
    hide WithinLimits;
    hide TreeEvents;
    if documents != [] {
      var w, more := documents[0], documents[1..];
      var rest := WrittenEvents(more) + [Good(StreamEnd, end)];
      var st1 := st.(rest := st.rest[1..]);
      assert st1.rest == TreeEvents(w.tree) + ([Good(DocumentEnd(w.explicitEnd), w.endSpan)] + rest);
      DocumentLoads(o, st1, w, rest);
      DocumentsLoad(o, LoadDocument(o, st1, StartEvent(w), []).value.st, more, end);
    }
  }

  /** Whole streams: what is written within the limits is what is loaded. */
  lemma {:induction false} RoundTrip(o: Options, documents: seq<Written>, start: Span, end: Span)
    requires o.mode.Lossless?
    requires forall w :: w in documents ==> WithinLimits(o, w)
    ensures var r := Run(o, StreamOf(documents, start, end));
            r.Ok? && r.value.documents == LoadedDocuments(o, documents) && r.value.st.rest == []
  {
    hide LoadDocuments;
    hide LoadedDocument;
    hide WithinLimits;
    var stream := StreamOf(documents, start, end);
    assert stream[1..] == WrittenEvents(documents) + [Good(StreamEnd, end)];
    DocumentsLoad(o, InitialState(stream[1..]), documents, end);
    NothingToGive(o, documents);
  }

  lemma NothingToGive(o: Options, documents: seq<Written>)
    ensures GiveToLast(LoadedDocuments(o, documents), []) == LoadedDocuments(o, documents)
  {
    hide AsLoaded;
    if documents != [] {
      LastIsQuiet(o, documents);
      var all := LoadedDocuments(o, documents);
      assert all[|all| - 1].(afterEndComments := []) == all[|all| - 1];
    }
  }

  lemma {:induction false} LastIsQuiet(o: Options, documents: seq<Written>)
    requires documents != []
    ensures |LoadedDocuments(o, documents)| == |documents|
    ensures LoadedDocuments(o, documents)[|documents| - 1].afterEndComments == []
  {
    hide AsLoaded;
    if |documents| > 1 {
      LastIsQuiet(o, documents[1..]);
    }
  }
}
