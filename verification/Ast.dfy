/** The YAML tree: nodes, their comments, and documents. */
module Ast {
  import opened Wrappers
  import opened Events

  datatype Meta = Meta(
    anchor: Option<string>,
    anchorLoc: Option<Span>,
    tagLoc: Option<Span>,
    leading: Option<seq<string>>,
    trailing: Option<string>)
  {
    /** A metadata record with nothing in it is not stored. */
    function IntoOption(): Option<Meta> {
      if this == Meta(None, None, None, None, None) then None else Some(this)
    }
  }

  datatype Entry = Entry(key: Node, value: Node)

  datatype Node =
    | Scalar(value: string, style: ScalarStyle, tag: Option<string>, loc: Span, meta: Option<Meta>)
    | Mapping(entries: seq<Entry>, collectionStyle: CollectionStyle, tag: Option<string>, loc: Span, meta: Option<Meta>)
    | Sequence(items: seq<Node>, collectionStyle: CollectionStyle, tag: Option<string>, loc: Span, meta: Option<Meta>)
    | Alias(name: string, loc: Span, leading: Option<seq<string>>, trailing: Option<string>)
  {
    function Anchor(): Option<string> {
      if Alias? || meta.None? then None else meta.value.anchor
    }

    function AnchorLoc(): Option<Span> {
      if Alias? || meta.None? then None else meta.value.anchorLoc
    }

    function LeadingComments(): seq<string> {
      var comments := if Alias? then leading else if meta.None? then None else meta.value.leading;
      if comments.Some? then comments.value else []
    }

    function TrailingComment(): Option<string> {
      if Alias? then trailing else if meta.None? then None else meta.value.trailing
    }

    /** The comments attached to the node itself, not to the nodes inside it. */
    function OwnComments(): multiset<string> {
      multiset(LeadingComments()) + (if TrailingComment().Some? then multiset{TrailingComment().value} else multiset{})
    }

    function WithLoc(at: Span): Node {
      match this
      case Scalar(v, s, t, _, m) => Node.Scalar(v, s, t, at, m)
      case Mapping(e, s, t, _, m) => Mapping(e, s, t, at, m)
      case Sequence(i, s, t, _, m) => Sequence(i, s, t, at, m)
      case Alias(n, _, l, t) => Node.Alias(n, at, l, t)
    }

    function WithTagAndMeta(newTag: Option<string>, newMeta: Option<Meta>): Node {
      match this
      case Scalar(v, s, _, l, _) => Node.Scalar(v, s, newTag, l, newMeta)
      case Mapping(e, s, _, l, _) => Mapping(e, s, newTag, l, newMeta)
      case Sequence(i, s, _, l, _) => Sequence(i, s, newTag, l, newMeta)
      case Alias(_, _, _, _) => this
    }

    function MetaOrEmpty(): Meta
      requires !Alias?
    {
      if meta.Some? then meta.value else Meta(None, None, None, None, None)
    }
  }

  datatype Document = Document(
    root: Node,
    version: Option<(nat, nat)>,
    tags: seq<(string, string)>,
    prefixComments: seq<string>,
    comments: seq<string>,
    endComments: seq<string>,
    afterEndComments: seq<string>,
    explicitStart: bool,
    explicitEnd: bool)

  const EMPTY_SCALAR := Node.Scalar("", Plain, None, Span(0, 0), None)

  // ----- Attaching and removing comments -----

  function AttachLeading(n: Node, comments: seq<string>): Node {
    if comments == [] then n
    else if n.Alias? then n.(leading := Some(comments))
    else n.WithTagAndMeta(n.tag, Some(n.MetaOrEmpty().(leading := Some(comments))))
  }

  function AttachTrailing(n: Node, comment: string): Node {
    if n.Alias? then n.(trailing := Some(comment))
    else n.WithTagAndMeta(n.tag, Some(n.MetaOrEmpty().(trailing := Some(comment))))
  }

  function MetaWithoutComments(meta: Option<Meta>): Option<Meta> {
    if meta.None? then None else meta.value.(leading := None, trailing := None).IntoOption()
  }

  /** A deep copy without any comment, on the node or inside it. */
  function CloneWithoutComments(n: Node): Node {
    match n
    case Scalar(value, style, tag, loc, meta) => Node.Scalar(value, style, tag, loc, MetaWithoutComments(meta))
    case Mapping(entries, style, tag, loc, meta) =>
      Mapping(CloneEntries(entries), style, tag, loc, MetaWithoutComments(meta))
    case Sequence(items, style, tag, loc, meta) =>
      Sequence(CloneItems(items), style, tag, loc, MetaWithoutComments(meta))
    case Alias(name, loc, _, _) => Node.Alias(name, loc, None, None)
  }

  function CloneEntries(entries: seq<Entry>): seq<Entry> {
    if entries == [] then []
    else
      assert entries[0].key < entries[0];
      [Entry(CloneWithoutComments(entries[0].key), CloneWithoutComments(entries[0].value))] + CloneEntries(entries[1..])
  }

  function CloneItems(items: seq<Node>): seq<Node> {
    if items == [] then [] else [CloneWithoutComments(items[0])] + CloneItems(items[1..])
  }

  // ----- Measures of a tree -----

  /** All comments of a tree. */
  function Comments(n: Node): multiset<string> {
    n.OwnComments() + match n
      case Mapping(entries, _, _, _, _) => EntriesComments(entries)
      case Sequence(items, _, _, _, _) => ItemsComments(items)
      case _ => multiset{}
  }

  function EntriesComments(entries: seq<Entry>): multiset<string> {
    if entries == [] then multiset{}
    else
      assert entries[0].key < entries[0];
      Comments(entries[0].key) + Comments(entries[0].value) + EntriesComments(entries[1..])
  }

  function ItemsComments(items: seq<Node>): multiset<string> {
    if items == [] then multiset{} else Comments(items[0]) + ItemsComments(items[1..])
  }

  function NodeCount(n: Node): (count: nat)
    ensures count > 0
  {
    1 + match n
      case Mapping(entries, _, _, _, _) => EntriesCount(entries)
      case Sequence(items, _, _, _, _) => ItemsCount(items)
      case _ => 0
  }

  function EntriesCount(entries: seq<Entry>): nat {
    if entries == [] then 0
    else
      assert entries[0].key < entries[0];
      NodeCount(entries[0].key) + NodeCount(entries[0].value) + EntriesCount(entries[1..])
  }

  function ItemsCount(items: seq<Node>): nat {
    if items == [] then 0 else NodeCount(items[0]) + ItemsCount(items[1..])
  }

  predicate AliasFree(n: Node) {
    match n
    case Scalar(_, _, _, _, _) => true
    case Mapping(entries, _, _, _, _) => EntriesAliasFree(entries)
    case Sequence(items, _, _, _, _) => ItemsAliasFree(items)
    case Alias(_, _, _, _) => false
  }

  predicate EntriesAliasFree(entries: seq<Entry>) {
    if entries == [] then true
    else
      assert entries[0].key < entries[0];
      AliasFree(entries[0].key) && AliasFree(entries[0].value) && EntriesAliasFree(entries[1..])
  }

  predicate ItemsAliasFree(items: seq<Node>) {
    items == [] || (AliasFree(items[0]) && ItemsAliasFree(items[1..]))
  }

  /** The number of nested collections on the longest path. */
  function Height(n: Node): nat {
    match n
    case Mapping(entries, _, _, _, _) => 1 + EntriesHeight(entries)
    case Sequence(items, _, _, _, _) => 1 + ItemsHeight(items)
    case _ => 0
  }

  function EntriesHeight(entries: seq<Entry>): nat {
    if entries == [] then 0
    else
      assert entries[0].key < entries[0];
      Max(Max(Height(entries[0].key), Height(entries[0].value)), EntriesHeight(entries[1..]))
  }

  function ItemsHeight(items: seq<Node>): nat {
    if items == [] then 0 else Max(Height(items[0]), ItemsHeight(items[1..]))
  }

  function Max(a: nat, b: nat): nat {
    if a < b then b else a
  }
}
