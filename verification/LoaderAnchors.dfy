/**
 Anchors and aliases while a stream is loaded: the anchor map only ever holds
 trees without aliases and comments, so an expansion copies its anchor, costs
 its node count, and never meets a cycle.
 */
module LoaderAnchors {
  import opened Wrappers
  import opened Events
  import opened Schema
  import opened Ast
  import opened AstLemmas
  import opened LoaderSpec

  predicate PlainTree(n: Node) {
    AliasFree(n) && CloneWithoutComments(n) == n
  }

  predicate PlainAnchors(anchors: map<string, Node>) {
    forall name :: name in anchors ==> PlainTree(anchors[name])
  }

  /** What every reachable state of the loader satisfies. */
  predicate Sound(o: Options, st: State) {
    && PlainAnchors(st.anchors)
    && st.anchorCount == |st.anchors| <= o.maxAnchors
    && st.expanded <= o.maxExpandedNodes
  }

  /** What a loaded node satisfies when it leaves the function that built it. */
  predicate Finished(o: Options, st: State, n: Node, st': State) {
    && Sound(o, st')
    && st'.depth == st.depth
    && st.expanded <= st'.expanded
    && (o.mode.Resolved? ==> AliasFree(n))
  }

  // ----- Expansion -----

  /** Expanding a tree without aliases is a copy that costs its node count. */
  lemma {:induction false} ExpandAliasFree(
    o: Options, anchors: map<string, Node>, used: nat, n: Node, inProgress: set<string>, loc: Span)
    requires AliasFree(n)
    ensures Expand(o, anchors, used, n, inProgress, loc) ==
            if used + NodeCount(n) > o.maxExpandedNodes
            then Err(AliasExpansionLimitExceeded(o.maxExpandedNodes, o.PosAt(loc.start)))
            else Ok(Expansion(n, used + NodeCount(n)))
    decreases n
  {
    match n
    case Mapping(entries, _, _, _, _) =>
      if used + 1 <= o.maxExpandedNodes {
        ExpandAliasFreeEntries(o, anchors, used + 1, entries, inProgress, loc);
      }
    case Sequence(items, _, _, _, _) =>
      if used + 1 <= o.maxExpandedNodes {
        ExpandAliasFreeItems(o, anchors, used + 1, items, inProgress, loc);
      }
    case Scalar(_, _, _, _, _) =>
  }

  lemma {:induction false} ExpandAliasFreeEntries(
    o: Options, anchors: map<string, Node>, used: nat, entries: seq<Ast.Entry>, inProgress: set<string>, loc: Span)
    requires EntriesAliasFree(entries) && used <= o.maxExpandedNodes
    ensures ExpandEntries(o, anchors, used, entries, inProgress, loc) ==
            if used + EntriesCount(entries) > o.maxExpandedNodes
            then Err(AliasExpansionLimitExceeded(o.maxExpandedNodes, o.PosAt(loc.start)))
            else Ok(ExpandedEntries(entries, used + EntriesCount(entries)))
    decreases entries
  {
    if entries != [] {
      assert entries[0].key < entries[0];
      var k, v := entries[0].key, entries[0].value;
      ExpandAliasFree(o, anchors, used, k, inProgress, loc);
      if used + NodeCount(k) <= o.maxExpandedNodes {
        ExpandAliasFree(o, anchors, used + NodeCount(k), v, inProgress, loc);
        if used + NodeCount(k) + NodeCount(v) <= o.maxExpandedNodes {
          ExpandAliasFreeEntries(o, anchors, used + NodeCount(k) + NodeCount(v), entries[1..], inProgress, loc);
          assert [Ast.Entry(k, v)] + entries[1..] == entries;
        }
      }
    }
  }

  lemma {:induction false} ExpandAliasFreeItems(
    o: Options, anchors: map<string, Node>, used: nat, items: seq<Node>, inProgress: set<string>, loc: Span)
    requires ItemsAliasFree(items) && used <= o.maxExpandedNodes
    ensures ExpandItems(o, anchors, used, items, inProgress, loc) ==
            if used + ItemsCount(items) > o.maxExpandedNodes
            then Err(AliasExpansionLimitExceeded(o.maxExpandedNodes, o.PosAt(loc.start)))
            else Ok(ExpandedItems(items, used + ItemsCount(items)))
    decreases items
  {
    if items != [] {
      ExpandAliasFree(o, anchors, used, items[0], inProgress, loc);
      if used + NodeCount(items[0]) <= o.maxExpandedNodes {
        ExpandAliasFreeItems(o, anchors, used + NodeCount(items[0]), items[1..], inProgress, loc);
        assert [items[0]] + items[1..] == items;
      }
    }
  }

  /**
   For any anchor map, even a cyclic one, a successful expansion leaves no
   alias, and its cost covers every node it produced.
   */
  lemma {:induction false} ExpandRemovesAliases(
    o: Options, anchors: map<string, Node>, used: nat, n: Node, inProgress: set<string>, loc: Span)
    ensures var r := Expand(o, anchors, used, n, inProgress, loc);
            r.Ok? ==>
              AliasFree(r.value.node) && used + NodeCount(r.value.node) <= r.value.expanded <= o.maxExpandedNodes
    decreases anchors.Keys - inProgress, n
  {
    if used + 1 <= o.maxExpandedNodes {
      match n
      case Alias(name, at, _, _) =>
        if name !in inProgress && name in anchors {
          assert name in anchors.Keys - inProgress;
          ExpandRemovesAliases(o, anchors, used + 1, anchors[name], inProgress + {name}, at);
        }
      case Mapping(entries, _, _, _, _) =>
        ExpandRemovesEntryAliases(o, anchors, used + 1, entries, inProgress, loc);
      case Sequence(items, _, _, _, _) =>
        ExpandRemovesItemAliases(o, anchors, used + 1, items, inProgress, loc);
      case Scalar(_, _, _, _, _) =>
    }
  }

  lemma {:induction false} ExpandRemovesEntryAliases(
    o: Options, anchors: map<string, Node>, used: nat, entries: seq<Ast.Entry>, inProgress: set<string>, loc: Span)
    requires used <= o.maxExpandedNodes
    ensures var r := ExpandEntries(o, anchors, used, entries, inProgress, loc);
            r.Ok? ==> EntriesAliasFree(r.value.entries)
                      && used + EntriesCount(r.value.entries) <= r.value.expanded <= o.maxExpandedNodes
    decreases anchors.Keys - inProgress, entries
  {
    var r := ExpandEntries(o, anchors, used, entries, inProgress, loc);
    if entries != [] && r.Ok? {
      assert entries[0].key < entries[0];
      ExpandRemovesAliases(o, anchors, used, entries[0].key, inProgress, loc);
      var k := Expand(o, anchors, used, entries[0].key, inProgress, loc).value;
      ExpandRemovesAliases(o, anchors, k.expanded, entries[0].value, inProgress, loc);
      var v := Expand(o, anchors, k.expanded, entries[0].value, inProgress, loc).value;
      ExpandRemovesEntryAliases(o, anchors, v.expanded, entries[1..], inProgress, loc);
      assert r.value.entries[1..] == ExpandEntries(o, anchors, v.expanded, entries[1..], inProgress, loc).value.entries;
    }
  }

  lemma {:induction false} ExpandRemovesItemAliases(
    o: Options, anchors: map<string, Node>, used: nat, items: seq<Node>, inProgress: set<string>, loc: Span)
    requires used <= o.maxExpandedNodes
    ensures var r := ExpandItems(o, anchors, used, items, inProgress, loc);
            r.Ok? ==> ItemsAliasFree(r.value.items)
                      && used + ItemsCount(r.value.items) <= r.value.expanded <= o.maxExpandedNodes
    decreases anchors.Keys - inProgress, items
  {
    var r := ExpandItems(o, anchors, used, items, inProgress, loc);
    if items != [] && r.Ok? {
      ExpandRemovesAliases(o, anchors, used, items[0], inProgress, loc);
      var e := Expand(o, anchors, used, items[0], inProgress, loc).value;
      ExpandRemovesItemAliases(o, anchors, e.expanded, items[1..], inProgress, loc);
      assert r.value.items[1..] == ExpandItems(o, anchors, e.expanded, items[1..], inProgress, loc).value.items;
    }
  }

  // ----- Loading -----

  predicate SameChildren(n: Node, m: Node) {
    && (n.Mapping? ==> m.Mapping? && m.entries == n.entries)
    && (n.Sequence? ==> m.Sequence? && m.items == n.items)
    && (n.Scalar? ==> m.Scalar?)
    && (n.Alias? ==> m.Alias?)
  }

  /** Equal up to the tag and where it was written. */
  predicate SameButForTag(n: Node, m: Node) {
    && SameChildren(n, m)
    && (n.Scalar? ==> m.value == n.value && m.style == n.style)
    && (n.Mapping? || n.Sequence? ==> m.collectionStyle == n.collectionStyle)
    && (n.Alias? ==> m == n)
    && n.loc == m.loc
    && n.Anchor() == m.Anchor() && n.AnchorLoc() == m.AnchorLoc()
    && n.LeadingComments() == m.LeadingComments() && n.TrailingComment() == m.TrailingComment()
    && AliasFree(n) == AliasFree(m) && Comments(n) == Comments(m) && NodeCount(n) == NodeCount(m)
  }

  lemma SameAsItself(n: Node)
    ensures SameButForTag(n, n)
  {
  }

  lemma {:induction false} RetagKeepsTheRest(n: Node, tag: Option<string>, meta: Option<Meta>)
    requires !n.Alias?
    requires meta == n.meta || meta == ClearTagLoc(n.meta)
    ensures SameButForTag(n, n.WithTagAndMeta(tag, meta))
  {
    var m := n.WithTagAndMeta(tag, meta);
    assert n.LeadingComments() == m.LeadingComments() && n.TrailingComment() == m.TrailingComment();
    SameShape(n, m);
  }

  lemma {:induction false} SameShape(n: Node, m: Node)
    requires n.LeadingComments() == m.LeadingComments() && n.TrailingComment() == m.TrailingComment()
    requires SameChildren(n, m)
    ensures AliasFree(n) == AliasFree(m) && NodeCount(n) == NodeCount(m) && Comments(n) == Comments(m)
  {
  }

  /** The schema changes a node's tag and where that tag was written, no more. */
  lemma {:induction false} SchemaKeepsTheRest(o: Options, n: Node)
    ensures match ApplySchema(o, n)
            case Ok(r) => SameButForTag(n, r)
            case Err(e) => e.UnresolvedScalar?
  {
    hide ResolveScalar;
    hide ResolvedTag.Uri;
    hide SameButForTag;
    if !n.Alias? {
      forall tag, meta | meta == n.meta || meta == ClearTagLoc(n.meta) { RetagKeepsTheRest(n, tag, meta); }
    }
    SameAsItself(n);
  }

  lemma PlainNodeRelocates(n: Node, loc: Span)
    requires PlainTree(n)
    ensures CloneWithoutComments(n.WithLoc(loc)) == n.WithLoc(loc)
  {
  }

  lemma SoundAnywhere(o: Options, st: State, rest: seq<Item>)
    requires Sound(o, st)
    ensures Sound(o, st.(rest := rest))
  {
  }

  lemma StoringKeepsAnchorsPlain(anchors: map<string, Node>, name: string, n: Node)
    requires PlainAnchors(anchors) && PlainTree(n)
    ensures PlainAnchors(anchors[name := n])
    ensures |anchors[name := n]| == if name in anchors then |anchors| else |anchors| + 1
  {
    hide PlainTree;
    assert anchors[name := n].Keys == anchors.Keys + {name};
    assert |anchors[name := n]| == |anchors[name := n].Keys| && |anchors| == |anchors.Keys|;
  }

  lemma PlainCopies(n: Node)
    ensures PlainTree(EMPTY_SCALAR)
    ensures AliasFree(n) ==> PlainTree(CloneWithoutComments(n))
  {
    CloneKeepsTheTree(n);
  }

  lemma {:induction false} RegisterAnchorIsSound(o: Options, st: State, name: string, n: Node, span: Span)
    requires Sound(o, st)
    requires o.mode.Resolved? ==> AliasFree(n)
    ensures match RegisterAnchor(o, st, name, n, span)
            case Ok(st') => Sound(o, st') && st'.depth == st.depth && st.expanded <= st'.expanded
            case Err(e) => !e.CircularAlias?
  {
    hide PlainTree;
    hide PlainAnchors;
    hide CloneWithoutComments;
    PlainCopies(n);
    if o.mode.Resolved? {
      StoringKeepsAnchorsPlain(st.anchors, name, CloneWithoutComments(n));
    } else {
      StoringKeepsAnchorsPlain(st.anchors, name, EMPTY_SCALAR);
    }
  }

  lemma {:induction false} CompleteNodeIsSound(o: Options, st: State, n: Node, span: Span)
    requires Sound(o, st)
    requires o.mode.Resolved? ==> AliasFree(n)
    ensures match CompleteNode(o, st, n, span)
            case Ok(p) => Finished(o, st, p.node, p.st)
            case Err(e) => !e.CircularAlias?
  {
    hide ApplySchema;
    hide RegisterAnchor;
    hide Sound;
    SchemaKeepsTheRest(o, n);
    var node := ApplySchema(o, n);
    if node.Ok? && node.value.Anchor().Some? {
      var anchorSpan := if node.value.AnchorLoc().Some? then node.value.AnchorLoc().value else span;
      RegisterAnchorIsSound(o, st, node.value.Anchor().value, node.value, anchorSpan);
    }
  }

  ghost predicate BeginsSound(o: Options, st: State, r: LoadResult<Begun>) {
    match r
    case Err(e) => !e.CircularAlias?
    case Ok(b) =>
      if b.follow then Sound(o, b.st) && b.st.depth == st.depth + 1 <= o.maxNestingDepth && b.st.expanded == st.expanded
      else Finished(o, st, b.node, b.st)
  }

  lemma {:induction false} ResolveAliasIsSound(o: Options, st: State, name: string, loc: Span)
    requires Sound(o, st)
    ensures match ResolveAlias(o, st, name, loc)
            case Ok(p) => Finished(o, st, p.node, p.st)
            case Err(e) => !e.CircularAlias?
  {
    hide Expand;
    if o.mode.Resolved? && name in st.anchors {
      ExpandAliasFree(o, st.anchors, st.expanded, st.anchors[name], {}, loc);
    }
  }

  lemma {:induction false} BeginEventIsSound(o: Options, st: State, event: Event, span: Span)
    requires Sound(o, st)
    ensures BeginsSound(o, st, BeginEvent(o, st, event, span))
  {
    hide CompleteNode;
    hide ResolveAlias;
    hide PropertiesMeta;
    match event
    case Scalar(value, style, props) =>
      CompleteNodeIsSound(o, st, Node.Scalar(value, style, props.tag, span, PropertiesMeta(props)), span);
    case Alias(name) => ResolveAliasIsSound(o, st, name, span);
    case _ =>
  }

  lemma {:induction false} BeginNodeIsSound(o: Options, st: State)
    requires Sound(o, st)
    ensures BeginsSound(o, st, BeginNode(o, st))
    decreases |st.rest|
  {
    hide BeginEvent;
    if !StartsWithClosing(st.rest) && st.rest != [] && st.rest[0].Good? {
      var Good(event, span) := st.rest[0];
      var st1 := st.(rest := st.rest[1..]);
      if event.Comment? {
        var k := CommentRun(st1.rest);
        BeginNodeIsSound(o, st1.(
          rest := st1.rest[k..],
          pending := st1.pending + [WithHash(event.text)] + Texts(RawComments(st1.rest[..k]))));
      } else {
        BeginEventIsSound(o, st1, event, span);
      }
    }
  }

  lemma NextEntryIsSound(o: Options, st: State, kind: CollectionKind)
    requires Sound(o, st)
    ensures var r := NextEntryOf(o, st, kind);
            r.Ok? ==> Sound(o, r.value.st) && r.value.st.depth == st.depth && r.value.st.expanded == st.expanded
  {
  }

  lemma {:induction false} ParseNodeIsSound(o: Options, st: State)
    requires Sound(o, st)
    ensures match ParseNode(o, st)
            case Ok(p) => Finished(o, st, p.node, p.st)
            case Err(e) => !e.CircularAlias?
    decreases |st.rest|, 0
  {
    BeginNodeIsSound(o, st);
    var b := BeginNode(o, st);
    if b.Ok? && b.value.follow {
      match b.value.node
      case Mapping(_, style, tag, loc, meta) =>
        ParseEntriesIsSound(o, b.value.st);
        var p := ParseEntries(o, b.value.st);
        if p.Ok? {
          FinishCollectionIsSound(o, p.value.st, Mapping(p.value.entries, style, tag, loc, meta));
        }
      case Sequence(_, style, tag, loc, meta) =>
        ParseItemsIsSound(o, b.value.st);
        var p := ParseItems(o, b.value.st);
        if p.Ok? {
          FinishCollectionIsSound(o, p.value.st, Sequence(p.value.items, style, tag, loc, meta));
        }
    }
  }

  lemma FinishCollectionIsSound(o: Options, st: State, n: Node)
    requires Sound(o, st)
    requires o.mode.Resolved? ==> AliasFree(n)
    ensures match FinishCollection(o, st, n)
            case Ok(p) => Finished(o, st.(depth := st.depth - 1), p.node, p.st)
            case Err(e) => !e.CircularAlias?
  {
    hide CompleteNode;
    hide PlainAnchors;
    var ends := StartsWithEnd(st.rest, MappingKind) || StartsWithEnd(st.rest, SequenceKind);
    var loc := if ends then n.loc.(end := st.rest[0].span.end) else n.loc;
    var st1 := st.(rest := if ends then st.rest[1..] else st.rest, depth := st.depth - 1);
    CompleteNodeIsSound(o, st1, n.WithLoc(loc), loc);
  }

  /** Attaching comments touches neither the anchors nor the shape of the node. */
  lemma FinishIsSound(o: Options, st: State, n: Node, comments: Option<EntryComments>)
    requires Sound(o, st)
    ensures var p := FinishKey(o, st, n, comments);
            Sound(o, p.st) && p.st.depth == st.depth && p.st.expanded == st.expanded
              && AliasFree(p.node) == AliasFree(n)
    ensures var p := FinishItem(o, st, n, comments);
            Sound(o, p.st) && p.st.depth == st.depth && p.st.expanded == st.expanded
              && AliasFree(p.node) == AliasFree(n)
    ensures var p := FinishValue(o, st, n);
            Sound(o, p.st) && p.st.depth == st.depth && p.st.expanded == st.expanded
              && AliasFree(p.node) == AliasFree(n)
  {
  }

  lemma {:induction false} ParseEntriesIsSound(o: Options, st: State)
    requires Sound(o, st)
    ensures match ParseEntries(o, st)
            case Ok(p) => Sound(o, p.st) && p.st.depth == st.depth && st.expanded <= p.st.expanded
                          && (o.mode.Resolved? ==> EntriesAliasFree(p.entries))
            case Err(e) => !e.CircularAlias?
    decreases |st.rest|, 1
  {
    var next := NextEntryOf(o, st, MappingKind);
    if next.Ok? && next.value.entry.More? {
      ParseNodeIsSound(o, next.value.st);
      var k := ParseNode(o, next.value.st);
      if k.Ok? {
        FinishIsSound(o, k.value.st, k.value.node, next.value.entry.comments);
        var key := FinishKey(o, k.value.st, k.value.node, next.value.entry.comments);
        ParseNodeIsSound(o, key.st);
        var v := ParseNode(o, key.st);
        if v.Ok? {
          FinishIsSound(o, v.value.st, v.value.node, None);
          var value := FinishValue(o, v.value.st, v.value.node);
          ParseEntriesIsSound(o, value.st);
          var more := ParseEntries(o, value.st);
          if more.Ok? {
            assert ([Ast.Entry(key.node, value.node)] + more.value.entries)[1..] == more.value.entries;
          }
        }
      }
    }
  }

  lemma {:induction false} ParseItemsIsSound(o: Options, st: State)
    requires Sound(o, st)
    ensures match ParseItems(o, st)
            case Ok(p) => Sound(o, p.st) && p.st.depth == st.depth && st.expanded <= p.st.expanded
                          && (o.mode.Resolved? ==> ItemsAliasFree(p.items))
            case Err(e) => !e.CircularAlias?
    decreases |st.rest|, 1
  {
    var next := NextEntryOf(o, st, SequenceKind);
    if next.Ok? && next.value.entry.More? {
      ParseNodeIsSound(o, next.value.st);
      var i := ParseNode(o, next.value.st);
      if i.Ok? {
        FinishIsSound(o, i.value.st, i.value.node, next.value.entry.comments);
        var item := FinishItem(o, i.value.st, i.value.node, next.value.entry.comments);
        ParseItemsIsSound(o, item.st);
        var more := ParseItems(o, item.st);
        if more.Ok? {
          assert ([item.node] + more.value.items)[1..] == more.value.items;
        }
      }
    }
  }

  lemma ResetIsSound(o: Options, st: State)
    ensures Sound(o, Reset(st))
  {
  }

  lemma {:induction false} ParseRootIsSound(o: Options, st: State)
    requires Sound(o, st)
    ensures match ParseRoot(o, st)
            case Ok(p) => Finished(o, st, p.node, p.st)
            case Err(e) => !e.CircularAlias?
  {
    hide ApplySchema;
    hide ParseNode;
    SchemaKeepsTheRest(o, EMPTY_SCALAR);
    ParseNodeIsSound(o, st);
  }

  lemma {:induction false} LoadDocumentIsSound(o: Options, st: State, start: Event, outside: seq<string>)
    requires start.DocumentStart?
    ensures match LoadDocument(o, st, start, outside)
            case Ok(d) =>
              && (o.mode.Resolved? ==> AliasFree(d.document.root))
              && d.st.depth == st.depth
              && d.st.expanded <= o.maxExpandedNodes
            case Err(e) => !e.CircularAlias?
  {
    hide ParseRoot;
    hide AliasFree;
    hide PlainAnchors;
    hide FinishValue;
    ResetIsSound(o, st);
    var st1 := Reset(st).(rest := st.rest[CommentRun(st.rest)..]);
    ParseRootIsSound(o, st1);
    var parsed := ParseRoot(o, st1);
    if parsed.Ok? {
      FinishIsSound(o, parsed.value.st, parsed.value.node, None);
    }
  }

  /**
   Every run: the nesting depth returns to where it started, no run reports a
   circular alias, and a resolved document has no alias left.
   */
  lemma {:induction false} LoadDocumentsIsSound(o: Options, st: State, outside: seq<string>)
    ensures match LoadDocuments(o, st, outside)
            case Ok(l) =>
              && l.st.depth == st.depth
              && (o.mode.Resolved? ==> forall i :: 0 <= i < |l.documents| ==> AliasFree(l.documents[i].root))
            case Err(e) => !e.CircularAlias?
    decreases |st.rest|
  {
    hide LoadDocument;
    hide AliasFree;
    if st.rest != [] && st.rest[0].Good? {
      var event := st.rest[0].event;
      var st1 := st.(rest := st.rest[1..]);
      if event.DocumentStart? {
        LoadDocumentIsSound(o, st1, event, outside);
        var d := LoadDocument(o, st1, event, outside);
        if d.Ok? {
          LoadDocumentsIsSound(o, d.value.st, []);
        }
      } else if event.Comment? {
        LoadDocumentsIsSound(o, st1, outside + [WithHash(event.text)]);
      } else if !event.StreamEnd? && !IsNodeEvent(event) {
        LoadDocumentsIsSound(o, st1, outside);
      }
    }
  }

  lemma {:induction false} RunIsSound(o: Options, stream: seq<Item>)
    ensures match Run(o, stream)
            case Ok(l) =>
              && l.st.depth == 0
              && (o.mode.Resolved? ==> forall i :: 0 <= i < |l.documents| ==> AliasFree(l.documents[i].root))
            case Err(e) => !e.CircularAlias?
  {
    hide AliasFree;
    LoadDocumentsIsSound(o, InitialState(if stream == [] then [] else stream[1..]), []);
  }
}
