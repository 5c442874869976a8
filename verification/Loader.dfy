/**
 The event-to-tree loader as it runs: `LoadState` updates its anchor map, its
 counters and its pending comments while it advances the event stream.  Every
 method does what the function of the same name in `LoaderSpec` says.
 */
module Loader {
  import opened Wrappers
  import opened Events
  import opened Schema
  import opened Ast
  import opened LoaderSpec

  lemma OneMoreComment(all: seq<Item>, i: nat)
    requires i < CommentRun(all)
    ensures RawComments(all[..i + 1]) ==
            RawComments(all[..i]) + [RawComment(WithHash(all[i].event.text), all[i].span.start)]
    ensures all[i..][0] == all[i] && all[i..][1..] == all[i + 1..]
  {
  }

  /** The peekable event stream. */
  class EventStream {
    var rest: seq<Item>

    constructor (items: seq<Item>)
      ensures rest == items
    {
      rest := items;
    }

    method Next() returns (item: Option<Item>)
      modifies this
      ensures old(rest) == [] ==> item == None && rest == []
      ensures old(rest) != [] ==> item == Some(old(rest)[0]) && rest == old(rest)[1..]
    {
      if rest == [] {
        item := None;
      } else {
        item := Some(rest[0]);
        rest := rest[1..];
      }
    }

    /** Read the run of comments in front. */
    method ConsumeLeadingComments() returns (comments: seq<RawComment>)
      modifies this
      ensures var k := CommentRun(old(rest));
              comments == RawComments(old(rest)[..k]) && rest == old(rest)[k..]
    {
      comments := [];
      ghost var all := rest;
      ghost var i := 0;
      assert all[0..] == all;
      while StartsWithComment(rest)
        invariant 0 <= i <= CommentRun(all) && rest == all[i..]
        invariant i + CommentRun(rest) == CommentRun(all)
        invariant comments == RawComments(all[..i])
        decreases |rest|
      {
        OneMoreComment(all, i);
        comments := comments + [RawComment(WithHash(rest[0].event.text), rest[0].span.start)];
        rest := rest[1..];
        i := i + 1;
      }
    }
  }

  ghost function PrependExpandedEntries(
    entries: seq<Ast.Entry>, r: LoadResult<ExpandedEntries>): LoadResult<ExpandedEntries>
  {
    if r.Err? then r else Ok(r.value.(entries := entries + r.value.entries))
  }

  ghost function PrependExpandedItems(items: seq<Node>, r: LoadResult<ExpandedItems>): LoadResult<ExpandedItems> {
    if r.Err? then r else Ok(r.value.(items := items + r.value.items))
  }

  lemma PrependNoExpandedEntries(r: LoadResult<ExpandedEntries>)
    ensures PrependExpandedEntries([], r) == r
  {
    assert r.Ok? ==> [] + r.value.entries == r.value.entries;
  }

  lemma PrependExpandedEntriesTwice(a: seq<Ast.Entry>, b: seq<Ast.Entry>, r: LoadResult<ExpandedEntries>)
    ensures PrependExpandedEntries(a, PrependExpandedEntries(b, r)) == PrependExpandedEntries(a + b, r)
  {
    assert r.Ok? ==> a + (b + r.value.entries) == a + b + r.value.entries;
  }

  lemma PrependNoExpandedItems(r: LoadResult<ExpandedItems>)
    ensures PrependExpandedItems([], r) == r
  {
    assert r.Ok? ==> [] + r.value.items == r.value.items;
  }

  lemma PrependExpandedItemsTwice(a: seq<Node>, b: seq<Node>, r: LoadResult<ExpandedItems>)
    ensures PrependExpandedItems(a, PrependExpandedItems(b, r)) == PrependExpandedItems(a + b, r)
  {
    assert r.Ok? ==> a + (b + r.value.items) == a + b + r.value.items;
  }

  lemma PrependNoEntries(r: LoadResult<ParsedEntries>)
    ensures PrependEntries([], r) == r
  {
    assert r.Ok? ==> [] + r.value.entries == r.value.entries;
  }

  lemma PrependEntriesTwice(a: seq<Ast.Entry>, b: seq<Ast.Entry>, r: LoadResult<ParsedEntries>)
    ensures PrependEntries(a, PrependEntries(b, r)) == PrependEntries(a + b, r)
  {
    assert r.Ok? ==> a + (b + r.value.entries) == a + b + r.value.entries;
  }

  lemma PrependNoItems(r: LoadResult<ParsedItems>)
    ensures PrependItems([], r) == r
  {
    assert r.Ok? ==> [] + r.value.items == r.value.items;
  }

  lemma PrependItemsTwice(a: seq<Node>, b: seq<Node>, r: LoadResult<ParsedItems>)
    ensures PrependItems(a, PrependItems(b, r)) == PrependItems(a + b, r)
  {
    assert r.Ok? ==> a + (b + r.value.items) == a + b + r.value.items;
  }

  class LoadState {
    const options: Options
    var anchorMap: map<string, Node>
    var anchorCount: nat
    var depth: int
    var expandedNodes: nat
    var pendingLeading: seq<string>

    constructor (options: Options)
      ensures this.options == options
      ensures anchorMap == map[] && anchorCount == 0 && depth == 0 && expandedNodes == 0 && pendingLeading == []
    {
      this.options := options;
      anchorMap := map[];
      anchorCount := 0;
      depth := 0;
      expandedNodes := 0;
      pendingLeading := [];
    }

    /** The state that the specification speaks about. */
    ghost function View(s: EventStream): State
      reads this, s
    {
      State(s.rest, anchorMap, anchorCount, depth, expandedNodes, pendingLeading)
    }

    // ----- Anchors and aliases -----

    method RegisterAnchor(s: EventStream, name: string, node: Node, anchorSpan: Span) returns (r: LoadResult<()>)
      modifies this
      ensures var spec := LoaderSpec.RegisterAnchor(options, old(View(s)), name, node, anchorSpan);
              if spec.Err? then r == Err(spec.error) else r.Ok? && View(s) == spec.value
    {
      var pos := options.PosAt(anchorSpan.start);
      if name !in anchorMap {
        anchorCount := anchorCount + 1;
        if anchorCount > options.maxAnchors {
          return Err(AnchorCountLimitExceeded(options.maxAnchors, pos));
        }
      }
      if options.mode.Resolved? {
        expandedNodes := expandedNodes + 1;
        if expandedNodes > options.maxExpandedNodes {
          return Err(AliasExpansionLimitExceeded(options.maxExpandedNodes, pos));
        }
        anchorMap := anchorMap[name := CloneWithoutComments(node)];
      } else {
        anchorMap := anchorMap[name := EMPTY_SCALAR];
      }
      return Ok(());
    }

    method CompleteNode(s: EventStream, n: Node, span: Span) returns (r: LoadResult<Node>)
      modifies this
      ensures var spec := LoaderSpec.CompleteNode(options, old(View(s)), n, span);
              if spec.Err? then r == Err(spec.error) else r == Ok(spec.value.node) && View(s) == spec.value.st
    {
      var node :- ApplySchema(options, n);
      var anchor := node.Anchor();
      if anchor.Some? {
        var anchorSpan := if node.AnchorLoc().Some? then node.AnchorLoc().value else span;
        var _ :- RegisterAnchor(s, anchor.value, node, anchorSpan);
      }
      return Ok(node);
    }

    /** Expand a node; `inProgress` holds the names being expanded. */
    method ExpandNode(n: Node, inProgress: set<string>, aliasLoc: Span) returns (r: LoadResult<Node>)
      modifies this`expandedNodes
      ensures var spec := Expand(options, anchorMap, old(expandedNodes), n, inProgress, aliasLoc);
              if spec.Err? then r == Err(spec.error)
              else r == Ok(spec.value.node) && expandedNodes == spec.value.expanded
      decreases anchorMap.Keys - inProgress, n, 1
    {
      expandedNodes := expandedNodes + 1;
      if expandedNodes > options.maxExpandedNodes {
        return Err(AliasExpansionLimitExceeded(options.maxExpandedNodes, options.PosAt(aliasLoc.start)));
      }
      match n
      case Alias(name, loc, _, _) =>
        if name in inProgress {
          return Err(CircularAlias(name, options.PosAt(loc.start)));
        }
        if name !in anchorMap {
          return Err(UndefinedAlias(name, options.PosAt(loc.start)));
        }
        assert name in anchorMap.Keys - inProgress;
        var expanded :- ExpandNode(anchorMap[name], inProgress + {name}, loc);
        return Ok(expanded.WithLoc(loc));
      case Mapping(entries, style, tag, loc, meta) =>
        var expanded :- ExpandAllEntries(entries, inProgress, aliasLoc);
        return Ok(Mapping(expanded, style, tag, loc, meta));
      case Sequence(items, style, tag, loc, meta) =>
        var expanded :- ExpandAllItems(items, inProgress, aliasLoc);
        return Ok(Sequence(expanded, style, tag, loc, meta));
      case Scalar(_, _, _, _, _) =>
        return Ok(n);
    }

    method ExpandAllEntries(entries: seq<Ast.Entry>, inProgress: set<string>, aliasLoc: Span)
      returns (r: LoadResult<seq<Ast.Entry>>)
      modifies this`expandedNodes
      ensures var spec := ExpandEntries(options, anchorMap, old(expandedNodes), entries, inProgress, aliasLoc);
              if spec.Err? then r == Err(spec.error)
              else r == Ok(spec.value.entries) && expandedNodes == spec.value.expanded
      decreases anchorMap.Keys - inProgress, entries, 0
    {
      var expanded: seq<Ast.Entry> := [];
      var i := 0;
      assert entries[0..] == entries;
      PrependNoExpandedEntries(ExpandEntries(options, anchorMap, expandedNodes, entries, inProgress, aliasLoc));
      while i < |entries|
        invariant 0 <= i <= |entries|
        invariant ExpandEntries(options, anchorMap, old(expandedNodes), entries, inProgress, aliasLoc) ==
                  PrependExpandedEntries(
                    expanded, ExpandEntries(options, anchorMap, expandedNodes, entries[i..], inProgress, aliasLoc))
      {
        assert entries[i..][1..] == entries[i + 1..];
        assert entries[i].key < entries[i];
        var k :- ExpandNode(entries[i].key, inProgress, aliasLoc);
        var v :- ExpandNode(entries[i].value, inProgress, aliasLoc);
        PrependExpandedEntriesTwice(
          expanded, [Ast.Entry(k, v)],
          ExpandEntries(options, anchorMap, expandedNodes, entries[i + 1..], inProgress, aliasLoc));
        expanded := expanded + [Ast.Entry(k, v)];
        i := i + 1;
      }
      assert entries[i..] == [] && expanded + [] == expanded;
      return Ok(expanded);
    }

    method ExpandAllItems(items: seq<Node>, inProgress: set<string>, aliasLoc: Span) returns (r: LoadResult<seq<Node>>)
      modifies this`expandedNodes
      ensures var spec := ExpandItems(options, anchorMap, old(expandedNodes), items, inProgress, aliasLoc);
              if spec.Err? then r == Err(spec.error)
              else r == Ok(spec.value.items) && expandedNodes == spec.value.expanded
      decreases anchorMap.Keys - inProgress, items, 0
    {
      var expanded: seq<Node> := [];
      var i := 0;
      assert items[0..] == items;
      PrependNoExpandedItems(ExpandItems(options, anchorMap, expandedNodes, items, inProgress, aliasLoc));
      while i < |items|
        invariant 0 <= i <= |items|
        invariant ExpandItems(options, anchorMap, old(expandedNodes), items, inProgress, aliasLoc) ==
                  PrependExpandedItems(
                    expanded, ExpandItems(options, anchorMap, expandedNodes, items[i..], inProgress, aliasLoc))
      {
        assert items[i..][1..] == items[i + 1..];
        var e :- ExpandNode(items[i], inProgress, aliasLoc);
        PrependExpandedItemsTwice(
          expanded, [e], ExpandItems(options, anchorMap, expandedNodes, items[i + 1..], inProgress, aliasLoc));
        expanded := expanded + [e];
        i := i + 1;
      }
      assert items[i..] == [] && expanded + [] == expanded;
      return Ok(expanded);
    }

    method ResolveAlias(s: EventStream, name: string, loc: Span) returns (r: LoadResult<Node>)
      modifies this
      ensures var spec := LoaderSpec.ResolveAlias(options, old(View(s)), name, loc);
              if spec.Err? then r == Err(spec.error) else r == Ok(spec.value.node) && View(s) == spec.value.st
    {
      match options.mode
      case Lossless =>
        return Ok(Node.Alias(name, loc, None, None));
      case Resolved =>
        if name !in anchorMap {
          return Err(UndefinedAlias(name, options.PosAt(loc.start)));
        }
        var expanded :- ExpandNode(anchorMap[name], {}, loc);
        return Ok(expanded.WithLoc(loc));
    }

    // ----- Comments -----

    /** Read the comments in front of a value into the pending ones. */
    method DrainIntoPending(s: EventStream)
      modifies this`pendingLeading, s
      ensures var k := CommentRun(old(s.rest));
              s.rest == old(s.rest)[k..]
              && pendingLeading == old(pendingLeading) + Texts(RawComments(old(s.rest)[..k]))
    {
      var comments := s.ConsumeLeadingComments();
      pendingLeading := pendingLeading + Texts(comments);
    }

    /** How many of the comments stand at or above `line`. */
    method PositionBelow(raw: seq<RawComment>, line: nat) returns (k: nat)
      ensures k == UpToLine(options, raw, line)
    {
      k := 0;
      assert raw[0..] == raw;
      while k < |raw| && options.Line(raw[k].start) <= line
        invariant k <= |raw|
        invariant UpToLine(options, raw, line) == k + UpToLine(options, raw[k..], line)
      {
        assert raw[k..][1..] == raw[k + 1..];
        k := k + 1;
      }
    }

    method SplitCommentsAfterEmptyNode(node: Node, raw: seq<RawComment>) returns (split: Split)
      ensures split == SplitComments(options, node, raw)
    {
      var at := |raw|;
      var end := PropertiesEnd(node);
      if end.Some? {
        at := PositionBelow(raw, options.Line(end.value));
      }
      split := Split(Texts(raw)[..at], Texts(raw)[at..]);
    }

    method AttachEntryComments(s: EventStream, node: Node, comments: Option<EntryComments>) returns (r: Node)
      modifies this`pendingLeading
      ensures Parsed(r, View(s)) == LoaderSpec.AttachEntryComments(options, old(View(s)), node, comments)
    {
      if comments.None? {
        return node;
      }
      var split := SplitCommentsAfterEmptyNode(node, comments.value.raw);
      r := AttachLeading(node, comments.value.inherited + split.before);
      pendingLeading := pendingLeading + split.after;
    }

    method AttachCommentOnLine(s: EventStream, node: Node, line: Option<nat>) returns (r: Node)
      modifies s
      ensures Attached(r, s.rest) == AttachOnLine(options, old(s.rest), node, line)
    {
      r := node;
      if StartsWithComment(s.rest) && line.Some? && options.Line(s.rest[0].span.start) == line.value {
        var comment := s.Next();
        r := AttachTrailing(node, WithHash(comment.value.event.text));
      }
    }

    method FinishKey(s: EventStream, key: Node, comments: Option<EntryComments>) returns (r: Node)
      modifies this`pendingLeading, s
      ensures Parsed(r, View(s)) == LoaderSpec.FinishKey(options, old(View(s)), key, comments)
    {
      r := AttachEntryComments(s, key, comments);
      r := AttachCommentOnLine(s, r, KeyCommentLine(options, r));
    }

    method FinishValue(s: EventStream, value: Node) returns (r: Node)
      modifies s
      ensures Parsed(r, View(s)) == LoaderSpec.FinishValue(options, old(View(s)), value)
    {
      r := AttachCommentOnLine(s, value, CommentLine(options, value));
    }

    method FinishItem(s: EventStream, item: Node, comments: Option<EntryComments>) returns (r: Node)
      modifies this`pendingLeading, s
      ensures Parsed(r, View(s)) == LoaderSpec.FinishItem(options, old(View(s)), item, comments)
    {
      r := AttachEntryComments(s, item, comments);
      r := FinishValue(s, r);
    }

    method FinishCollection(s: EventStream, node: Node) returns (r: LoadResult<Node>)
      modifies this, s
      ensures var spec := LoaderSpec.FinishCollection(options, old(View(s)), node);
              if spec.Err? then r == Err(spec.error) else r == Ok(spec.value.node) && View(s) == spec.value.st
    {
      hide LoaderSpec.CompleteNode;
      var loc := node.loc;
      if StartsWithEnd(s.rest, MappingKind) || StartsWithEnd(s.rest, SequenceKind) {
        loc := loc.(end := s.rest[0].span.end);
        var _ := s.Next();
      }
      depth := depth - 1;
      r := CompleteNode(s, node.WithLoc(loc), loc);
    }

    // ----- Nodes -----

    method EnterCollection(s: EventStream, span: Span) returns (r: LoadResult<()>)
      modifies this`depth
      ensures var spec := LoaderSpec.EnterCollection(options, old(View(s)), span);
              if spec.Err? then r == Err(spec.error) else r.Ok? && View(s) == spec.value
    {
      depth := depth + 1;
      if depth > options.maxNestingDepth {
        return Err(NestingDepthLimitExceeded(options.maxNestingDepth, options.PosAt(span.start)));
      }
      return Ok(());
    }

    method BeginEvent(s: EventStream, event: Event, span: Span) returns (r: LoadResult<(Node, bool)>)
      modifies this
      ensures var spec := LoaderSpec.BeginEvent(options, old(View(s)), event, span);
              if spec.Err? then r == Err(spec.error)
              else r == Ok((spec.value.node, spec.value.follow)) && View(s) == spec.value.st
    {
      match event
      case Scalar(value, style, props) =>
        var node :- CompleteNode(s, Node.Scalar(value, style, props.tag, span, PropertiesMeta(props)), span);
        return Ok((node, false));
      case MappingStart(style, props) =>
        var _ :- EnterCollection(s, span);
        return Ok((Mapping([], style, props.tag, span, PropertiesMeta(props)), true));
      case SequenceStart(style, props) =>
        var _ :- EnterCollection(s, span);
        return Ok((Sequence([], style, props.tag, span, PropertiesMeta(props)), true));
      case Alias(name) =>
        var node :- ResolveAlias(s, name, span);
        return Ok((node, false));
      case _ =>
        return Ok((EMPTY_SCALAR, false));
    }

    /** The node of the slot, and whether its children are still in the stream. */
    method BeginNode(s: EventStream) returns (r: LoadResult<(Node, bool)>)
      modifies this, s
      ensures var spec := LoaderSpec.BeginNode(options, old(View(s)));
              if spec.Err? then r == Err(spec.error)
              else r == Ok((spec.value.node, spec.value.follow)) && View(s) == spec.value.st
      decreases |s.rest|
    {
      hide LoaderSpec.BeginEvent;
      hide CommentRun;
      hide RawComments;
      hide Texts;
      if StartsWithClosing(s.rest) {
        return Ok((EMPTY_SCALAR, false));
      }
      var item := s.Next();
      match item
      case None => return Ok((EMPTY_SCALAR, false));
      case Some(Bad(error)) => return Err(Parse(error.pos, error.kind));
      case Some(Good(event, span)) =>
        if event.Comment? {
          pendingLeading := pendingLeading + [WithHash(event.text)];
          DrainIntoPending(s);
          r := BeginNode(s);
        } else {
          r := BeginEvent(s, event, span);
        }
    }

    method NextEntry(s: EventStream, kind: CollectionKind) returns (r: LoadResult<NextEntry>)
      modifies this`pendingLeading, s
      ensures var spec := NextEntryOf(options, old(View(s)), kind);
              if spec.Err? then r == Err(spec.error) else r == Ok(spec.value.entry) && View(s) == spec.value.st
    {
      var raw := s.ConsumeLeadingComments();
      var inherited := pendingLeading;
      pendingLeading := [];
      if s.rest == [] {
        return Err(UnexpectedEndOfStream);
      }
      match s.rest[0]
      case Bad(error) =>
        var _ := s.Next();
        return Err(Parse(error.pos, error.kind));
      case Good(event, span) =>
        if event.StreamEnd? {
          return Err(UnexpectedEndOfStream);
        }
        if StartsWithEnd(s.rest, kind) {
          var leading := inherited + Texts(raw);
          if leading != [] {
            pendingLeading := leading;
          }
          return Ok(Closed);
        }
        if StartsWithClosing(s.rest) {
          return Err(UnbalancedEnd(options, span));
        }
        if raw == [] && inherited == [] {
          return Ok(More(None));
        }
        return Ok(More(Some(EntryComments(raw, inherited))));
    }

    method ParseNode(s: EventStream) returns (r: LoadResult<Node>)
      modifies this, s
      ensures var spec := LoaderSpec.ParseNode(options, old(View(s)));
              if spec.Err? then r == Err(spec.error) else r == Ok(spec.value.node) && View(s) == spec.value.st
      decreases |s.rest|, 0
    {
      var begun :- BeginNode(s);
      var (node, follow) := begun;
      if !follow {
        return Ok(node);
      }
      match node
      case Mapping(_, style, tag, loc, meta) =>
        var entries :- ParseEntries(s);
        r := FinishCollection(s, Mapping(entries, style, tag, loc, meta));
      case Sequence(_, style, tag, loc, meta) =>
        var items :- ParseItems(s);
        r := FinishCollection(s, Sequence(items, style, tag, loc, meta));
    }

    method ParseEntries(s: EventStream) returns (r: LoadResult<seq<Ast.Entry>>)
      modifies this, s
      ensures var spec := LoaderSpec.ParseEntries(options, old(View(s)));
              if spec.Err? then r == Err(spec.error) else r == Ok(spec.value.entries) && View(s) == spec.value.st
      decreases |s.rest|, 1
    {
      hide LoaderSpec.ParseNode;
      hide NextEntryOf;
      hide LoaderSpec.FinishKey;
      hide LoaderSpec.FinishValue;
      hide LoaderSpec.ParseEntries;
      var entries: seq<Ast.Entry> := [];
      PrependNoEntries(LoaderSpec.ParseEntries(options, View(s)));
      while true
        invariant LoaderSpec.ParseEntries(options, old(View(s))) ==
                  PrependEntries(entries, LoaderSpec.ParseEntries(options, View(s)))
        invariant |s.rest| <= old(|s.rest|)
        decreases |s.rest|
      {
        EntriesStep(options, View(s));
        var next :- NextEntry(s, MappingKind);
        if next.Closed? {
          assert entries + [] == entries;
          return Ok(entries);
        }
        entries := entries + [Ast.Entry(EMPTY_SCALAR, EMPTY_SCALAR)];
        var last := |entries| - 1;
        var key :- ParseNode(s);
        key := FinishKey(s, key, next.comments);
        entries := entries[last := entries[last].(key := key)];
        var value :- ParseNode(s);
        value := FinishValue(s, value);
        entries := entries[last := entries[last].(value := value)];
        assert entries == entries[..last] + [Ast.Entry(key, value)];
        PrependEntriesTwice(entries[..last], [Ast.Entry(key, value)], LoaderSpec.ParseEntries(options, View(s)));
      }
      assert false;
    }

    method ParseItems(s: EventStream) returns (r: LoadResult<seq<Node>>)
      modifies this, s
      ensures var spec := LoaderSpec.ParseItems(options, old(View(s)));
              if spec.Err? then r == Err(spec.error) else r == Ok(spec.value.items) && View(s) == spec.value.st
      decreases |s.rest|, 1
    {
      hide LoaderSpec.ParseNode;
      hide NextEntryOf;
      hide LoaderSpec.FinishItem;
      hide LoaderSpec.ParseItems;
      var items: seq<Node> := [];
      PrependNoItems(LoaderSpec.ParseItems(options, View(s)));
      while true
        invariant LoaderSpec.ParseItems(options, old(View(s))) ==
                  PrependItems(items, LoaderSpec.ParseItems(options, View(s)))
        invariant |s.rest| <= old(|s.rest|)
        decreases |s.rest|
      {
        ItemsStep(options, View(s));
        var next :- NextEntry(s, SequenceKind);
        if next.Closed? {
          assert items + [] == items;
          return Ok(items);
        }
        items := items + [EMPTY_SCALAR];
        var last := |items| - 1;
        var item :- ParseNode(s);
        item := FinishItem(s, item, next.comments);
        items := items[last := item];
        assert items == items[..last] + [item];
        PrependItemsTwice(items[..last], [item], LoaderSpec.ParseItems(options, View(s)));
      }
      assert false;
    }

    // ----- Documents -----

    method ResetForDocument()
      modifies this
      ensures anchorMap == map[] && anchorCount == 0 && expandedNodes == 0 && pendingLeading == []
              && depth == old(depth)
    {
      anchorMap := map[];
      anchorCount := 0;
      expandedNodes := 0;
      pendingLeading := [];
    }

    method ParseRoot(s: EventStream) returns (r: LoadResult<Node>)
      modifies this, s
      ensures var spec := LoaderSpec.ParseRoot(options, old(View(s)));
              if spec.Err? then r == Err(spec.error) else r == Ok(spec.value.node) && View(s) == spec.value.st
    {
      if StartsWithDocumentEnd(s.rest) {
        r := ApplySchema(options, EMPTY_SCALAR);
      } else {
        r := ParseNode(s);
      }
    }

    method EndDocument(s: EventStream, parsed: Node, start: Event, outside: seq<string>, comments: seq<string>)
      returns (r: LoadResult<Document>)
      requires start.DocumentStart?
      modifies this`pendingLeading, s
      ensures var spec := LoaderSpec.EndDocument(options, Parsed(parsed, old(View(s))), start, outside, comments);
              if spec.Err? then r == Err(spec.error) else r == Ok(spec.value.document) && View(s) == spec.value.st
    {
      var root := FinishValue(s, parsed);
      var after := s.ConsumeLeadingComments();
      var endComments := pendingLeading + Texts(after);
      pendingLeading := [];
      if StartsWithEnd(s.rest, MappingKind) || StartsWithEnd(s.rest, SequenceKind) {
        return Err(UnbalancedEnd(options, s.rest[0].span));
      }
      if StartsWithNode(s.rest) {
        return Err(MisplacedNode(options, s.rest[0].span));
      }
      var explicitEnd := false;
      if s.rest != [] && s.rest[0].Good? && s.rest[0].event.DocumentEnd? {
        explicitEnd := s.rest[0].event.explicitEnd;
        var _ := s.Next();
      }
      return Ok(Document(
        root, start.version, start.tagDirectives, outside, comments, endComments, [], start.explicitStart,
        explicitEnd));
    }

    method LoadDocument(s: EventStream, start: Event, outside: seq<string>) returns (r: LoadResult<Document>)
      requires start.DocumentStart?
      modifies this, s
      ensures var spec := LoaderSpec.LoadDocument(options, old(View(s)), start, outside);
              if spec.Err? then r == Err(spec.error) else r == Ok(spec.value.document) && View(s) == spec.value.st
    {
      ResetForDocument();
      var comments := s.ConsumeLeadingComments();
      var root :- ParseRoot(s);
      r := EndDocument(s, root, start, outside, Texts(comments));
    }

    /** Load a whole stream.  The loop takes one event at a time. */
    method Run(s: EventStream) returns (r: LoadResult<seq<Document>>)
      requires anchorMap == map[] && anchorCount == 0 && depth == 0 && expandedNodes == 0 && pendingLeading == []
      modifies this, s
      ensures var spec := LoaderSpec.Run(options, old(s.rest));
              if spec.Err? then r == Err(spec.error) else r == Ok(spec.value.documents) && View(s) == spec.value.st
    {
      var documents: seq<Document> := [];
      var first := s.Next();
      if first.Some? && first.value.Bad? {
        return Err(Parse(first.value.error.pos, first.value.error.kind));
      }
      var outside: seq<string> := [];
      hide LoaderSpec.LoadDocument;
      hide LoadDocuments;
      hide IsNodeEvent;
      hide MisplacedNode;
      hide WithHash;
      RunFails(options, old(s.rest));
      hide LoaderSpec.Run;
      ghost var all := LoadDocuments(options, View(s), []);
      PrependNoDocuments(all);
      while true
        invariant all == PrependDocuments(documents, LoadDocuments(options, View(s), outside))
        decreases |s.rest|
      {
        DocumentsStep(options, View(s), outside);
        var item := s.Next();
        match item
        case None => break;
        case Some(Bad(error)) => return Err(Parse(error.pos, error.kind));
        case Some(Good(event, span)) =>
          if event.StreamEnd? {
            break;
          } else if event.DocumentStart? {
            var document :- LoadDocument(s, event, outside);
            PrependDocumentsTwice(documents, [document], LoadDocuments(options, View(s), []));
            documents := documents + [document];
            outside := [];
          } else if event.Comment? {
            outside := outside + [WithHash(event.text)];
          } else if IsNodeEvent(event) {
            return Err(MisplacedNode(options, span));
          }
      }
      RunEnds(options, old(s.rest), documents, outside, View(s));
      if documents != [] {
        var last := |documents| - 1;
        documents := documents[last := documents[last].(afterEndComments := outside)];
      }
      return Ok(documents);
    }
  }

  lemma RunFails(o: Options, stream: seq<Item>)
    requires stream == [] || stream[0].Good?
    ensures var all := LoadDocuments(o, InitialState(if stream == [] then [] else stream[1..]), []);
            all.Err? ==> LoaderSpec.Run(o, stream) == Err(all.error)
  {
    hide LoadDocuments;
  }

  lemma RunEnds(o: Options, stream: seq<Item>, documents: seq<Document>, outside: seq<string>, st: LoaderSpec.State)
    requires stream == [] || stream[0].Good?
    requires LoadDocuments(o, InitialState(if stream == [] then [] else stream[1..]), []) ==
             PrependDocuments(documents, Ok(Loaded([], outside, st)))
    ensures LoaderSpec.Run(o, stream) == Ok(Loaded(GiveToLast(documents, outside), outside, st))
  {
    hide LoadDocuments;
    assert documents + [] == documents;
  }

  /** One round of the loop over the events outside documents. */
  lemma DocumentsStep(o: Options, st: LoaderSpec.State, outside: seq<string>)
    ensures st.rest == [] ==> LoadDocuments(o, st, outside) == Ok(Loaded([], outside, st))
    ensures st.rest != [] && st.rest[0].Bad? ==>
              LoadDocuments(o, st, outside) == Err(Parse(st.rest[0].error.pos, st.rest[0].error.kind))
    ensures st.rest != [] && st.rest[0].Good? ==>
              var event, st1 := st.rest[0].event, st.(rest := st.rest[1..]);
              var all := LoadDocuments(o, st, outside);
              if event.StreamEnd? then all == Ok(Loaded([], outside, st1))
              else if event.DocumentStart? then
                var d := LoaderSpec.LoadDocument(o, st1, event, outside);
                if d.Err? then all == Err(d.error)
                else all == PrependDocuments([d.value.document], LoadDocuments(o, d.value.st, []))
              else if event.Comment? then all == LoadDocuments(o, st1, outside + [WithHash(event.text)])
              else if IsNodeEvent(event) then all == Err(MisplacedNode(o, st.rest[0].span))
              else all == LoadDocuments(o, st1, outside)
  {
    hide LoaderSpec.LoadDocument;
  }

  ghost function PrependDocuments(documents: seq<Document>, r: LoadResult<Loaded>): LoadResult<Loaded> {
    if r.Err? then r else Ok(r.value.(documents := documents + r.value.documents))
  }

  lemma PrependNoDocuments(r: LoadResult<Loaded>)
    ensures PrependDocuments([], r) == r
  {
    assert r.Ok? ==> [] + r.value.documents == r.value.documents;
  }

  lemma PrependDocumentsTwice(a: seq<Document>, b: seq<Document>, r: LoadResult<Loaded>)
    ensures PrependDocuments(a, PrependDocuments(b, r)) == PrependDocuments(a + b, r)
  {
    assert r.Ok? ==> a + (b + r.value.documents) == a + b + r.value.documents;
  }
}
