/**
 When every alias settles, read off the stream: no alias has a comment in front
 of it below the properties of an empty node of its name, and each stands on one
 line.
 */
module LoaderTidy {
  import opened Wrappers
  import opened Events
  import opened Schema
  import opened Ast
  import opened AstLemmas
  import opened LoaderSpec
  import opened LoaderAnchors
  import opened AliasSemantics
  import opened AliasPlacement
  import opened LoaderResolved
  import opened LoaderStream
  import opened LoaderPlacement

  /** The node that a scalar event gives. */
  function ScalarOf(o: Options, item: Item): LoadResult<Node>
    requires item.Good? && item.event.Scalar?
  {
    var Scalar(value, style, props) := item.event;
    ApplySchema(o, Node.Scalar(value, style, props.tag, item.span, PropertiesMeta(props)))
  }

  predicate IsNamedScalar(item: Item, name: string) {
    item.Good? && item.event.Scalar? && item.event.props.anchor == Some(name)
  }

  /** The item is a scalar of this name, empty, with properties that end there. */
  predicate IsEmptyNode(o: Options, item: Item, name: string, end: nat) {
    IsNamedScalar(item, name) && ScalarOf(o, item).Ok? && PropertiesEnd(ScalarOf(o, item).value) == Some(end)
  }

  ghost predicate HasEmptyNode(o: Options, stream: seq<Item>, name: string, end: nat) {
    exists j :: 0 <= j < |stream| && IsEmptyNode(o, stream[j], name, end)
  }

  /** The alias is written on one line. */
  predicate OnOneLine(o: Options, span: Span) {
    NodeEndLine(o, Node.Alias("", span, None, None)) == Some(o.Line(span.start))
  }

  /** No comment stands below the properties of an empty node of this name. */
  ghost predicate NoneBelow(o: Options, stream: seq<Item>, name: string, comments: seq<Item>)
    requires forall h :: 0 <= h < |comments| ==> comments[h].Good?
  {
    forall end, h :: HasEmptyNode(o, stream, name, end) && 0 <= h < |comments| ==>
      o.Line(comments[h].span.start) <= o.Line(end)
  }

  /** Where `rest` begins: an alias behind the comments there, if there is one, is tidy. */
  ghost predicate TidyAt(o: Options, stream: seq<Item>, rest: seq<Item>) {
    var k := CommentRun(rest);
    k < |rest| && rest[k].Good? && rest[k].event.Alias? ==>
      OnOneLine(o, rest[k].span) && NoneBelow(o, stream, rest[k].event.name, rest[..k])
  }

  /** Every alias of the stream is tidy, with the comments in front of it. */
  ghost predicate IsTidy(o: Options, stream: seq<Item>) {
    forall rest :: IsSuffix(rest, stream) ==> TidyAt(o, stream, rest)
  }

  // ----- Where empty nodes come from -----

  /** Every empty node with a name in the tree was written in the stream. */
  ghost predicate IsWritten(o: Options, stream: seq<Item>, n: Node) {
    match n
    case Scalar(_, _, _, _, _) =>
      n.Anchor().Some? && PropertiesEnd(n).Some? ==> HasEmptyNode(o, stream, n.Anchor().value, PropertiesEnd(n).value)
    case Mapping(entries, _, _, _, _) => AreEntriesWritten(o, stream, entries)
    case Sequence(items, _, _, _, _) => AreItemsWritten(o, stream, items)
    case Alias(_, _, _, _) => true
  }

  ghost predicate AreEntriesWritten(o: Options, stream: seq<Item>, entries: seq<Ast.Entry>) {
    if entries == [] then true
    else
      assert entries[0].key < entries[0];
      && IsWritten(o, stream, entries[0].key) && IsWritten(o, stream, entries[0].value)
      && AreEntriesWritten(o, stream, entries[1..])
  }

  ghost predicate AreItemsWritten(o: Options, stream: seq<Item>, items: seq<Node>) {
    items == [] || (IsWritten(o, stream, items[0]) && AreItemsWritten(o, stream, items[1..]))
  }

  /** Every empty node that a name stands for was written in the stream. */
  ghost predicate AreNamesWritten(o: Options, stream: seq<Item>, env: Env) {
    forall name :: name in env.anchors && PropertiesEnd(env.anchors[name]).Some? ==>
      HasEmptyNode(o, stream, name, PropertiesEnd(env.anchors[name]).value)
  }

  lemma DressIsWritten(o: Options, stream: seq<Item>, n: Node, leading: seq<string>, trailing: Option<string>)
    requires IsWritten(o, stream, n)
    ensures IsWritten(o, stream, Dress(n, leading, trailing))
  {
    hide HasEmptyNode;
  }

  lemma CloneKeepsTheEnd(n: Node)
    ensures PropertiesEnd(CloneWithoutComments(n)) == PropertiesEnd(n)
  {
  }

  lemma DefineIsWritten(o: Options, stream: seq<Item>, n: Node, env: Env)
    requires AreNamesWritten(o, stream, env)
    requires n.Scalar? ==> IsWritten(o, stream, n)
    requires !n.Alias?
    ensures var d := Define(o, CloneWithoutComments(n), env); d.Ok? ==> AreNamesWritten(o, stream, d.value.env)
  {
    hide HasEmptyNode;
    hide CloneWithoutComments;
    CloneKeepsTheEnd(n);
    CloneKeepsAnchor(n);
  }

  /** Completing the nodes of a written tree keeps that. */
  lemma {:induction false} KeepIsWritten(o: Options, stream: seq<Item>, n: Node, env: Env)
    requires IsWritten(o, stream, n) && AreNamesWritten(o, stream, env)
    ensures var k := KeepNode(o, n, env); k.Ok? ==> AreNamesWritten(o, stream, k.value.env)
    decreases n
  {
    hide HasEmptyNode;
    hide Define;
    hide CloneWithoutComments;
    hide Dress;
    match n
    case Scalar(_, _, _, _, _) => DefineIsWritten(o, stream, n, env);
    case Alias(_, _, _, _) =>
    case Mapping(entries, style, tag, loc, meta) =>
      KeepEntriesIsWritten(o, stream, entries, env);
      var r := KeepEntries(o, entries, env);
      if r.Ok? {
        DefineIsWritten(o, stream, Mapping(r.value.entries, style, tag, loc, meta), r.value.env);
      }
    case Sequence(items, style, tag, loc, meta) =>
      KeepItemsIsWritten(o, stream, items, env);
      var r := KeepItems(o, items, env);
      if r.Ok? {
        DefineIsWritten(o, stream, Sequence(r.value.items, style, tag, loc, meta), r.value.env);
      }
  }

  lemma {:induction false} KeepEntriesIsWritten(o: Options, stream: seq<Item>, entries: seq<Ast.Entry>, env: Env)
    requires AreEntriesWritten(o, stream, entries) && AreNamesWritten(o, stream, env)
    ensures var k := KeepEntries(o, entries, env); k.Ok? ==> AreNamesWritten(o, stream, k.value.env)
    decreases entries
  {
    if entries != [] {
      assert entries[0].key < entries[0];
      hide AreNamesWritten;
      KeepIsWritten(o, stream, entries[0].key, env);
      var k := KeepNode(o, entries[0].key, env);
      if k.Ok? {
        KeepIsWritten(o, stream, entries[0].value, k.value.env);
        var v := KeepNode(o, entries[0].value, k.value.env);
        if v.Ok? {
          KeepEntriesIsWritten(o, stream, entries[1..], v.value.env);
        }
      }
    }
  }

  lemma {:induction false} KeepItemsIsWritten(o: Options, stream: seq<Item>, items: seq<Node>, env: Env)
    requires AreItemsWritten(o, stream, items) && AreNamesWritten(o, stream, env)
    ensures var k := KeepItems(o, items, env); k.Ok? ==> AreNamesWritten(o, stream, k.value.env)
    decreases items
  {
    if items != [] {
      hide AreNamesWritten;
      KeepIsWritten(o, stream, items[0], env);
      var i := KeepNode(o, items[0], env);
      if i.Ok? {
        KeepItemsIsWritten(o, stream, items[1..], i.value.env);
      }
    }
  }

  // ----- What is loaded is written -----

  lemma FirstIsInStream(rest: seq<Item>, stream: seq<Item>)
    requires IsSuffix(rest, stream) && rest != []
    ensures stream[|stream| - |rest|] == rest[0]
  {
  }

  lemma ScalarIsWritten(o: Options, stream: seq<Item>, rest: seq<Item>, st: State)
    requires IsSuffix(rest, stream) && rest != [] && rest[0].Good? && rest[0].event.Scalar?
    ensures var r := BeginEvent(InLossless(o), st, rest[0].event, rest[0].span);
            r.Ok? ==> r.value.node.Scalar? && IsWritten(o, stream, r.value.node)
  {
    hide ApplySchema;
    hide RegisterAnchor;
    hide PropertiesEnd;
    FirstIsInStream(rest, stream);
    var Scalar(value, style, props) := rest[0].event;
    var n := Node.Scalar(value, style, props.tag, rest[0].span, PropertiesMeta(props));
    SchemaInLossless(o, n);
    SchemaKeepsTheRest(o, n);
    SchemaKeepsTwins(InLossless(o), o.(mode := Resolved), n, n);
    CompleteNodeTouches(InLossless(o), st, n, rest[0].span);
    NewNodeHasItsAnchor(props, n);
    var j := |stream| - |rest|;
    var r := ApplySchema(o, n);
    if r.Ok? && r.value.Anchor().Some? && PropertiesEnd(r.value).Some? {
      assert IsEmptyNode(o, stream[j], r.value.Anchor().value, PropertiesEnd(r.value).value);
    }
  }

  lemma NewNodeHasItsAnchor(props: Properties, n: Node)
    requires !n.Alias? && n.meta == PropertiesMeta(props)
    ensures n.Anchor() == props.anchor
  {
  }

  /** A node that is not a collection is written where it stands, and an alias is the event there. */
  lemma LeafIsWritten(o: Options, stream: seq<Item>, st: State)
    requires IsSuffix(st.rest, stream)
    ensures var b := BeginNode(InLossless(o), st);
            var ahead := SkipComments(st.rest);
            b.Ok? && !b.value.follow ==>
              && IsWritten(o, stream, b.value.node)
              && (b.value.node.Alias? ==>
                && ahead != [] && ahead[0].Good? && ahead[0].event.Alias?
                && b.value.node == Node.Alias(ahead[0].event.name, ahead[0].span, None, None))
  {
    hide BeginEvent;
    hide CommentRun;
    hide HasEmptyNode;
    var k := CommentRun(st.rest);
    var d := Drained(st);
    DropIsSuffix(k, st.rest);
    SuffixOfSuffix(d.rest, st.rest, stream);
    hide IsSuffix;
    BeginNodeDrains(InLossless(o), st);
    DrainedHasNoComment(st);
    if d.rest != [] && d.rest[0].Good? {
      EventIsWritten(o, stream, d.rest, d.(rest := d.rest[1..]));
    }
  }

  lemma EventIsWritten(o: Options, stream: seq<Item>, rest: seq<Item>, st: State)
    requires IsSuffix(rest, stream) && rest != [] && rest[0].Good?
    ensures var b := BeginEvent(InLossless(o), st, rest[0].event, rest[0].span);
            b.Ok? && !b.value.follow ==>
              && IsWritten(o, stream, b.value.node)
              && (b.value.node.Alias? ==>
                && rest[0].event.Alias?
                && b.value.node == Node.Alias(rest[0].event.name, rest[0].span, None, None))
  {
    if rest[0].event.Scalar? {
      hide *;
      ScalarIsWritten(o, stream, rest, st);
    } else {
      hide CompleteNode;
      hide HasEmptyNode;
    }
  }

  lemma {:induction false} ParseNodeIsWritten(o: Options, stream: seq<Item>, st: State)
    requires IsSuffix(st.rest, stream)
    ensures var p := ParseNode(InLossless(o), st); p.Ok? ==> IsWritten(o, stream, p.value.node)
    decreases |st.rest|, 0
  {
    hide IsSuffix;
    hide BeginNode;
    hide FinishCollection;
    hide HasEmptyNode;
    LeafIsWritten(o, stream, st);
    BeginNodeSuffix(InLossless(o), st);
    var b := BeginNode(InLossless(o), st);
    if b.Ok? && b.value.follow {
      SuffixOfSuffix(b.value.st.rest, st.rest, stream);
      match b.value.node
      case Mapping(_, style, tag, loc, meta) =>
        ParseEntriesAreWritten(o, stream, b.value.st);
        var p := ParseEntries(InLossless(o), b.value.st);
        if p.Ok? {
          FinishKeepsChildren(InLossless(o), p.value.st, Mapping(p.value.entries, style, tag, loc, meta));
        }
      case Sequence(_, style, tag, loc, meta) =>
        ParseItemsAreWritten(o, stream, b.value.st);
        var p := ParseItems(InLossless(o), b.value.st);
        if p.Ok? {
          FinishKeepsChildren(InLossless(o), p.value.st, Sequence(p.value.items, style, tag, loc, meta));
        }
    }
  }

  /** Finishing a node leaves it written, and the stream behind it a rest of the stream. */
  lemma FinishIsWritten(o: Options, stream: seq<Item>, p: Parsed, comments: Option<EntryComments>)
    requires IsSuffix(p.st.rest, stream) && IsWritten(o, stream, p.node)
    ensures var k := FinishKey(InLossless(o), p.st, p.node, comments);
            IsSuffix(k.st.rest, stream) && IsWritten(o, stream, k.node)
    ensures var k := FinishItem(InLossless(o), p.st, p.node, comments);
            IsSuffix(k.st.rest, stream) && IsWritten(o, stream, k.node)
    ensures var k := FinishValue(InLossless(o), p.st, p.node);
            IsSuffix(k.st.rest, stream) && IsWritten(o, stream, k.node)
  {
    hide *;
    var l := InLossless(o);
    FinishSuffix(l, p.st, p.node, comments);
    SuffixOfSuffix(FinishKey(l, p.st, p.node, comments).st.rest, p.st.rest, stream);
    SuffixOfSuffix(FinishItem(l, p.st, p.node, comments).st.rest, p.st.rest, stream);
    SuffixOfSuffix(FinishValue(l, p.st, p.node).st.rest, p.st.rest, stream);
    FinishIsDressed(l, p, comments);
    forall leading, trailing ensures IsWritten(o, stream, Dress(p.node, leading, trailing)) {
      DressIsWritten(o, stream, p.node, leading, trailing);
    }
  }

  lemma FinishIsDressed(o: Options, p: Parsed, comments: Option<EntryComments>)
    ensures exists leading, trailing :: FinishKey(o, p.st, p.node, comments).node == Dress(p.node, leading, trailing)
    ensures exists leading, trailing :: FinishItem(o, p.st, p.node, comments).node == Dress(p.node, leading, trailing)
    ensures exists leading, trailing :: FinishValue(o, p.st, p.node).node == Dress(p.node, leading, trailing)
  {
    hide Dress;
    hide FinishKey;
    hide FinishItem;
    hide FinishValue;
    FinishIsDressing(o, p.st, p.node, comments);
  }

  lemma {:induction false} ParseEntriesAreWritten(o: Options, stream: seq<Item>, st: State)
    requires IsSuffix(st.rest, stream)
    ensures var p := ParseEntries(InLossless(o), st); p.Ok? ==> AreEntriesWritten(o, stream, p.value.entries)
    decreases |st.rest|, 1
  {
    hide IsSuffix;
    hide NextEntryOf;
    hide FinishKey;
    hide FinishValue;
    hide IsWritten;
    var l := InLossless(o);
    NextEntrySuffix(l, st, MappingKind);
    var next := NextEntryOf(l, st, MappingKind);
    if next.Ok? && next.value.entry.More? {
      SuffixOfSuffix(next.value.st.rest, st.rest, stream);
      var k := ParseNode(l, next.value.st);
      if k.Ok? {
        ParsedSuffix(o, stream, next.value.st);
        ParseNodeIsWritten(o, stream, next.value.st);
        FinishIsWritten(o, stream, k.value, next.value.entry.comments);
        var key := FinishKey(l, k.value.st, k.value.node, next.value.entry.comments);
        var v := ParseNode(l, key.st);
        if v.Ok? {
          ParsedSuffix(o, stream, key.st);
          ParseNodeIsWritten(o, stream, key.st);
          FinishIsWritten(o, stream, v.value, None);
          var value := FinishValue(l, v.value.st, v.value.node);
          ParseEntriesAreWritten(o, stream, value.st);
          var more := ParseEntries(l, value.st);
          if more.Ok? {
            assert ([Ast.Entry(key.node, value.node)] + more.value.entries)[1..] == more.value.entries;
          }
        }
      }
    }
  }

  lemma ParsedSuffix(o: Options, stream: seq<Item>, st: State)
    requires IsSuffix(st.rest, stream)
    ensures var p := ParseNode(InLossless(o), st); p.Ok? ==> IsSuffix(p.value.st.rest, stream)
  {
    hide *;
    ParseNodeSuffix(InLossless(o), st);
    var p := ParseNode(InLossless(o), st);
    if p.Ok? {
      SuffixOfSuffix(p.value.st.rest, st.rest, stream);
    }
  }

  lemma {:induction false} ParseItemsAreWritten(o: Options, stream: seq<Item>, st: State)
    requires IsSuffix(st.rest, stream)
    ensures var p := ParseItems(InLossless(o), st); p.Ok? ==> AreItemsWritten(o, stream, p.value.items)
    decreases |st.rest|, 1
  {
    hide IsSuffix;
    hide NextEntryOf;
    hide FinishItem;
    hide IsWritten;
    var l := InLossless(o);
    NextEntrySuffix(l, st, SequenceKind);
    var next := NextEntryOf(l, st, SequenceKind);
    if next.Ok? && next.value.entry.More? {
      SuffixOfSuffix(next.value.st.rest, st.rest, stream);
      var i := ParseNode(l, next.value.st);
      if i.Ok? {
        ParsedSuffix(o, stream, next.value.st);
        ParseNodeIsWritten(o, stream, next.value.st);
        FinishIsWritten(o, stream, i.value, next.value.entry.comments);
        var item := FinishItem(l, i.value.st, i.value.node, next.value.entry.comments);
        ParseItemsAreWritten(o, stream, item.st);
        var more := ParseItems(l, item.st);
        if more.Ok? {
          assert ([item.node] + more.value.items)[1..] == more.value.items;
        }
      }
    }
  }

  // ----- Tidy aliases settle -----

  lemma {:induction false} AllAboveStay(o: Options, raw: seq<RawComment>, line: nat)
    requires forall h :: 0 <= h < |raw| ==> o.Line(raw[h].start) <= line
    ensures UpToLine(o, raw, line) == |raw|
  {
    if raw != [] {
      AllAboveStay(o, raw[1..], line);
    }
  }

  /** The alias behind the comments at `rest`. */
  predicate IsAliasAt(rest: seq<Item>, n: Node) {
    var ahead := SkipComments(rest);
    && ahead != [] && ahead[0].Good? && ahead[0].event.Alias?
    && n == Node.Alias(ahead[0].event.name, ahead[0].span, None, None)
  }

  lemma OneLineTakesAlike(o: Options, n: Node, m: Node, rest: seq<Item>, asKey: bool)
    requires n.Alias? && m.loc == n.loc && OnOneLine(o, n.loc) && StartsWithComment(rest)
    ensures TakesComment(o, n, rest, asKey) == TakesComment(o, m, rest, asKey)
  {
    assert NodeEndLine(o, n) == NodeEndLine(o, Node.Alias("", n.loc, None, None));
  }

  lemma NoneMovesOn(o: Options, stream: seq<Item>, name: string, comments: seq<Item>, m: Node)
    requires forall h :: 0 <= h < |comments| ==> comments[h].Good? && comments[h].event.Comment?
    requires NoneBelow(o, stream, name, comments)
    requires PropertiesEnd(m).Some? ==> HasEmptyNode(o, stream, name, PropertiesEnd(m).value)
    ensures SplitComments(o, m, RawComments(comments)).after == []
  {
    hide HasEmptyNode;
    hide PropertiesEnd;
    var raw := RawComments(comments);
    if PropertiesEnd(m).Some? {
      var end := PropertiesEnd(m).value;
      forall h | 0 <= h < |raw| ensures o.Line(raw[h].start) <= o.Line(end) {
        assert o.Line(comments[h].span.start) <= o.Line(end);
      }
      AllAboveStay(o, raw, o.Line(end));
    }
  }

  lemma RelocatingKeepsTheEnd(n: Node, loc: Span)
    ensures PropertiesEnd(n.WithLoc(loc)) == PropertiesEnd(n) && n.WithLoc(loc).loc == loc
  {
  }

  lemma TidySettles(
    o: Options, stream: seq<Item>, at: seq<Item>, env: Env, n: Node, comments: Option<EntryComments>, rest: seq<Item>,
    asKey: bool)
    requires IsTidy(o, stream) && IsSuffix(at, stream) && AreNamesWritten(o, stream, env)
    requires n.Alias? ==> IsAliasAt(at, n)
    requires comments.Some? ==> comments.value.raw == RawComments(at[..CommentRun(at)])
    ensures Settles(o, env, n, comments, rest, asKey)
  {
    hide PropertiesEnd;
    hide HasEmptyNode;
    hide SplitComments;
    hide TakesComment;
    hide OnOneLine;
    hide IsSuffix;
    hide NoneBelow;
    hide RawComments;
    if n.Alias? && n.name in env.anchors {
      assert TidyAt(o, stream, at);
      var m := env.anchors[n.name].WithLoc(n.loc);
      RelocatingKeepsTheEnd(env.anchors[n.name], n.loc);
      var k := CommentRun(at);
      assert at[k] == SkipComments(at)[0];
      NoneMovesOn(o, stream, n.name, at[..k], m);
      if StartsWithComment(rest) {
        OneLineTakesAlike(o, n, m, rest, asKey);
      }
    }
  }

  lemma AliasIsAhead(o: Options, stream: seq<Item>, st: State)
    requires IsSuffix(st.rest, stream)
    ensures var p := ParseNode(InLossless(o), st);
            p.Ok? && p.value.node.Alias? ==> IsAliasAt(st.rest, p.value.node)
  {
    hide BeginNode;
    hide FinishCollection;
    hide IsSuffix;
    hide IsWritten;
    hide ParseEntries;
    hide ParseItems;
    hide CommentRun;
    LeafIsWritten(o, stream, st);
    ParseNodeSteps(InLossless(o), st);
    var b := BeginNode(InLossless(o), st);
    if b.Ok? && b.value.follow {
      RestIsNoAlias(InLossless(o), b.value);
    }
  }

  lemma RestIsNoAlias(o: Options, b: Begun)
    requires b.node.Mapping? || b.node.Sequence?
    ensures var p := ParseRest(o, b); p.Ok? ==> !p.value.node.Alias?
  {
    hide FinishCollection;
    hide ParseEntries;
    hide ParseItems;
    forall st, n { FinishKeepsChildren(o, st, n); }
  }

  /** The comments in hand for the next key or item are those in front of it. */
  lemma NextHasInHand(o: Options, st: State, kind: CollectionKind)
    ensures var next := NextEntryOf(o, st, kind);
            next.Ok? && next.value.entry.More? && next.value.entry.comments.Some? ==>
              next.value.entry.comments.value.raw == RawComments(st.rest[..CommentRun(st.rest)])
  {
    hide RawComments;
    hide Texts;
    hide CommentRun;
    hide UnbalancedEnd;
  }

  lemma NextIsBehind(o: Options, st: State, kind: CollectionKind)
    ensures var next := NextEntryOf(o, st, kind);
            next.Ok? ==>
              next.value.st.rest == SkipComments(st.rest) && SkipComments(next.value.st.rest) == SkipComments(st.rest)
  {
    hide NextEntryOf;
    hide CommentRun;
    SkipIsIdempotent(st.rest);
  }

  lemma {:induction false} TidyNodeSettles(o: Options, stream: seq<Item>, st: State, env: Env)
    requires IsTidy(o, stream) && IsSuffix(st.rest, stream) && AreNamesWritten(o, stream, env)
    ensures NodeSettles(o, st, env)
    decreases |st.rest|, 0
  {
    hide BeginNode;
    hide IsTidy;
    hide IsSuffix;
    hide AreNamesWritten;
    BeginNodeSuffix(InLossless(o), st);
    var b := BeginNode(InLossless(o), st);
    if b.Ok? && b.value.follow {
      SuffixOfSuffix(b.value.st.rest, st.rest, stream);
      if b.value.node.Mapping? {
        TidyEntriesSettle(o, stream, b.value.st, env);
      } else {
        TidyItemsSettle(o, stream, b.value.st, env);
      }
    }
  }

  lemma {:induction false} TidyEntriesSettle(o: Options, stream: seq<Item>, st: State, env: Env)
    requires IsTidy(o, stream) && IsSuffix(st.rest, stream) && AreNamesWritten(o, stream, env)
    ensures EntriesSettle(o, st, env)
    decreases |st.rest|, 1
  {
    hide NextEntryOf;
    hide ParseNode;
    hide FinishKey;
    hide NodeSettles;
    hide AfterKeySettles;
    hide Settles;
    hide IsTidy;
    hide IsSuffix;
    hide AreNamesWritten;
    hide IsWritten;
    hide RawComments;
    hide CommentRun;
    var l := InLossless(o);
    NextEntrySuffix(l, st, MappingKind);
    NextIsBehind(l, st, MappingKind);
    NextHasInHand(l, st, MappingKind);
    var next := NextEntryOf(l, st, MappingKind);
    if next.Ok? && next.value.entry.More? {
      SuffixOfSuffix(next.value.st.rest, st.rest, stream);
      TidyNodeSettles(o, stream, next.value.st, env);
      var k := ParseNode(l, next.value.st);
      if k.Ok? {
        ParsedSuffix(o, stream, next.value.st);
        ParseNodeIsWritten(o, stream, next.value.st);
        AliasIsAhead(o, stream, next.value.st);
        TidySettles(o, stream, st.rest, env, k.value.node, next.value.entry.comments, k.value.st.rest, true);
        FinishIsWritten(o, stream, k.value, next.value.entry.comments);
        TidyAfterKey(o, stream, FinishKey(l, k.value.st, k.value.node, next.value.entry.comments), env);
      }
    }
  }

  lemma {:induction false} TidyAfterKey(o: Options, stream: seq<Item>, key: Parsed, env: Env)
    requires IsTidy(o, stream) && IsSuffix(key.st.rest, stream) && AreNamesWritten(o, stream, env)
    requires IsWritten(o, stream, key.node)
    ensures AfterKeySettles(o, key, env)
    decreases |key.st.rest|, 3
  {
    hide KeepNode;
    hide ParseNode;
    hide FinishValue;
    hide NodeSettles;
    hide EntriesSettle;
    hide Settles;
    hide IsTidy;
    hide IsSuffix;
    hide AreNamesWritten;
    hide IsWritten;
    var l := InLossless(o);
    KeepIsWritten(o, stream, key.node, env);
    var e, v := KeepNode(o, key.node, env), ParseNode(l, key.st);
    if e.Ok? && v.Ok? {
      TidyNodeSettles(o, stream, key.st, e.value.env);
      ParsedSuffix(o, stream, key.st);
      ParseNodeIsWritten(o, stream, key.st);
      AliasIsAhead(o, stream, key.st);
      TidySettles(o, stream, key.st.rest, e.value.env, v.value.node, None, v.value.st.rest, false);
      FinishIsWritten(o, stream, v.value, None);
      var value := FinishValue(l, v.value.st, v.value.node);
      KeepIsWritten(o, stream, value.node, e.value.env);
      var e2 := KeepNode(o, value.node, e.value.env);
      if e2.Ok? {
        TidyEntriesSettle(o, stream, value.st, e2.value.env);
      }
    }
  }

  lemma {:induction false} TidyItemsSettle(o: Options, stream: seq<Item>, st: State, env: Env)
    requires IsTidy(o, stream) && IsSuffix(st.rest, stream) && AreNamesWritten(o, stream, env)
    ensures ItemsSettle(o, st, env)
    decreases |st.rest|, 1
  {
    hide KeepNode;
    hide NextEntryOf;
    hide ParseNode;
    hide FinishItem;
    hide NodeSettles;
    hide Settles;
    hide IsTidy;
    hide IsSuffix;
    hide AreNamesWritten;
    hide IsWritten;
    hide RawComments;
    hide CommentRun;
    var l := InLossless(o);
    NextEntrySuffix(l, st, SequenceKind);
    NextIsBehind(l, st, SequenceKind);
    NextHasInHand(l, st, SequenceKind);
    var next := NextEntryOf(l, st, SequenceKind);
    if next.Ok? && next.value.entry.More? {
      SuffixOfSuffix(next.value.st.rest, st.rest, stream);
      TidyNodeSettles(o, stream, next.value.st, env);
      var i := ParseNode(l, next.value.st);
      if i.Ok? {
        ParsedSuffix(o, stream, next.value.st);
        ParseNodeIsWritten(o, stream, next.value.st);
        AliasIsAhead(o, stream, next.value.st);
        TidySettles(o, stream, st.rest, env, i.value.node, next.value.entry.comments, i.value.st.rest, false);
        FinishIsWritten(o, stream, i.value, next.value.entry.comments);
        var item := FinishItem(l, i.value.st, i.value.node, next.value.entry.comments);
        KeepIsWritten(o, stream, item.node, env);
        var e := KeepNode(o, item.node, env);
        if e.Ok? {
          TidyItemsSettle(o, stream, item.st, e.value.env);
        }
      }
    }
  }

  lemma {:induction false} TidyDocumentsSettle(o: Options, stream: seq<Item>, st: State, outside: seq<string>)
    requires IsTidy(o, stream) && IsSuffix(st.rest, stream)
    ensures DocumentsSettle(o, st, outside)
    decreases |st.rest|
  {
    hide LoadDocument;
    hide NodeSettles;
    hide IsTidy;
    hide IsSuffix;
    if st.rest != [] && st.rest[0].Good? && !st.rest[0].event.StreamEnd? {
      var event := st.rest[0].event;
      var st1 := st.(rest := st.rest[1..]);
      DropIsSuffix(1, st.rest);
      SuffixOfSuffix(st1.rest, st.rest, stream);
      if event.DocumentStart? {
        DropIsSuffix(CommentRun(st1.rest), st1.rest);
        SuffixOfSuffix(AtRoot(st1).rest, st1.rest, stream);
        TidyNodeSettles(o, stream, AtRoot(st1), NO_NAMES);
        LoadDocumentSuffix(InLossless(o), st1, event, outside);
        var d := LoadDocument(InLossless(o), st1, event, outside);
        if d.Ok? {
          SuffixOfSuffix(d.value.st.rest, st1.rest, stream);
          TidyDocumentsSettle(o, stream, d.value.st, []);
        }
      } else {
        TidyDocumentsSettle(o, stream, st1, if event.Comment? then outside + [WithHash(event.text)] else outside);
      }
    }
  }

  /**
   On a tidy stream the two modes give the same documents, comments and all, but
   for the aliases: each is replaced by the node that it stands for.
   */
  lemma {:induction false} TidyStreamsKeepComments(o: Options, stream: seq<Item>)
    requires o.mode.Resolved? && IsTidy(o, stream)
    ensures StreamSettles(o, stream)
    ensures var l, r := Run(InLossless(o), stream), Run(o, stream);
            l.Ok? && r.Ok? ==> KeepDocuments(o, l.value.documents) == Ok(r.value.documents)
  {
    hide Run;
    hide KeepDocuments;
    hide IsTidy;
    hide DocumentsSettle;
    var rest := if stream == [] then [] else stream[1..];
    DropIsSuffix(if stream == [] then 0 else 1, stream);
    TidyDocumentsSettle(o, stream, InitialState(rest), []);
    ResolvedKeepsComments(o, stream);
  }
}
