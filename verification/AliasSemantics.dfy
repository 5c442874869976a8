/**
 What aliases mean, said about trees alone: in document order, an alias stands
 for the node that was last completed under its name, without its comments.
 Nothing here mentions events or the loader.
 */
module AliasSemantics {
  import opened Wrappers
  import opened Events
  import opened Ast
  import opened AstLemmas
  import opened LoaderSpec

  /** The nodes completed so far under each name, and the budget used. */
  datatype Env = Env(anchors: map<string, Node>, used: nat)

  datatype Resolution = Resolution(node: Node, env: Env)
  datatype EntriesResolution = EntriesResolution(entries: seq<Ast.Entry>, env: Env)
  datatype ItemsResolution = ItemsResolution(items: seq<Node>, env: Env)

  /** A completed node becomes the meaning of its anchor. */
  function Define(o: Options, n: Node, env: Env): LoadResult<Resolution> {
    match n.Anchor()
    case None => Ok(Resolution(n, env))
    case Some(name) =>
      if env.used + 1 > o.maxExpandedNodes then
        var at := if n.AnchorLoc().Some? then n.AnchorLoc().value else n.loc;
        Err(AliasExpansionLimitExceeded(o.maxExpandedNodes, o.PosAt(at.start)))
      else Ok(Resolution(n, Env(env.anchors[name := n], env.used + 1)))
  }

  /** The tree with its aliases replaced and its comments removed. */
  function ResolveNode(o: Options, n: Node, env: Env): LoadResult<Resolution> {
    match n
    case Scalar(_, _, _, _, _) => Define(o, CloneWithoutComments(n), env)
    case Alias(name, loc, _, _) =>
      if name !in env.anchors then Err(UndefinedAlias(name, o.PosAt(loc.start)))
      else if env.used + NodeCount(env.anchors[name]) > o.maxExpandedNodes then
        Err(AliasExpansionLimitExceeded(o.maxExpandedNodes, o.PosAt(loc.start)))
      else Ok(Resolution(env.anchors[name].WithLoc(loc), env.(used := env.used + NodeCount(env.anchors[name]))))
    case Mapping(entries, style, tag, loc, meta) =>
      var r :- ResolveEntries(o, entries, env);
      Define(o, Mapping(r.entries, style, tag, loc, MetaWithoutComments(meta)), r.env)
    case Sequence(items, style, tag, loc, meta) =>
      var r :- ResolveItems(o, items, env);
      Define(o, Sequence(r.items, style, tag, loc, MetaWithoutComments(meta)), r.env)
  }

  function ResolveEntries(o: Options, entries: seq<Ast.Entry>, env: Env): LoadResult<EntriesResolution> {
    if entries == [] then Ok(EntriesResolution([], env))
    else
      assert entries[0].key < entries[0];
      var k :- ResolveNode(o, entries[0].key, env);
      var v :- ResolveNode(o, entries[0].value, k.env);
      var more :- ResolveEntries(o, entries[1..], v.env);
      Ok(EntriesResolution([Ast.Entry(k.node, v.node)] + more.entries, more.env))
  }

  function ResolveItems(o: Options, items: seq<Node>, env: Env): LoadResult<ItemsResolution> {
    if items == [] then Ok(ItemsResolution([], env))
    else
      var i :- ResolveNode(o, items[0], env);
      var more :- ResolveItems(o, items[1..], i.env);
      Ok(ItemsResolution([i.node] + more.items, more.env))
  }

  /** Names do not cross documents, and every document has its own budget. */
  function ResolveDocuments(o: Options, documents: seq<Document>): LoadResult<seq<Node>> {
    if documents == [] then Ok([])
    else
      var r :- ResolveNode(o, documents[0].root, Env(map[], 0));
      var more :- ResolveDocuments(o, documents[1..]);
      Ok([r.node] + more)
  }

  // ----- With comments -----

  /** A node with comments put on it. */
  function Dress(n: Node, leading: seq<string>, trailing: Option<string>): Node {
    match trailing
    case Some(comment) => AttachTrailing(AttachLeading(n, leading), comment)
    case None => AttachLeading(n, leading)
  }

  /**
   The tree with its aliases replaced and its comments where they are: what
   takes the place of an alias comes without comments of its own, and takes
   over those of the alias.
   */
  function KeepNode(o: Options, n: Node, env: Env): LoadResult<Resolution> {
    match n
    case Scalar(_, _, _, _, _) =>
      var d :- Define(o, CloneWithoutComments(n), env);
      Ok(Resolution(n, d.env))
    case Alias(_, _, _, _) =>
      var r :- ResolveNode(o, n, env);
      Ok(Resolution(Dress(r.node, n.LeadingComments(), n.TrailingComment()), r.env))
    case Mapping(entries, style, tag, loc, meta) =>
      var r :- KeepEntries(o, entries, env);
      var kept := Mapping(r.entries, style, tag, loc, meta);
      var d :- Define(o, CloneWithoutComments(kept), r.env);
      Ok(Resolution(kept, d.env))
    case Sequence(items, style, tag, loc, meta) =>
      var r :- KeepItems(o, items, env);
      var kept := Sequence(r.items, style, tag, loc, meta);
      var d :- Define(o, CloneWithoutComments(kept), r.env);
      Ok(Resolution(kept, d.env))
  }

  function KeepEntries(o: Options, entries: seq<Ast.Entry>, env: Env): LoadResult<EntriesResolution> {
    if entries == [] then Ok(EntriesResolution([], env))
    else
      assert entries[0].key < entries[0];
      var k :- KeepNode(o, entries[0].key, env);
      var v :- KeepNode(o, entries[0].value, k.env);
      var more :- KeepEntries(o, entries[1..], v.env);
      Ok(EntriesResolution([Ast.Entry(k.node, v.node)] + more.entries, more.env))
  }

  function KeepItems(o: Options, items: seq<Node>, env: Env): LoadResult<ItemsResolution> {
    if items == [] then Ok(ItemsResolution([], env))
    else
      var i :- KeepNode(o, items[0], env);
      var more :- KeepItems(o, items[1..], i.env);
      Ok(ItemsResolution([i.node] + more.items, more.env))
  }

  /** The documents with nothing but their aliases replaced. */
  function KeepDocuments(o: Options, documents: seq<Document>): LoadResult<seq<Document>> {
    if documents == [] then Ok([])
    else
      var r :- KeepNode(o, documents[0].root, Env(map[], 0));
      var more :- KeepDocuments(o, documents[1..]);
      Ok([documents[0].(root := r.node)] + more)
  }

  // ----- How comments matter -----

  /** Comments on a node change nothing about what its aliases mean. */
  lemma {:induction false} ResolveIgnoresComments(o: Options, n: Node, comments: seq<string>, comment: string, env: Env)
    ensures ResolveNode(o, AttachLeading(n, comments), env) == ResolveNode(o, n, env)
    ensures ResolveNode(o, AttachTrailing(n, comment), env) == ResolveNode(o, n, env)
  {
    hide Define;
  }

  lemma MetaTwice(meta: Option<Meta>)
    ensures MetaWithoutComments(MetaWithoutComments(meta)) == MetaWithoutComments(meta)
  {
  }

  /** The meaning of aliases is that of the tree without its comments. */
  lemma {:induction false} ResolveIgnoresAllComments(o: Options, n: Node, env: Env)
    ensures ResolveNode(o, CloneWithoutComments(n), env) == ResolveNode(o, n, env)
    decreases n
  {
    hide Define;
    hide MetaWithoutComments;
    if !n.Alias? {
      MetaTwice(n.meta);
    }
    if n.Mapping? {
      EntriesIgnoreAllComments(o, n.entries, env);
    } else if n.Sequence? {
      ItemsIgnoreAllComments(o, n.items, env);
    }
  }

  lemma {:induction false} EntriesIgnoreAllComments(o: Options, entries: seq<Ast.Entry>, env: Env)
    ensures ResolveEntries(o, CloneEntries(entries), env) == ResolveEntries(o, entries, env)
    decreases entries
  {
    hide ResolveNode;
    hide CloneWithoutComments;
    if entries != [] {
      assert entries[0].key < entries[0];
      assert CloneEntries(entries)[1..] == CloneEntries(entries[1..]);
      ResolveIgnoresAllComments(o, entries[0].key, env);
      var k := ResolveNode(o, entries[0].key, env);
      if k.Ok? {
        ResolveIgnoresAllComments(o, entries[0].value, k.value.env);
        var v := ResolveNode(o, entries[0].value, k.value.env);
        if v.Ok? {
          EntriesIgnoreAllComments(o, entries[1..], v.value.env);
        }
      }
    }
  }

  lemma {:induction false} ItemsIgnoreAllComments(o: Options, items: seq<Node>, env: Env)
    ensures ResolveItems(o, CloneItems(items), env) == ResolveItems(o, items, env)
    decreases items
  {
    hide ResolveNode;
    hide CloneWithoutComments;
    if items != [] {
      assert CloneItems(items)[1..] == CloneItems(items[1..]);
      ResolveIgnoresAllComments(o, items[0], env);
      var i := ResolveNode(o, items[0], env);
      if i.Ok? {
        ItemsIgnoreAllComments(o, items[1..], i.value.env);
      }
    }
  }

  /** Leading comments stay on the node, or on what takes its place. */
  lemma {:induction false} KeepAttachesLeading(o: Options, n: Node, comments: seq<string>, env: Env)
    ensures KeepNode(o, AttachLeading(n, comments), env) ==
            match KeepNode(o, n, env)
            case Err(e) => Err(e)
            case Ok(r) => Ok(Resolution(AttachLeading(r.node, comments), r.env))
  {
    hide Define;
    hide KeepEntries;
    hide KeepItems;
  }

  lemma {:induction false} KeepAttachesTrailing(o: Options, n: Node, comment: string, env: Env)
    ensures KeepNode(o, AttachTrailing(n, comment), env) ==
            match KeepNode(o, n, env)
            case Err(e) => Err(e)
            case Ok(r) => Ok(Resolution(AttachTrailing(r.node, comment), r.env))
  {
    hide Define;
    hide KeepEntries;
    hide KeepItems;
  }

  lemma {:induction false} KeepDresses(o: Options, n: Node, leading: seq<string>, trailing: Option<string>, env: Env)
    ensures KeepNode(o, Dress(n, leading, trailing), env) ==
            match KeepNode(o, n, env)
            case Err(e) => Err(e)
            case Ok(r) => Ok(Resolution(Dress(r.node, leading, trailing), r.env))
  {
    hide KeepNode;
    hide AttachLeading;
    hide AttachTrailing;
    KeepAttachesLeading(o, n, leading, env);
    if trailing.Some? {
      KeepAttachesTrailing(o, AttachLeading(n, leading), trailing.value, env);
    }
  }

  /** What `KeepNode` gives, without its comments, is what `ResolveNode` gives. */
  ghost predicate KeptIsResolved(kept: LoadResult<Resolution>, resolved: LoadResult<Resolution>) {
    if resolved.Err? then kept == Err(resolved.error)
    else
      && kept.Ok?
      && CloneWithoutComments(kept.value.node) == resolved.value.node
      && kept.value.env == resolved.value.env
      && BareAnchors(kept.value.env)
  }

  /** Names stand for trees without comments. */
  ghost predicate BareAnchors(env: Env) {
    forall name :: name in env.anchors ==> CloneWithoutComments(env.anchors[name]) == env.anchors[name]
  }

  lemma DefineKeepsBare(o: Options, n: Node, env: Env)
    requires BareAnchors(env) && CloneWithoutComments(n) == n
    ensures var d := Define(o, n, env); d.Ok? ==> d.value.node == n && BareAnchors(d.value.env)
  {
  }

  lemma DressingAddsComments(n: Node, leading: seq<string>, trailing: Option<string>)
    ensures CloneWithoutComments(Dress(n, leading, trailing)) == CloneWithoutComments(n)
  {
    AttachKeepsTheRest(n, leading, "");
    if trailing.Some? {
      AttachKeepsTheRest(AttachLeading(n, leading), [], trailing.value);
    }
  }

  lemma {:induction false} AliasIsKept(o: Options, n: Node, env: Env)
    requires n.Alias? && BareAnchors(env)
    ensures KeptIsResolved(KeepNode(o, n, env), ResolveNode(o, n, env))
  {
    hide Dress;
    hide CloneWithoutComments;
    var r := ResolveNode(o, n, env);
    if r.Ok? {
      DressingAddsComments(r.value.node, n.LeadingComments(), n.TrailingComment());
      BareRelocates(env.anchors[n.name], n.loc);
    }
  }

  lemma BareRelocates(n: Node, loc: Span)
    requires CloneWithoutComments(n) == n
    ensures CloneWithoutComments(n.WithLoc(loc)) == n.WithLoc(loc)
  {
  }

  /** Keeping the comments is resolving, as far as all else is concerned. */
  lemma {:induction false} KeepResolves(o: Options, n: Node, env: Env)
    requires BareAnchors(env)
    ensures KeptIsResolved(KeepNode(o, n, env), ResolveNode(o, n, env))
    decreases n
  {
    match n
    case Scalar(_, _, _, _, _) =>
      CloneKeepsTheTree(n);
      DefineKeepsBare(o, CloneWithoutComments(n), env);
    case Alias(_, _, _, _) => AliasIsKept(o, n, env);
    case Mapping(entries, style, tag, loc, meta) =>
      KeepResolvesEntries(o, entries, env);
      var r := KeepEntries(o, entries, env);
      if r.Ok? {
        var kept := Mapping(r.value.entries, style, tag, loc, meta);
        CloneKeepsTheTree(kept);
        DefineKeepsBare(o, CloneWithoutComments(kept), r.value.env);
      }
    case Sequence(items, style, tag, loc, meta) =>
      KeepResolvesItems(o, items, env);
      var r := KeepItems(o, items, env);
      if r.Ok? {
        var kept := Sequence(r.value.items, style, tag, loc, meta);
        CloneKeepsTheTree(kept);
        DefineKeepsBare(o, CloneWithoutComments(kept), r.value.env);
      }
  }

  lemma {:induction false} KeepResolvesEntries(o: Options, entries: seq<Ast.Entry>, env: Env)
    requires BareAnchors(env)
    ensures var kept, resolved := KeepEntries(o, entries, env), ResolveEntries(o, entries, env);
            if resolved.Err? then kept == Err(resolved.error)
            else
              && kept.Ok?
              && CloneEntries(kept.value.entries) == resolved.value.entries
              && kept.value.env == resolved.value.env
              && BareAnchors(kept.value.env)
    decreases entries
  {
    if entries != [] {
      assert entries[0].key < entries[0];
      hide CloneWithoutComments;
      hide BareAnchors;
      KeepResolves(o, entries[0].key, env);
      var k := KeepNode(o, entries[0].key, env);
      if k.Ok? {
        KeepResolves(o, entries[0].value, k.value.env);
        var v := KeepNode(o, entries[0].value, k.value.env);
        if v.Ok? {
          KeepResolvesEntries(o, entries[1..], v.value.env);
          var more := KeepEntries(o, entries[1..], v.value.env);
          if more.Ok? {
            assert ([Ast.Entry(k.value.node, v.value.node)] + more.value.entries)[1..] == more.value.entries;
          }
        }
      }
    }
  }

  lemma {:induction false} KeepResolvesItems(o: Options, items: seq<Node>, env: Env)
    requires BareAnchors(env)
    ensures var kept, resolved := KeepItems(o, items, env), ResolveItems(o, items, env);
            if resolved.Err? then kept == Err(resolved.error)
            else
              && kept.Ok?
              && CloneItems(kept.value.items) == resolved.value.items
              && kept.value.env == resolved.value.env
              && BareAnchors(kept.value.env)
    decreases items
  {
    if items != [] {
      hide CloneWithoutComments;
      hide BareAnchors;
      KeepResolves(o, items[0], env);
      var i := KeepNode(o, items[0], env);
      if i.Ok? {
        KeepResolvesItems(o, items[1..], i.value.env);
        var more := KeepItems(o, items[1..], i.value.env);
        if more.Ok? {
          assert ([i.value.node] + more.value.items)[1..] == more.value.items;
        }
      }
    }
  }

  lemma AttachShows(n: Node, leading: seq<string>, comment: string)
    requires n.LeadingComments() == [] && n.TrailingComment() == None
    ensures var d := AttachLeading(n, leading);
            d.LeadingComments() == leading && d.TrailingComment() == None
    ensures var d := AttachTrailing(AttachLeading(n, leading), comment);
            d.LeadingComments() == leading && d.TrailingComment() == Some(comment)
  {
  }

  lemma BareHasNone(n: Node)
    requires CloneWithoutComments(n) == n
    ensures n.LeadingComments() == [] && n.TrailingComment() == None && Comments(n) == multiset{}
  {
    CloneKeepsTheTree(n);
    CloneShowsNone(n);
  }

  lemma CloneShowsNone(n: Node)
    ensures CloneWithoutComments(n).LeadingComments() == [] && CloneWithoutComments(n).TrailingComment() == None
  {
  }

  lemma DressingABareNode(n: Node, leading: seq<string>, trailing: Option<string>)
    requires CloneWithoutComments(n) == n
    ensures var d := Dress(n, leading, trailing);
            && d.LeadingComments() == leading && d.TrailingComment() == trailing
            && Comments(d) == multiset(leading) + (if trailing.Some? then multiset{trailing.value} else multiset{})
  {
    hide CloneWithoutComments;
    hide AttachLeading;
    hide AttachTrailing;
    hide Comments;
    BareHasNone(n);
    AttachShows(n, leading, if trailing.Some? then trailing.value else "");
    AttachLeadingAddsComments(n, leading);
    if trailing.Some? {
      AttachTrailingAddsComment(AttachLeading(n, leading), trailing.value);
    }
  }

  lemma MappingIsKept(o: Options, n: Node, env: Env)
    requires n.Mapping? && KeepNode(o, n, env).Ok?
    ensures KeepEntries(o, n.entries, env).Ok?
    ensures var m := KeepNode(o, n, env).value.node;
            m.Mapping? && m == n.(entries := KeepEntries(o, n.entries, env).value.entries)
  {
    hide Define;
  }

  lemma SequenceIsKept(o: Options, n: Node, env: Env)
    requires n.Sequence? && KeepNode(o, n, env).Ok?
    ensures KeepItems(o, n.items, env).Ok?
    ensures var m := KeepNode(o, n, env).value.node;
            m.Sequence? && m == n.(items := KeepItems(o, n.items, env).value.items)
  {
    hide Define;
  }

  /** Every node, and what takes the place of an alias, holds the same comments as before. */
  ghost predicate HoldsTheSame(n: Node, m: Node) {
    && n.LeadingComments() == m.LeadingComments() && n.TrailingComment() == m.TrailingComment()
    && Comments(n) == Comments(m)
  }

  lemma AliasHoldsComments(o: Options, n: Node, env: Env)
    requires n.Alias? && BareAnchors(env)
    ensures var k := KeepNode(o, n, env); k.Ok? ==> HoldsTheSame(n, k.value.node)
  {
    hide Dress;
    hide CloneWithoutComments;
    hide NodeCount;
    if n.name in env.anchors {
      BareRelocates(env.anchors[n.name], n.loc);
      DressingABareNode(env.anchors[n.name].WithLoc(n.loc), n.LeadingComments(), n.TrailingComment());
    }
  }

  lemma OthersHoldTheSame(n: Node, m: Node)
    requires n.Mapping? ==>
               m.Mapping? && m == n.(entries := m.entries) && EntriesComments(m.entries) == EntriesComments(n.entries)
    requires n.Sequence? ==>
               m.Sequence? && m == n.(items := m.items) && ItemsComments(m.items) == ItemsComments(n.items)
    requires n.Scalar? ==> m == n
    requires !n.Alias?
    ensures HoldsTheSame(n, m)
  {
  }

  /** Replacing aliases moves no comment. */
  lemma {:induction false} KeepHoldsComments(o: Options, n: Node, env: Env)
    requires BareAnchors(env)
    ensures var k := KeepNode(o, n, env); k.Ok? ==> HoldsTheSame(n, k.value.node)
    decreases n
  {
    hide Define;
    hide CloneWithoutComments;
    hide ResolveNode;
    hide Dress;
    hide HoldsTheSame;
    hide Comments;
    var k := KeepNode(o, n, env);
    if n.Alias? {
      AliasHoldsComments(o, n, env);
    } else if k.Ok? {
      if n.Mapping? {
        KeepHoldsEntryComments(o, n.entries, env);
        MappingIsKept(o, n, env);
      } else if n.Sequence? {
        KeepHoldsItemComments(o, n.items, env);
        SequenceIsKept(o, n, env);
      }
      OthersHoldTheSame(n, k.value.node);
    }
  }

  lemma {:induction false} KeepHoldsEntryComments(o: Options, entries: seq<Ast.Entry>, env: Env)
    requires BareAnchors(env)
    ensures var k := KeepEntries(o, entries, env);
            k.Ok? ==>
              && |k.value.entries| == |entries|
              && (forall i :: 0 <= i < |entries| ==>
                    && HoldsTheSame(entries[i].key, k.value.entries[i].key)
                    && HoldsTheSame(entries[i].value, k.value.entries[i].value))
              && EntriesComments(k.value.entries) == EntriesComments(entries)
    decreases entries
  {
    if entries != [] {
      assert entries[0].key < entries[0];
      hide BareAnchors;
      KeepHoldsComments(o, entries[0].key, env);
      KeepResolves(o, entries[0].key, env);
      var k := KeepNode(o, entries[0].key, env);
      if k.Ok? {
        KeepHoldsComments(o, entries[0].value, k.value.env);
        KeepResolves(o, entries[0].value, k.value.env);
        var v := KeepNode(o, entries[0].value, k.value.env);
        if v.Ok? {
          KeepHoldsEntryComments(o, entries[1..], v.value.env);
          var more := KeepEntries(o, entries[1..], v.value.env);
          if more.Ok? {
            assert ([Ast.Entry(k.value.node, v.value.node)] + more.value.entries)[1..] == more.value.entries;
          }
        }
      }
    }
  }

  lemma {:induction false} KeepHoldsItemComments(o: Options, items: seq<Node>, env: Env)
    requires BareAnchors(env)
    ensures var k := KeepItems(o, items, env);
            k.Ok? ==>
              && |k.value.items| == |items|
              && (forall i :: 0 <= i < |items| ==> HoldsTheSame(items[i], k.value.items[i]))
              && ItemsComments(k.value.items) == ItemsComments(items)
    decreases items
  {
    if items != [] {
      hide BareAnchors;
      KeepHoldsComments(o, items[0], env);
      KeepResolves(o, items[0], env);
      var i := KeepNode(o, items[0], env);
      if i.Ok? {
        KeepHoldsItemComments(o, items[1..], i.value.env);
        var more := KeepItems(o, items[1..], i.value.env);
        if more.Ok? {
          assert ([i.value.node] + more.value.items)[1..] == more.value.items;
        }
      }
    }
  }
}
