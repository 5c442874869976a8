/**
 Where the comments are in resolved mode: the trees of the two modes, comments
 included, are the same up to aliases exactly when every alias settles.
 */
module LoaderPlacement {
  import opened Wrappers
  import opened Events
  import opened Schema
  import opened Ast
  import opened AstLemmas
  import opened LoaderSpec
  import opened LoaderAnchors
  import opened AliasSemantics
  import opened AliasPlacement
  import opened LoaderResolved
  import opened LoaderStream

  // ----- Nodes -----

  /** The two loads are at the same place, with the same comments waiting. */
  ghost predicate Together(o: Options, l: State, r: State) {
    && Alike(l, r) && l.rest == r.rest && l.pending == r.pending
    && Sound(o, r)
  }

  /** What is read in front of a node, and the node's own event. */
  lemma BeginReads(o: Options, st: State)
    ensures var r := BeginNode(o, st);
            var d := Drained(st);
            r.Ok? ==>
              && r.value.st.pending == d.pending
              && r.value.st.rest == if d.rest == [] || StartsWithClosing(d.rest) then d.rest else d.rest[1..]
  {
    hide BeginEvent;
    hide Drained;
    BeginNodeDrains(o, st);
    DrainedHasNoComment(st);
    var d := Drained(st);
    if d.rest != [] && d.rest[0].Good? {
      EventWaits(o, d.(rest := d.rest[1..]), d.rest[0].event, d.rest[0].span);
    }
  }

  lemma DrainedHasNoComment(st: State)
    ensures !StartsWithComment(Drained(st).rest)
  {
  }

  lemma EventWaits(o: Options, st: State, event: Event, span: Span)
    ensures var r := BeginEvent(o, st, event, span);
            r.Ok? ==> r.value.st.rest == st.rest && r.value.st.pending == st.pending
  {
    hide CompleteNode;
    hide Expand;
    if event.Scalar? {
      CompleteNodeTouches(
        o, st, Node.Scalar(event.value, event.style, event.props.tag, span, PropertiesMeta(event.props)), span);
    }
  }

  lemma PlainIsBare(st: State)
    requires PlainAnchors(st.anchors)
    ensures BareAnchors(EnvOf(st))
  {
    hide CloneWithoutComments;
    hide AliasFree;
  }

  /** What a node event gives in resolved mode takes the place of what it gives in lossless mode. */
  ghost predicate TakesThePlace(o: Options, a: LoadResult<Begun>, b: LoadResult<Begun>, env: Env) {
    a.Ok? && b.Ok? && !a.value.follow ==>
      && (a.value.node.Alias? ==> Undressed(a.value.node))
      && var k := KeepNode(o, a.value.node, env); k.Ok? ==> k.value.node == b.value.node
  }

  lemma ScalarTakesThePlace(o: Options, sl: State, sr: State, n: Node, env: Env)
    requires n.Scalar?
    ensures var a, b := CompleteNode(InLossless(o), sl, n, n.loc), CompleteNode(o, sr, n, n.loc);
            a.Ok? && b.Ok? ==>
              && a.value.node.Scalar?
              && var k := KeepNode(o, a.value.node, env); k.Ok? ==> k.value.node == b.value.node
  {
    hide ApplySchema;
    hide RegisterAnchor;
    hide Define;
    CompleteNodeTouches(InLossless(o), sl, n, n.loc);
    CompleteNodeTouches(o, sr, n, n.loc);
    SchemaInLossless(o, n);
    SchemaKeepsTwins(InLossless(o), o.(mode := Resolved), n, n);
  }

  lemma AliasTakesThePlace(o: Options, sl: State, sr: State, name: string, loc: Span)
    requires o.mode.Resolved? && PlainAnchors(sr.anchors)
    ensures ResolveAlias(InLossless(o), sl, name, loc) == Ok(Parsed(Node.Alias(name, loc, None, None), sl))
    ensures var b := ResolveAlias(o, sr, name, loc);
            var k := KeepNode(o, Node.Alias(name, loc, None, None), EnvOf(sr));
            b.Ok? && k.Ok? ==> k.value.node == b.value.node
  {
    hide Expand;
    hide KeepNode;
    PlainIsBare(sr);
    AliasMeans(o, Node.Alias(name, loc, None, None), EnvOf(sr));
    if name in sr.anchors {
      ExpandAliasFree(o, sr.anchors, sr.expanded, sr.anchors[name], {}, loc);
    }
  }

  lemma EmptyTakesThePlace(o: Options, env: Env)
    ensures KeepNode(o, EMPTY_SCALAR, env) == Ok(Resolution(EMPTY_SCALAR, env))
  {
  }

  lemma EventTakesThePlace(o: Options, sl: State, sr: State, event: Event, span: Span)
    requires o.mode.Resolved? && PlainAnchors(sr.anchors)
    ensures TakesThePlace(o, BeginEvent(InLossless(o), sl, event, span), BeginEvent(o, sr, event, span), EnvOf(sr))
  {
    hide CompleteNode;
    hide ResolveAlias;
    hide KeepNode;
    hide PropertiesMeta;
    hide PlainAnchors;
    match event
    case Scalar(value, style, props) =>
      ScalarTakesThePlace(o, sl, sr, Node.Scalar(value, style, props.tag, span, PropertiesMeta(props)), EnvOf(sr));
    case Alias(name) => AliasTakesThePlace(o, sl, sr, name, span);
    case _ => EmptyTakesThePlace(o, EnvOf(sr));
  }

  lemma DrainedTakesThePlace(o: Options, sl: State, sr: State)
    requires o.mode.Resolved? && PlainAnchors(sr.anchors) && sl.rest == sr.rest && !StartsWithComment(sl.rest)
    ensures TakesThePlace(o, BeginNode(InLossless(o), sl), BeginNode(o, sr), EnvOf(sr))
  {
    hide BeginEvent;
    hide KeepNode;
    hide PlainAnchors;
    EmptyTakesThePlace(o, EnvOf(sr));
    if sl.rest != [] && sl.rest[0].Good? {
      EventTakesThePlace(
        o, sl.(rest := sl.rest[1..]), sr.(rest := sr.rest[1..]), sl.rest[0].event, sl.rest[0].span);
    }
  }

  lemma BeginTakesThePlace(o: Options, sl: State, sr: State)
    requires o.mode.Resolved? && Together(o, sl, sr)
    ensures TakesThePlace(o, BeginNode(InLossless(o), sl), BeginNode(o, sr), EnvOf(sr))
  {
    hide BeginNode;
    hide TakesThePlace;
    BeginNodeDrains(InLossless(o), sl);
    BeginNodeDrains(o, sr);
    DrainedHasNoComment(sl);
    DrainedTakesThePlace(o, Drained(sl), Drained(sr));
  }

  lemma BeginsTogether(o: Options, sl: State, sr: State)
    requires o.mode.Resolved? && Together(o, sl, sr)
    ensures var a, b := BeginNode(InLossless(o), sl), BeginNode(o, sr);
            a.Ok? && b.Ok? ==>
              && a.value.follow == b.value.follow
              && Together(o, a.value.st, b.value.st)
              && (a.value.follow ==> a.value.node == b.value.node && EnvOf(b.value.st) == EnvOf(sr))
  {
    hide BeginNode;
    hide ResolveNode;
    hide CloneWithoutComments;
    hide Alike;
    hide CommentRun;
    BeginFollows(InLossless(o), o, sl, sr);
    BeginReads(InLossless(o), sl);
    BeginReads(o, sr);
    BeginNodeIsSound(o, sr);
  }

  /** Wherever the comments go, the names mean the same. */
  lemma {:induction false} NodeMeans(o: Options, sl: State, sr: State)
    requires o.mode.Resolved? && Alike(sl, sr) && Sound(o, sr)
    ensures var p, q := ParseNode(InLossless(o), sl), ParseNode(o, sr);
            p.Ok? && q.Ok? ==>
              && Alike(p.value.st, q.value.st) && Sound(o, q.value.st)
              && var k := KeepNode(o, p.value.node, EnvOf(sr)); k.Ok? && k.value.env == EnvOf(q.value.st)
  {
    hide ParseNode;
    hide ResolveNode;
    hide KeepNode;
    hide Alike;
    NodeFollows(InLossless(o), o, sl, sr);
    ParseNodeIsSound(o, sr);
    PlainIsBare(sr);
    hide Sound;
    var p := ParseNode(InLossless(o), sl);
    if p.Ok? {
      KeepResolves(o, p.value.node, EnvOf(sr));
    }
  }

  lemma {:induction false} EntriesMean(o: Options, sl: State, sr: State)
    requires o.mode.Resolved? && Alike(sl, sr) && Sound(o, sr)
    ensures var p, q := ParseEntries(InLossless(o), sl), ParseEntries(o, sr);
            p.Ok? && q.Ok? ==>
              && Alike(p.value.st, q.value.st) && Sound(o, q.value.st)
              && var k := KeepEntries(o, p.value.entries, EnvOf(sr)); k.Ok? && k.value.env == EnvOf(q.value.st)
  {
    hide ParseEntries;
    hide ResolveEntries;
    hide KeepEntries;
    hide Alike;
    EntriesFollowUp(InLossless(o), o, sl, sr);
    ParseEntriesIsSound(o, sr);
    PlainIsBare(sr);
    hide Sound;
    var p := ParseEntries(InLossless(o), sl);
    if p.Ok? {
      KeepResolvesEntries(o, p.value.entries, EnvOf(sr));
    }
  }

  lemma {:induction false} ItemsMean(o: Options, sl: State, sr: State)
    requires o.mode.Resolved? && Alike(sl, sr) && Sound(o, sr)
    ensures var p, q := ParseItems(InLossless(o), sl), ParseItems(o, sr);
            p.Ok? && q.Ok? ==>
              && Alike(p.value.st, q.value.st) && Sound(o, q.value.st)
              && var k := KeepItems(o, p.value.items, EnvOf(sr)); k.Ok? && k.value.env == EnvOf(q.value.st)
  {
    hide ParseItems;
    hide ResolveItems;
    hide KeepItems;
    hide Alike;
    ItemsFollowUp(InLossless(o), o, sl, sr);
    ParseItemsIsSound(o, sr);
    PlainIsBare(sr);
    hide Sound;
    var p := ParseItems(InLossless(o), sl);
    if p.Ok? {
      KeepResolvesItems(o, p.value.items, EnvOf(sr));
    }
  }

  /** One node: `q` is `p` with aliases replaced if all settle, and else differs inside. */
  ghost predicate NodeIsKept(o: Options, settles: bool, p: Parsed, q: Parsed, env: Env) {
    var k := KeepNode(o, p.node, env);
    && k.Ok? && k.value.env == EnvOf(q.st)
    && (p.node.Alias? ==> Undressed(p.node))
    && if settles then q.node == k.value.node && Together(o, p.st, q.st) else !SameChildren(q.node, k.value.node)
  }

  ghost predicate EntriesAreKept(o: Options, settles: bool, p: ParsedEntries, q: ParsedEntries, env: Env) {
    var k := KeepEntries(o, p.entries, env);
    && k.Ok? && k.value.env == EnvOf(q.st)
    && if settles then q.entries == k.value.entries && Together(o, p.st, q.st) else q.entries != k.value.entries
  }

  ghost predicate ItemsAreKept(o: Options, settles: bool, p: ParsedItems, q: ParsedItems, env: Env) {
    var k := KeepItems(o, p.items, env);
    && k.Ok? && k.value.env == EnvOf(q.st)
    && if settles then q.items == k.value.items && Together(o, p.st, q.st) else q.items != k.value.items
  }

  // ----- Collections -----

  /** Closing a collection leaves its children, and reads its end. */
  lemma MappingCloses(o: Options, sl: State, sr: State, n: Node, entries: seq<Ast.Entry>)
    requires o.mode.Resolved? && n.Mapping? && Alike(sl, sr)
    requires StartsWithEnd(sl.rest, MappingKind) && StartsWithEnd(sr.rest, MappingKind)
    ensures var f, g := FinishCollection(InLossless(o), sl, n), FinishCollection(o, sr, n.(entries := entries));
            f.Ok? && g.Ok? ==>
              && f.value.node.Mapping? && f.value.node.entries == n.entries
              && g.value.node == f.value.node.(entries := entries)
  {
    hide CompleteNode;
    hide ApplySchema;
    var m := n.(entries := entries);
    assert sl.rest == sr.rest;
    var loc := n.loc.(end := sl.rest[0].span.end);
    CompleteNodeTouches(InLossless(o), sl.(rest := sl.rest[1..], depth := sl.depth - 1), n.WithLoc(loc), loc);
    CompleteNodeTouches(o, sr.(rest := sr.rest[1..], depth := sr.depth - 1), m.WithLoc(loc), loc);
    SchemaKeepsTwins(InLossless(o), o, n.WithLoc(loc), m.WithLoc(loc));
  }

  lemma SequenceCloses(o: Options, sl: State, sr: State, n: Node, items: seq<Node>)
    requires o.mode.Resolved? && n.Sequence? && Alike(sl, sr)
    requires StartsWithEnd(sl.rest, SequenceKind) && StartsWithEnd(sr.rest, SequenceKind)
    ensures var f, g := FinishCollection(InLossless(o), sl, n), FinishCollection(o, sr, n.(items := items));
            f.Ok? && g.Ok? ==>
              && f.value.node.Sequence? && f.value.node.items == n.items
              && g.value.node == f.value.node.(items := items)
  {
    hide CompleteNode;
    hide ApplySchema;
    var m := n.(items := items);
    assert sl.rest == sr.rest;
    var loc := n.loc.(end := sl.rest[0].span.end);
    CompleteNodeTouches(InLossless(o), sl.(rest := sl.rest[1..], depth := sl.depth - 1), n.WithLoc(loc), loc);
    CompleteNodeTouches(o, sr.(rest := sr.rest[1..], depth := sr.depth - 1), m.WithLoc(loc), loc);
    SchemaKeepsTwins(InLossless(o), o, n.WithLoc(loc), m.WithLoc(loc));
  }

  /** Both loads close a collection together. */
  lemma ClosesTogether(o: Options, sl: State, sr: State, n: Node, m: Node)
    requires Together(o, sl, sr)
    ensures var f, g := FinishCollection(InLossless(o), sl, n), FinishCollection(o, sr, m);
            f.Ok? && g.Ok? ==> f.value.st.rest == g.value.st.rest && f.value.st.pending == g.value.st.pending
  {
    hide FinishCollection;
    hide Alike;
    hide Sound;
    FinishCollectionSuffix(InLossless(o), sl, n);
    FinishCollectionSuffix(o, sr, m);
  }

  lemma {:induction false} MappingRestKeeps(o: Options, b: Begun, c: Begun)
    requires o.mode.Resolved? && Together(o, b.st, c.st) && b.node == c.node && b.node.Mapping?
    ensures var p, q := ParseRest(InLossless(o), b), ParseRest(o, c);
            p.Ok? && q.Ok? ==>
              && p.value.node.Mapping?
              && var k := KeepNode(o, p.value.node, EnvOf(c.st));
                 k.Ok? ==>
                   if EntriesSettle(o, b.st, EnvOf(c.st))
                   then
                     && q.value.node == k.value.node
                     && p.value.st.rest == q.value.st.rest && p.value.st.pending == q.value.st.pending
                   else !SameChildren(q.value.node, k.value.node)
    decreases |b.st.rest|, 3
  {
    hide EntriesSettle;
    hide FinishCollection;
    hide KeepNode;
    hide KeepEntries;
    hide ParseEntries;
    hide Together;
    EntriesKeep(o, b.st, c.st);
    var p, q := ParseEntries(InLossless(o), b.st), ParseEntries(o, c.st);
    if p.Ok? && q.Ok? {
      var n := b.node.(entries := p.value.entries);
      var m := b.node.(entries := q.value.entries);
      TogetherIsAlike(o, b.st, c.st);
      EntriesMean(o, b.st, c.st);
      MappingCloses(o, p.value.st, q.value.st, n, q.value.entries);
      var f, g := FinishCollection(InLossless(o), p.value.st, n), FinishCollection(o, q.value.st, m);
      if f.Ok? && g.Ok? && KeepNode(o, f.value.node, EnvOf(c.st)).Ok? {
        MappingIsKept(o, f.value.node, EnvOf(c.st));
        if EntriesSettle(o, b.st, EnvOf(c.st)) {
          ClosesTogether(o, p.value.st, q.value.st, n, m);
        }
      }
    }
  }

  lemma TogetherIsAlike(o: Options, l: State, r: State)
    requires Together(o, l, r)
    ensures Alike(l, r) && Sound(o, r) && l.rest == r.rest && l.pending == r.pending
  {
  }

  lemma AlikeTogether(o: Options, l: State, r: State)
    requires Alike(l, r) && Sound(o, r) && l.rest == r.rest && l.pending == r.pending
    ensures Together(o, l, r)
  {
  }

  lemma {:induction false} SequenceRestKeeps(o: Options, b: Begun, c: Begun)
    requires o.mode.Resolved? && Together(o, b.st, c.st) && b.node == c.node && b.node.Sequence?
    ensures var p, q := ParseRest(InLossless(o), b), ParseRest(o, c);
            p.Ok? && q.Ok? ==>
              && p.value.node.Sequence?
              && var k := KeepNode(o, p.value.node, EnvOf(c.st));
                 k.Ok? ==>
                   if ItemsSettle(o, b.st, EnvOf(c.st))
                   then
                     && q.value.node == k.value.node
                     && p.value.st.rest == q.value.st.rest && p.value.st.pending == q.value.st.pending
                   else !SameChildren(q.value.node, k.value.node)
    decreases |b.st.rest|, 3
  {
    hide ItemsSettle;
    hide FinishCollection;
    hide KeepNode;
    hide KeepItems;
    hide ParseItems;
    hide Together;
    ItemsKeep(o, b.st, c.st);
    var p, q := ParseItems(InLossless(o), b.st), ParseItems(o, c.st);
    if p.Ok? && q.Ok? {
      var n := b.node.(items := p.value.items);
      var m := b.node.(items := q.value.items);
      TogetherIsAlike(o, b.st, c.st);
      ItemsMean(o, b.st, c.st);
      SequenceCloses(o, p.value.st, q.value.st, n, q.value.items);
      var f, g := FinishCollection(InLossless(o), p.value.st, n), FinishCollection(o, q.value.st, m);
      if f.Ok? && g.Ok? && KeepNode(o, f.value.node, EnvOf(c.st)).Ok? {
        SequenceIsKept(o, f.value.node, EnvOf(c.st));
        if ItemsSettle(o, b.st, EnvOf(c.st)) {
          ClosesTogether(o, p.value.st, q.value.st, n, m);
        }
      }
    }
  }

  /** A node is its event, or its start and the rest. */
  lemma ParseNodeSteps(o: Options, st: State)
    ensures var b := BeginNode(o, st);
            ParseNode(o, st) ==
            if b.Err? then Err(b.error) else if b.value.follow then ParseRest(o, b.value) else AsParsed(b)
  {
    hide BeginNode;
    hide FinishCollection;
  }

  lemma {:induction false} NodeKeeps(o: Options, sl: State, sr: State)
    requires o.mode.Resolved? && Together(o, sl, sr)
    ensures var p, q := ParseNode(InLossless(o), sl), ParseNode(o, sr);
            p.Ok? && q.Ok? ==> NodeIsKept(o, NodeSettles(o, sl, EnvOf(sr)), p.value, q.value, EnvOf(sr))
    decreases |sl.rest|, 0
  {
    hide BeginNode;
    hide KeepNode;
    hide ParseNode;
    hide ParseRest;
    hide Together;
    hide EntriesSettle;
    hide ItemsSettle;
    TogetherIsAlike(o, sl, sr);
    NodeMeans(o, sl, sr);
    ParseNodeSteps(InLossless(o), sl);
    ParseNodeSteps(o, sr);
    BeginsTogether(o, sl, sr);
    BeginTakesThePlace(o, sl, sr);
    var b, c := BeginNode(InLossless(o), sl), BeginNode(o, sr);
    var p, q := ParseNode(InLossless(o), sl), ParseNode(o, sr);
    if p.Ok? && q.Ok? {
      if b.value.follow {
        if b.value.node.Mapping? {
          MappingRestKeeps(o, b.value, c.value);
        } else {
          SequenceRestKeeps(o, b.value, c.value);
        }
        if NodeSettles(o, sl, EnvOf(sr)) {
          AlikeTogether(o, p.value.st, q.value.st);
        }
      }
    }
  }

  /** Both loads find the same comments in front of the next entry. */
  lemma NextTogether(o: Options, sl: State, sr: State, kind: CollectionKind)
    requires o.mode.Resolved? && Together(o, sl, sr)
    ensures var a, b := NextEntryOf(InLossless(o), sl, kind), NextEntryOf(o, sr, kind);
            && a.Ok? == b.Ok?
            && (a.Ok? ==>
              && a.value.entry == b.value.entry
              && Together(o, a.value.st, b.value.st) && EnvOf(b.value.st) == EnvOf(sr))
  {
    hide Alike;
    hide Sound;
    hide CommentRun;
    hide RawComments;
    hide Texts;
    NextEntryAlike(InLossless(o), o, sl, sr, kind);
    NextEntryIsSound(o, sr, kind);
  }

  lemma FinishStaysAlike(
    o: Options, sl: State, sr: State, nl: Node, nr: Node, comments: Option<EntryComments>, asKey: bool)
    requires Alike(sl, sr) && Sound(o, sr)
    ensures var pl, pr := FinishNode(o, sl, nl, comments, asKey), FinishNode(o, sr, nr, comments, asKey);
            Alike(pl.st, pr.st) && Sound(o, pr.st) && EnvOf(pr.st) == EnvOf(sr)
  {
    hide *;
    FinishIsDressing(o, sl, nl, comments);
    FinishIsDressing(o, sr, nr, comments);
    FinishChangesOnlyComments(o, sl, nl, comments);
    FinishChangesOnlyComments(o, sr, nr, comments);
    FinishIsSound(o, sr, nr, comments);
    if asKey {
      OnlyCommentsAlike(sl, sr, nl, nr, FinishKey(o, sl, nl, comments), FinishKey(o, sr, nr, comments));
    } else {
      OnlyCommentsAlike(sl, sr, nl, nr, FinishItem(o, sl, nl, comments), FinishItem(o, sr, nr, comments));
    }
  }

  /** Wherever the comments around it go, a node means the same. */
  lemma StepMeans(
    o: Options, nl: Parsed, nr: Parsed, comments: Option<EntryComments>, asKey: bool, env: Env)
    requires Alike(nl.st, nr.st) && Sound(o, nr.st)
    requires var k := KeepNode(o, nl.node, env); k.Ok? && k.value.env == EnvOf(nr.st)
    ensures var p, q := FinishNode(o, nl.st, nl.node, comments, asKey), FinishNode(o, nr.st, nr.node, comments, asKey);
            && Alike(p.st, q.st) && Sound(o, q.st)
            && var k := KeepNode(o, p.node, env); k.Ok? && k.value.env == EnvOf(q.st)
  {
    hide Alike;
    hide Sound;
    hide KeepNode;
    hide Dress;
    hide Held;
    hide PassedOn;
    hide Taken;
    FinishStaysAlike(o, nl.st, nr.st, nl.node, nr.node, comments, asKey);
    KeepDresses(o, nl.node, Held(o, nl.node, comments), Taken(o, nl.node, nl.st.rest, asKey), env);
  }

  /** One node with the comments around it: kept if all settles, and else different. */
  ghost predicate StepIsKept(o: Options, settles: bool, p: Parsed, q: Parsed, env: Env) {
    var k := KeepNode(o, p.node, env);
    && k.Ok? && k.value.env == EnvOf(q.st)
    && if settles then q.node == k.value.node && Together(o, p.st, q.st) else q.node != k.value.node
  }

  lemma NodeStep(
    o: Options, nl: Parsed, nr: Parsed, comments: Option<EntryComments>, asKey: bool, settles: bool, env: Env)
    requires BareAnchors(env) && NodeIsKept(o, settles, nl, nr, env) && Alike(nl.st, nr.st) && Sound(o, nr.st)
    ensures StepIsKept(
              o, settles && Settles(o, env, nl.node, comments, nl.st.rest, asKey),
              FinishNode(o, nl.st, nl.node, comments, asKey), FinishNode(o, nr.st, nr.node, comments, asKey), env)
  {
    hide Alike;
    hide Sound;
    hide KeepNode;
    hide FinishNode;
    hide Settles;
    hide BareAnchors;
    StepMeans(o, nl, nr, comments, asKey, env);
    FinishKeeps(o, nl.st, nr.st, nl.node, nr.node, comments, asKey, env);
  }

  /** A list of entries is kept if and only if its first key, its first value and the other entries are. */
  lemma EntriesCompare(
    o: Options, k: Node, v: Node, more: seq<Ast.Entry>, k': Node, v': Node, more': seq<Ast.Entry>, env: Env)
    requires KeepNode(o, k, env).Ok?
    requires KeepNode(o, v, KeepNode(o, k, env).value.env).Ok?
    requires KeepEntries(o, more, KeepNode(o, v, KeepNode(o, k, env).value.env).value.env).Ok?
    ensures var rk := KeepNode(o, k, env).value;
            var rv := KeepNode(o, v, rk.env).value;
            var rm := KeepEntries(o, more, rv.env).value;
            var r := KeepEntries(o, [Ast.Entry(k, v)] + more, env);
            && r.Ok? && r.value.env == rm.env
            && ([Ast.Entry(k', v')] + more' == r.value.entries <==>
               k' == rk.node && v' == rv.node && more' == rm.entries)
  {
    hide KeepNode;
    var all := [Ast.Entry(k, v)] + more;
    assert all[0] == Ast.Entry(k, v) && all[1..] == more;
    var rk := KeepNode(o, k, env).value;
    var rv := KeepNode(o, v, rk.env).value;
    var rm := KeepEntries(o, more, rv.env).value;
    SameHead(Ast.Entry(k', v'), more', Ast.Entry(rk.node, rv.node), rm.entries);
  }

  lemma ItemsCompare(o: Options, i: Node, more: seq<Node>, i': Node, more': seq<Node>, env: Env)
    requires KeepNode(o, i, env).Ok?
    requires KeepItems(o, more, KeepNode(o, i, env).value.env).Ok?
    ensures var ri := KeepNode(o, i, env).value;
            var rm := KeepItems(o, more, ri.env).value;
            var r := KeepItems(o, [i] + more, env);
            && r.Ok? && r.value.env == rm.env
            && ([i'] + more' == r.value.items <==> i' == ri.node && more' == rm.items)
  {
    hide KeepNode;
    assert ([i] + more)[1..] == more;
    var ri := KeepNode(o, i, env).value;
    SameHead(i', more', ri.node, KeepItems(o, more, ri.env).value.items);
  }

  lemma {:induction false} AfterValueKeeps(
    o: Options, key: Node, key': Node, value: Parsed, value': Parsed, settles: bool, env: Env)
    requires o.mode.Resolved? && KeepNode(o, key, env).Ok?
    requires StepIsKept(o, settles, value, value', KeepNode(o, key, env).value.env)
    requires Alike(value.st, value'.st) && Sound(o, value'.st)
    ensures var p, q := ParseEntries(InLossless(o), value.st), ParseEntries(o, value'.st);
            p.Ok? && q.Ok? ==>
              EntriesAreKept(
                o, key' == KeepNode(o, key, env).value.node && settles
                   && AfterValueSettles(o, value, KeepNode(o, key, env).value.env),
                ParsedEntries([Ast.Entry(key, value.node)] + p.value.entries, p.value.st),
                ParsedEntries([Ast.Entry(key', value'.node)] + q.value.entries, q.value.st), env)
    decreases |value.st.rest|, 3
  {
    hide KeepNode;
    hide KeepEntries;
    hide ParseEntries;
    hide EntriesSettle;
    hide Together;
    hide Alike;
    hide Sound;
    EntriesMean(o, value.st, value'.st);
    if settles {
      TogetherIsAlike(o, value.st, value'.st);
      EntriesKeep(o, value.st, value'.st);
    }
    var p, q := ParseEntries(InLossless(o), value.st), ParseEntries(o, value'.st);
    if p.Ok? && q.Ok? {
      EntriesCompare(o, key, value.node, p.value.entries, key', value'.node, q.value.entries, env);
    }
  }

  /** A key that differs makes the entries differ. */
  lemma KeyDiffers(o: Options, key: Node, key': Node, value: Parsed, value': Parsed, env: Env)
    requires o.mode.Resolved? && KeepNode(o, key, env).Ok? && key' != KeepNode(o, key, env).value.node
    requires var k := KeepNode(o, value.node, KeepNode(o, key, env).value.env); k.Ok? && k.value.env == EnvOf(value'.st)
    requires Alike(value.st, value'.st) && Sound(o, value'.st)
    ensures var p, q := ParseEntries(InLossless(o), value.st), ParseEntries(o, value'.st);
            p.Ok? && q.Ok? ==>
              EntriesAreKept(
                o, false,
                ParsedEntries([Ast.Entry(key, value.node)] + p.value.entries, p.value.st),
                ParsedEntries([Ast.Entry(key', value'.node)] + q.value.entries, q.value.st), env)
  {
    hide KeepNode;
    hide KeepEntries;
    hide ParseEntries;
    hide Alike;
    hide Sound;
    EntriesMean(o, value.st, value'.st);
    var p, q := ParseEntries(InLossless(o), value.st), ParseEntries(o, value'.st);
    if p.Ok? && q.Ok? {
      EntriesCompare(o, key, value.node, p.value.entries, key', value'.node, q.value.entries, env);
    }
  }

  lemma {:induction false} AfterKeyKeeps(o: Options, key: Parsed, key': Parsed, settles: bool, env: Env)
    requires o.mode.Resolved? && StepIsKept(o, settles, key, key', env)
    requires Alike(key.st, key'.st) && Sound(o, key'.st)
    ensures var p, q := ParseAfterKey(InLossless(o), key), ParseAfterKey(o, key');
            p.Ok? && q.Ok? ==> EntriesAreKept(o, settles && AfterKeySettles(o, key, env), p.value, q.value, env)
    decreases |key.st.rest|, 4
  {
    PlainIsBare(key'.st);
    hide KeepNode;
    hide KeepEntries;
    hide ParseEntries;
    hide ParseNode;
    hide FinishValue;
    hide FinishNode;
    hide NodeSettles;
    hide AfterValueSettles;
    hide Settles;
    hide Together;
    hide Alike;
    hide Sound;
    hide NodeIsKept;
    hide EntriesAreKept;
    hide BareAnchors;
    NodeMeans(o, key.st, key'.st);
    var v, v' := ParseNode(InLossless(o), key.st), ParseNode(o, key'.st);
    if v.Ok? && v'.Ok? {
      var env1 := EnvOf(key'.st);
      FinishInLossless(o, v.value.st, v.value.node, None);
      FinishIsDressing(o, v.value.st, v.value.node, None);
      FinishIsDressing(o, v'.value.st, v'.value.node, None);
      StepMeans(o, v.value, v'.value, None, false, env1);
      var value, value' := FinishValue(o, v.value.st, v.value.node), FinishValue(o, v'.value.st, v'.value.node);
      if settles {
        TogetherIsAlike(o, key.st, key'.st);
        NodeKeeps(o, key.st, key'.st);
        var inside := NodeSettles(o, key.st, env1);
        NodeStep(o, v.value, v'.value, None, false, inside, env1);
        AfterValueKeeps(
          o, key.node, key'.node, value, value',
          inside && Settles(o, env1, v.value.node, None, v.value.st.rest, false), env);
      } else {
        KeyDiffers(o, key.node, key'.node, value, value', env);
      }
    }
  }

  lemma {:induction false} EntriesKeep(o: Options, sl: State, sr: State)
    requires o.mode.Resolved? && Together(o, sl, sr)
    ensures var p, q := ParseEntries(InLossless(o), sl), ParseEntries(o, sr);
            p.Ok? && q.Ok? ==> EntriesAreKept(o, EntriesSettle(o, sl, EnvOf(sr)), p.value, q.value, EnvOf(sr))
    decreases |sl.rest|, 2
  {
    hide KeepNode;
    hide ParseNode;
    hide ParseEntries;
    hide ParseAfterKey;
    hide NextEntryOf;
    hide FinishKey;
    hide FinishNode;
    hide NodeSettles;
    hide AfterKeySettles;
    hide Settles;
    hide Together;
    hide NodeIsKept;
    hide StepIsKept;
    hide Alike;
    NextTogether(o, sl, sr, MappingKind);
    ParseEntriesSteps(InLossless(o), sl);
    ParseEntriesSteps(o, sr);
    var a, b := NextEntryOf(InLossless(o), sl, MappingKind), NextEntryOf(o, sr, MappingKind);
    if a.Ok? && a.value.entry.More? {
      hide EntriesAreKept;
      EntryKeeps(o, a.value, b.value, EnvOf(sr));
    }
  }

  lemma {:induction false} EntryKeeps(o: Options, a: Next, b: Next, env: Env)
    requires o.mode.Resolved? && Together(o, a.st, b.st) && EnvOf(b.st) == env
    requires a.entry.More? && a.entry == b.entry && a.st.rest != [] && !StartsWithClosing(a.st.rest)
    ensures var k, k' := ParseNode(InLossless(o), a.st), ParseNode(o, b.st);
            k.Ok? && k'.Ok? ==>
              var key := FinishKey(InLossless(o), k.value.st, k.value.node, a.entry.comments);
              var key' := FinishKey(o, k'.value.st, k'.value.node, b.entry.comments);
              var p, q := ParseAfterKey(InLossless(o), key), ParseAfterKey(o, key');
              p.Ok? && q.Ok? ==>
                EntriesAreKept(
                  o,
                  && NodeSettles(o, a.st, env)
                  && Settles(o, env, k.value.node, a.entry.comments, k.value.st.rest, true)
                  && AfterKeySettles(o, key, env),
                  p.value, q.value, env)
    decreases |a.st.rest|, 1
  {
    TogetherIsAlike(o, a.st, b.st);
    PlainIsBare(b.st);
    hide *;
    NodeMeans(o, a.st, b.st);
    NodeKeeps(o, a.st, b.st);
    var k, k' := ParseNode(InLossless(o), a.st), ParseNode(o, b.st);
    if k.Ok? && k'.Ok? {
      var inside := NodeSettles(o, a.st, env);
      var comments := a.entry.comments;
      FinishInLossless(o, k.value.st, k.value.node, comments);
      FinishIsDressing(o, k.value.st, k.value.node, comments);
      FinishIsDressing(o, k'.value.st, k'.value.node, comments);
      NodeStep(o, k.value, k'.value, comments, true, inside, env);
      FinishStaysAlike(o, k.value.st, k'.value.st, k.value.node, k'.value.node, comments, true);
      var key, key' :=
        FinishKey(o, k.value.st, k.value.node, comments), FinishKey(o, k'.value.st, k'.value.node, comments);
      AfterKeyKeeps(o, key, key', inside && Settles(o, env, k.value.node, comments, k.value.st.rest, true), env);
    }
  }

  lemma {:induction false} AfterItemKeeps(o: Options, item: Parsed, item': Parsed, settles: bool, env: Env)
    requires o.mode.Resolved? && StepIsKept(o, settles, item, item', env)
    requires Alike(item.st, item'.st) && Sound(o, item'.st)
    ensures var p, q := ParseAfterItem(InLossless(o), item), ParseAfterItem(o, item');
            p.Ok? && q.Ok? ==> ItemsAreKept(o, settles && AfterItemSettles(o, item, env), p.value, q.value, env)
    decreases |item.st.rest|, 4
  {
    hide KeepNode;
    hide KeepItems;
    hide ParseItems;
    hide ItemsSettle;
    hide Together;
    hide Alike;
    hide Sound;
    ItemsMean(o, item.st, item'.st);
    if settles {
      TogetherIsAlike(o, item.st, item'.st);
      ItemsKeep(o, item.st, item'.st);
    }
    var p, q := ParseItems(InLossless(o), item.st), ParseItems(o, item'.st);
    if p.Ok? && q.Ok? {
      ItemsCompare(o, item.node, p.value.items, item'.node, q.value.items, env);
    }
  }

  lemma {:induction false} ItemsKeep(o: Options, sl: State, sr: State)
    requires o.mode.Resolved? && Together(o, sl, sr)
    ensures var p, q := ParseItems(InLossless(o), sl), ParseItems(o, sr);
            p.Ok? && q.Ok? ==> ItemsAreKept(o, ItemsSettle(o, sl, EnvOf(sr)), p.value, q.value, EnvOf(sr))
    decreases |sl.rest|, 2
  {
    hide KeepNode;
    hide ParseNode;
    hide ParseItems;
    hide ParseAfterItem;
    hide NextEntryOf;
    hide FinishItem;
    hide FinishNode;
    hide NodeSettles;
    hide AfterItemSettles;
    hide Settles;
    hide Together;
    hide NodeIsKept;
    hide StepIsKept;
    hide Alike;
    NextTogether(o, sl, sr, SequenceKind);
    ParseItemsSteps(InLossless(o), sl);
    ParseItemsSteps(o, sr);
    var a, b := NextEntryOf(InLossless(o), sl, SequenceKind), NextEntryOf(o, sr, SequenceKind);
    if a.Ok? && a.value.entry.More? {
      hide ItemsAreKept;
      ItemKeeps(o, a.value, b.value, EnvOf(sr));
    }
  }

  lemma {:induction false} ItemKeeps(o: Options, a: Next, b: Next, env: Env)
    requires o.mode.Resolved? && Together(o, a.st, b.st) && EnvOf(b.st) == env
    requires a.entry.More? && a.entry == b.entry && a.st.rest != [] && !StartsWithClosing(a.st.rest)
    ensures var i, i' := ParseNode(InLossless(o), a.st), ParseNode(o, b.st);
            i.Ok? && i'.Ok? ==>
              var item := FinishItem(InLossless(o), i.value.st, i.value.node, a.entry.comments);
              var item' := FinishItem(o, i'.value.st, i'.value.node, b.entry.comments);
              var p, q := ParseAfterItem(InLossless(o), item), ParseAfterItem(o, item');
              p.Ok? && q.Ok? ==>
                ItemsAreKept(
                  o,
                  && NodeSettles(o, a.st, env)
                  && Settles(o, env, i.value.node, a.entry.comments, i.value.st.rest, false)
                  && AfterItemSettles(o, item, env),
                  p.value, q.value, env)
    decreases |a.st.rest|, 1
  {
    TogetherIsAlike(o, a.st, b.st);
    PlainIsBare(b.st);
    hide *;
    NodeMeans(o, a.st, b.st);
    NodeKeeps(o, a.st, b.st);
    var i, i' := ParseNode(InLossless(o), a.st), ParseNode(o, b.st);
    if i.Ok? && i'.Ok? {
      var inside := NodeSettles(o, a.st, env);
      var comments := a.entry.comments;
      FinishInLossless(o, i.value.st, i.value.node, comments);
      FinishIsDressing(o, i.value.st, i.value.node, comments);
      FinishIsDressing(o, i'.value.st, i'.value.node, comments);
      NodeStep(o, i.value, i'.value, comments, false, inside, env);
      FinishStaysAlike(o, i.value.st, i'.value.st, i.value.node, i'.value.node, comments, false);
      var item := FinishItem(o, i.value.st, i.value.node, comments);
      var item' := FinishItem(o, i'.value.st, i'.value.node, comments);
      AfterItemKeeps(o, item, item', inside && Settles(o, env, i.value.node, comments, i.value.st.rest, false), env);
    }
  }

  // ----- Documents -----

  /** Names do not cross documents: each begins with none. */
  const NO_NAMES := Env(map[], 0)

  /** The state in which the root of a document is loaded. */
  function AtRoot(st: State): State {
    Reset(st).(rest := st.rest[CommentRun(st.rest)..])
  }

  /** Every alias in the document whose start event has just been read settles. */
  predicate DocumentSettles(o: Options, st: State) {
    !StartsWithDocumentEnd(AtRoot(st).rest) ==> NodeSettles(o, AtRoot(st), NO_NAMES)
  }

  predicate DocumentsSettle(o: Options, st: State, outside: seq<string>)
    decreases |st.rest|
  {
    st.rest != [] && st.rest[0].Good? && !st.rest[0].event.StreamEnd? ==>
      var event := st.rest[0].event;
      var st1 := st.(rest := st.rest[1..]);
      if event.DocumentStart? then
        && DocumentSettles(o, st1)
        && var d := LoadDocument(InLossless(o), st1, event, outside);
           d.Ok? ==> DocumentsSettle(o, d.value.st, [])
      else DocumentsSettle(o, st1, if event.Comment? then outside + [WithHash(event.text)] else outside)
  }

  /** Every alias of the stream settles. */
  predicate StreamSettles(o: Options, stream: seq<Item>) {
    DocumentsSettle(o, InitialState(if stream == [] then [] else stream[1..]), [])
  }

  lemma EmptyRootIsKept(o: Options)
    ensures var r := ApplySchema(InLossless(o), EMPTY_SCALAR);
            && ApplySchema(o, EMPTY_SCALAR) == r
            && (r.Ok? ==> !r.value.Alias? && forall env :: KeepNode(o, r.value, env) == Ok(Resolution(r.value, env)))
  {
    hide ResolveScalar;
    hide ResolvedTag.Uri;
  }

  lemma RootKeeps(o: Options, sl: State, sr: State)
    requires o.mode.Resolved? && Together(o, sl, sr) && EnvOf(sr) == NO_NAMES
    ensures var p, q := ParseRoot(InLossless(o), sl), ParseRoot(o, sr);
            p.Ok? && q.Ok? ==>
              NodeIsKept(
                o, !StartsWithDocumentEnd(sl.rest) ==> NodeSettles(o, sl, NO_NAMES), p.value, q.value, NO_NAMES)
  {
    hide ParseNode;
    hide ApplySchema;
    hide KeepNode;
    hide NodeSettles;
    hide Alike;
    hide Sound;
    EmptyRootIsKept(o);
    NodeKeeps(o, sl, sr);
  }

  lemma RootMeans(o: Options, sl: State, sr: State)
    requires o.mode.Resolved? && Together(o, sl, sr)
    ensures var p, q := ParseRoot(InLossless(o), sl), ParseRoot(o, sr);
            p.Ok? && q.Ok? ==> Alike(p.value.st, q.value.st) && Sound(o, q.value.st)
  {
    hide ParseNode;
    hide ApplySchema;
    hide Alike;
    hide Sound;
    TogetherIsAlike(o, sl, sr);
    NodeMeans(o, sl, sr);
  }

  /** One document: nothing but its aliases is replaced if all settle, and else its root differs. */
  ghost predicate DocumentIsKept(o: Options, settles: bool, l: Document, r: Document) {
    var k := KeepNode(o, l.root, NO_NAMES);
    && k.Ok?
    && if settles then r == l.(root := k.value.node) else r.root != k.value.node
  }

  lemma {:induction false} EndDocumentKeeps(
    o: Options, p: Parsed, q: Parsed, start: Event, outside: seq<string>, comments: seq<string>, settles: bool)
    requires start.DocumentStart? && NodeIsKept(o, settles, p, q, NO_NAMES) && Alike(p.st, q.st) && Sound(o, q.st)
    ensures var a, b :=
            EndDocument(InLossless(o), p, start, outside, comments), EndDocument(o, q, start, outside, comments);
            a.Ok? && b.Ok? ==> DocumentIsKept(o, settles, a.value.document, b.value.document)
  {
    hide KeepNode;
    hide FinishValue;
    hide FinishNode;
    hide CommentRun;
    hide Alike;
    hide Sound;
    hide NodeIsKept;
    FinishInLossless(o, p.st, p.node, None);
    FinishIsDressing(o, p.st, p.node, None);
    FinishIsDressing(o, q.st, q.node, None);
    NodeStep(o, p, q, None, false, settles, NO_NAMES);
  }

  lemma ResetTogether(o: Options, sl: State, sr: State)
    requires sl.rest == sr.rest && sl.depth == sr.depth
    ensures Together(o, AtRoot(sl), AtRoot(sr)) && EnvOf(AtRoot(sr)) == NO_NAMES
  {
    ResetIsSound(o, sr);
    SoundAnywhere(o, Reset(sr), AtRoot(sr).rest);
    hide Sound;
    hide CommentRun;
    hide SkipComments;
  }

  lemma {:induction false} LoadDocumentKeeps(o: Options, sl: State, sr: State, start: Event, outside: seq<string>)
    requires o.mode.Resolved? && start.DocumentStart? && sl.rest == sr.rest && sl.depth == sr.depth
    ensures var a, b := LoadDocument(InLossless(o), sl, start, outside), LoadDocument(o, sr, start, outside);
            a.Ok? && b.Ok? ==> DocumentIsKept(o, DocumentSettles(o, sl), a.value.document, b.value.document)
  {
    ResetTogether(o, sl, sr);
    hide ParseRoot;
    hide EndDocument;
    hide NodeSettles;
    hide NodeIsKept;
    hide DocumentIsKept;
    hide Alike;
    hide Sound;
    hide CommentRun;
    hide Together;
    RootKeeps(o, AtRoot(sl), AtRoot(sr));
    RootMeans(o, AtRoot(sl), AtRoot(sr));
    var p, q := ParseRoot(InLossless(o), AtRoot(sl)), ParseRoot(o, AtRoot(sr));
    if p.Ok? && q.Ok? {
      EndDocumentKeeps(
        o, p.value, q.value, start, outside, Texts(RawComments(sl.rest[..CommentRun(sl.rest)])),
        DocumentSettles(o, sl));
    }
  }

  /** All documents: nothing but aliases is replaced if all settle, and else some root differs. */
  ghost predicate DocumentsAreKept(o: Options, settles: bool, l: seq<Document>, r: seq<Document>) {
    var k := KeepDocuments(o, l);
    && k.Ok? && |k.value| == |l| == |r|
    && if settles then r == k.value else exists i :: 0 <= i < |r| && r[i].root != k.value[i].root
  }

  lemma {:induction false} OneMoreDocument(
    o: Options, first: bool, l: Document, r: Document, rest: bool, ls: seq<Document>, rs: seq<Document>)
    requires DocumentIsKept(o, first, l, r) && DocumentsAreKept(o, rest, ls, rs)
    ensures DocumentsAreKept(o, first && rest, [l] + ls, [r] + rs)
  {
    hide KeepNode;
    assert ([l] + ls)[1..] == ls;
    var k, ks := KeepNode(o, l.root, NO_NAMES).value.node, KeepDocuments(o, ls).value;
    assert KeepDocuments(o, [l] + ls) == Ok([l.(root := k)] + ks);
    if !first {
      assert ([r] + rs)[0].root != ([l.(root := k)] + ks)[0].root;
    } else if !rest {
      var i :| 0 <= i < |rs| && rs[i].root != ks[i].root;
      assert ([r] + rs)[i + 1].root != ([l.(root := k)] + ks)[i + 1].root;
    }
  }

  lemma {:induction false} LoadDocumentsKeep(o: Options, sl: State, sr: State, outside: seq<string>)
    requires o.mode.Resolved? && sl.rest == sr.rest && sl.depth == sr.depth
    ensures var l, r := LoadDocuments(InLossless(o), sl, outside), LoadDocuments(o, sr, outside);
            l.Ok? && r.Ok? ==>
              DocumentsAreKept(o, DocumentsSettle(o, sl, outside), l.value.documents, r.value.documents)
    decreases |sl.rest|
  {
    hide LoadDocument;
    hide DocumentSettles;
    hide DocumentIsKept;
    if sl.rest != [] && sl.rest[0].Good? {
      var event := sl.rest[0].event;
      var tl, tr := sl.(rest := sl.rest[1..]), sr.(rest := sr.rest[1..]);
      if event.DocumentStart? {
        hide DocumentsAreKept;
        LoadDocumentKeeps(o, tl, tr, event, outside);
        DocumentsStayLevel(o, tl, tr, event, outside);
        var dl, dr := LoadDocument(InLossless(o), tl, event, outside), LoadDocument(o, tr, event, outside);
        if dl.Ok? && dr.Ok? {
          LoadDocumentsKeep(o, dl.value.st, dr.value.st, []);
          var ml, mr := LoadDocuments(InLossless(o), dl.value.st, []), LoadDocuments(o, dr.value.st, []);
          if ml.Ok? && mr.Ok? {
            OneMoreDocument(
              o, DocumentSettles(o, tl), dl.value.document, dr.value.document,
              DocumentsSettle(o, dl.value.st, []), ml.value.documents, mr.value.documents);
          }
        }
      } else if !event.StreamEnd? && !IsNodeEvent(event) {
        LoadDocumentsKeep(o, tl, tr, if event.Comment? then outside + [WithHash(event.text)] else outside);
      }
    }
  }

  /** Whatever becomes of the comments, both loads go on from the same place. */
  lemma DocumentsStayLevel(o: Options, sl: State, sr: State, start: Event, outside: seq<string>)
    requires o.mode.Resolved? && start.DocumentStart? && sl.rest == sr.rest && sl.depth == sr.depth
    ensures var a, b := LoadDocument(InLossless(o), sl, start, outside), LoadDocument(o, sr, start, outside);
            a.Ok? && b.Ok? ==> a.value.st.rest == b.value.st.rest && a.value.st.depth == b.value.st.depth
  {
    hide LoadDocument;
    hide ResolveNode;
    hide SameDocument;
    LoadDocumentFollows(InLossless(o), o, sl, sr, start, outside);
  }

  lemma GivingSkipsTheFirst(documents: seq<Document>, outside: seq<string>)
    requires |documents| > 1
    ensures GiveToLast(documents, outside) == [documents[0]] + GiveToLast(documents[1..], outside)
    ensures GiveToLast(documents, outside)[1..] == GiveToLast(documents[1..], outside)
  {
  }

  lemma {:induction false} KeepsAsMany(o: Options, documents: seq<Document>)
    ensures var k := KeepDocuments(o, documents); k.Ok? ==> |k.value| == |documents|
  {
    hide KeepNode;
    if documents != [] {
      KeepsAsMany(o, documents[1..]);
    }
  }

  lemma KeepOneDocument(o: Options, d: Document)
    ensures KeepDocuments(o, [d]) ==
            match KeepNode(o, d.root, NO_NAMES)
            case Ok(r) => Ok([d.(root := r.node)])
            case Err(e) => Err(e)
  {
    hide KeepNode;
    assert [d][1..] == [];
    assert KeepDocuments(o, []) == Ok([]);
    var r := KeepNode(o, d.root, NO_NAMES);
    if r.Ok? {
      assert [d.(root := r.value.node)] + [] == [d.(root := r.value.node)];
    }
  }

  lemma {:induction false} KeepingIsByRoots(o: Options, documents: seq<Document>, outside: seq<string>)
    requires KeepDocuments(o, documents).Ok?
    ensures var k := KeepDocuments(o, documents);
            |k.value| == |documents|
              && KeepDocuments(o, GiveToLast(documents, outside)) == Ok(GiveToLast(k.value, outside))
  {
    hide KeepNode;
    KeepsAsMany(o, documents);
    var k := KeepDocuments(o, documents).value;
    if |documents| == 1 {
      var d := documents[0];
      assert documents == [d] && GiveToLast(documents, outside) == [d.(afterEndComments := outside)];
      KeepOneDocument(o, d);
      KeepOneDocument(o, d.(afterEndComments := outside));
      assert GiveToLast(k, outside) == [k[0].(afterEndComments := outside)];
    } else if documents != [] {
      hide GiveToLast;
      KeepingIsByRoots(o, documents[1..], outside);
      GivingSkipsTheFirst(documents, outside);
      GivingSkipsTheFirst(k, outside);
      assert k[1..] == KeepDocuments(o, documents[1..]).value;
      assert GiveToLast(documents, outside)[0] == documents[0];
    }
  }

  lemma GivingKeepsThem(o: Options, settles: bool, l: seq<Document>, r: seq<Document>, outside: seq<string>)
    requires DocumentsAreKept(o, settles, l, r)
    ensures DocumentsAreKept(o, settles, GiveToLast(l, outside), GiveToLast(r, outside))
  {
    hide KeepDocuments;
    KeepingIsByRoots(o, l, outside);
    var k := KeepDocuments(o, l).value;
    if !settles {
      var i :| 0 <= i < |r| && r[i].root != k[i].root;
      assert GiveToLast(r, outside)[i].root != GiveToLast(k, outside)[i].root;
    }
  }

  /** Keeping the comments fails where resolving does, with the same error. */
  lemma {:induction false} KeepResolvesDocuments(o: Options, documents: seq<Document>)
    ensures var kept, resolved := KeepDocuments(o, documents), ResolveDocuments(o, documents);
            if resolved.Err? then kept == Err(resolved.error) else kept.Ok?
  {
    hide KeepNode;
    hide ResolveNode;
    if documents != [] {
      KeepResolves(o, documents[0].root, NO_NAMES);
      KeepResolvesDocuments(o, documents[1..]);
    }
  }

  /**
   The two modes, comments included.  If lossless loading fails, so does
   resolved loading.  If it succeeds, the documents of the resolved load are
   those of the lossless load with every alias replaced by the node it stands
   for, dressed in the alias's comments, and with nothing else changed, if and
   only if every alias settles; and the errors are those of replacing them.
   */
  lemma {:induction false} ResolvedKeepsComments(o: Options, stream: seq<Item>)
    requires o.mode.Resolved?
    ensures var l, r := Run(InLossless(o), stream), Run(o, stream);
            if l.Err? then r.Err?
            else
              var kept := KeepDocuments(o, l.value.documents);
              if kept.Err? then r == Err(kept.error)
              else r.Ok? && (r.value.documents == kept.value <==> StreamSettles(o, stream))
  {
    hide LoadDocuments;
    hide DocumentsSettle;
    hide KeepDocuments;
    hide ResolveDocuments;
    hide SameDocuments;
    var st := InitialState(if stream == [] then [] else stream[1..]);
    ResolvedRefinesLossless(o, stream);
    var l, r := LoadDocuments(InLossless(o), st, []), LoadDocuments(o, st, []);
    if l.Ok? {
      KeepResolvesDocuments(o, GiveToLast(l.value.documents, l.value.outside));
      if r.Ok? {
        LoadDocumentsKeep(o, st, st, []);
        GivingKeepsThem(o, StreamSettles(o, stream), l.value.documents, r.value.documents, l.value.outside);
        SameOutside(o, st);
      }
    }
  }

  lemma SameOutside(o: Options, st: State)
    requires o.mode.Resolved?
    ensures var l, r := LoadDocuments(InLossless(o), st, []), LoadDocuments(o, st, []);
            l.Ok? && r.Ok? ==> l.value.outside == r.value.outside
  {
    hide LoadDocuments;
    hide SameDocuments;
    LoadDocumentsFollow(InLossless(o), o, st, st, []);
  }
}
