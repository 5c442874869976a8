/**
 Resolved loading refines lossless loading: on every stream, loading with
 aliases expanded is loading without, followed by the meaning of aliases on
 trees.  This includes the errors.
 */
module LoaderResolved {
  import opened Wrappers
  import opened Events
  import opened Schema
  import opened Ast
  import opened AstLemmas
  import opened LoaderSpec
  import opened LoaderAnchors
  import opened AliasSemantics

  function SkipComments(stream: seq<Item>): seq<Item> {
    stream[CommentRun(stream)..]
  }

  /** Two states that differ in their comments and in what their anchors hold. */
  ghost predicate Alike(l: State, r: State) {
    && SkipComments(l.rest) == SkipComments(r.rest)
    && l.depth == r.depth
    && l.anchorCount == r.anchorCount
    && (forall name :: name in l.anchors <==> name in r.anchors)
  }

  /** `o` loads resolved, and `l` are the same options in lossless mode. */
  ghost predicate Modes(l: Options, o: Options) {
    o.mode.Resolved? && l == o.(mode := Lossless)
  }

  function EnvOf(st: State): Env {
    Env(st.anchors, st.expanded)
  }

  /** The resolved load does what the meaning of aliases says. */
  ghost predicate Follows(r: LoadResult<Parsed>, l: State, spec: LoadResult<Resolution>) {
    match spec
    case Err(e) => r == Err(e)
    case Ok(s) =>
      r.Ok? && CloneWithoutComments(r.value.node) == s.node && Alike(l, r.value.st) && EnvOf(r.value.st) == s.env
  }

  ghost predicate EntriesFollow(r: LoadResult<ParsedEntries>, l: State, spec: LoadResult<EntriesResolution>) {
    match spec
    case Err(e) => r == Err(e)
    case Ok(s) =>
      r.Ok? && CloneEntries(r.value.entries) == s.entries && Alike(l, r.value.st) && EnvOf(r.value.st) == s.env
  }

  ghost predicate ItemsFollow(r: LoadResult<ParsedItems>, l: State, spec: LoadResult<ItemsResolution>) {
    match spec
    case Err(e) => r == Err(e)
    case Ok(s) => r.Ok? && CloneItems(r.value.items) == s.items && Alike(l, r.value.st) && EnvOf(r.value.st) == s.env
  }

  // ----- Comments do not matter -----

  /** The state once the comments in front have been read into `pending`. */
  function Drained(st: State): State {
    var k := CommentRun(st.rest);
    st.(rest := st.rest[k..], pending := st.pending + Texts(RawComments(st.rest[..k])))
  }

  lemma SkipIsIdempotent(stream: seq<Item>)
    ensures SkipComments(SkipComments(stream)) == SkipComments(stream)
  {
  }

  lemma AfterCommentsIsDrained(st: State)
    requires StartsWithComment(st.rest)
    ensures AfterComments(st) == Drained(st)
  {
    hide WithHash;
    var k := CommentRun(st.rest[1..]);
    var text := WithHash(st.rest[0].event.text);
    var more := Texts(RawComments(st.rest[1..][..k]));
    FirstOfRaw(st.rest[..k + 1]);
    assert st.rest[..k + 1][1..] == st.rest[1..][..k] && st.rest[1..][k..] == st.rest[k + 1..];
    hide RawComments;
    hide Texts;
    assert st.pending + ([text] + more) == st.pending + [text] + more;
  }

  lemma BeginNodeDrains(o: Options, st: State)
    ensures BeginNode(o, st) == BeginNode(o, Drained(st))
  {
    hide BeginNode;
    if StartsWithComment(st.rest) {
      hide AfterComments;
      hide Drained;
      BeginNodeSkips(o, st);
      AfterCommentsIsDrained(st);
    } else {
      assert Drained(st) == st;
    }
  }

  lemma AttachOnLineSkips(o: Options, rest: seq<Item>, n: Node, line: Option<nat>)
    ensures var a := AttachOnLine(o, rest, n, line);
            && SkipComments(a.rest) == SkipComments(rest)
            && CloneWithoutComments(a.node) == CloneWithoutComments(n)
            && forall o', env :: ResolveNode(o', a.node, env) == ResolveNode(o', n, env)
  {
    if StartsWithComment(rest) {
      var text := WithHash(rest[0].event.text);
      assert rest[1..][CommentRun(rest[1..])..] == rest[CommentRun(rest)..];
      AttachKeepsTheRest(n, [], text);
      forall o', env { ResolveIgnoresComments(o', n, [], text, env); }
    }
  }

  lemma AttachEntrySkips(o: Options, st: State, n: Node, comments: Option<EntryComments>)
    ensures var p := AttachEntryComments(o, st, n, comments);
            && p.st == st.(pending := p.st.pending)
            && CloneWithoutComments(p.node) == CloneWithoutComments(n)
            && forall o', env :: ResolveNode(o', p.node, env) == ResolveNode(o', n, env)
  {
    if comments.Some? {
      var held := comments.value.inherited + SplitComments(o, n, comments.value.raw).before;
      AttachKeepsTheRest(n, held, "");
      forall o', env { ResolveIgnoresComments(o', n, held, "", env); }
    }
  }

  /** Everything but the comments is as before the step from `n` to `p`. */
  ghost predicate OnlyComments(st: State, n: Node, p: Parsed) {
    && CloneWithoutComments(p.node) == CloneWithoutComments(n)
    && (forall o, env :: ResolveNode(o, p.node, env) == ResolveNode(o, n, env))
    && SkipComments(p.st.rest) == SkipComments(st.rest)
    && p.st == st.(rest := p.st.rest, pending := p.st.pending)
  }

  lemma FinishChangesOnlyComments(o: Options, st: State, n: Node, comments: Option<EntryComments>)
    ensures OnlyComments(st, n, FinishKey(o, st, n, comments))
    ensures OnlyComments(st, n, FinishItem(o, st, n, comments))
    ensures OnlyComments(st, n, FinishValue(o, st, n))
  {
    hide AttachOnLine;
    hide AttachEntryComments;
    hide ResolveNode;
    hide CloneWithoutComments;
    AttachEntrySkips(o, st, n, comments);
    var p := AttachEntryComments(o, st, n, comments);
    AttachOnLineSkips(o, p.st.rest, p.node, KeyCommentLine(o, p.node));
    AttachOnLineSkips(o, p.st.rest, p.node, CommentLine(o, p.node));
    AttachOnLineSkips(o, st.rest, n, CommentLine(o, n));
  }

  lemma OnlyCommentsAlike(l: State, r: State, nl: Node, nr: Node, pl: Parsed, pr: Parsed)
    requires Alike(l, r) && OnlyComments(l, nl, pl) && OnlyComments(r, nr, pr)
    ensures Alike(pl.st, pr.st) && EnvOf(pr.st) == EnvOf(r)
  {
  }

  /** Only what follows the comments decides what is next in a collection. */
  lemma NextEntryDepends(l: Options, o: Options, sl: State, sr: State, kind: CollectionKind)
    requires Modes(l, o) && SkipComments(sl.rest) == SkipComments(sr.rest)
    ensures var a, b := NextEntryOf(l, sl, kind), NextEntryOf(o, sr, kind);
            && a.Ok? == b.Ok?
            && (a.Ok? ==> a.value.entry.More? == b.value.entry.More? && a.value.st.rest == b.value.st.rest)
  {
    hide CommentRun;
    hide RawComments;
    hide Texts;
  }

  lemma NextEntryAlike(l: Options, o: Options, sl: State, sr: State, kind: CollectionKind)
    requires Modes(l, o) && Alike(sl, sr)
    ensures var a, b := NextEntryOf(l, sl, kind), NextEntryOf(o, sr, kind);
            && a.Ok? == b.Ok?
            && (a.Ok? ==> a.value.entry.More? == b.value.entry.More?
                          && Alike(a.value.st, b.value.st) && EnvOf(b.value.st) == EnvOf(sr))
  {
    hide NextEntryOf;
    NextEntryDepends(l, o, sl, sr, kind);
    SkipIsIdempotent(sl.rest);
  }

  // ----- Completing a node -----

  /** Two nodes from the same event, whose children may differ. */
  ghost predicate Twins(a: Node, b: Node) {
    match (a, b)
    case (Scalar(_, _, _, _, _), _) => a == b
    case (Mapping(_, s, t, l, m), Mapping(_, s', t', l', m')) => s == s' && t == t' && l == l' && m == m'
    case (Sequence(_, s, t, l, m), Sequence(_, s', t', l', m')) => s == s' && t == t' && l == l' && m == m'
    case _ => false
  }

  lemma SchemaKeepsTwins(l: Options, o: Options, a: Node, b: Node)
    requires Modes(l, o) && Twins(a, b)
    ensures match ApplySchema(l, a)
            case Err(e) => ApplySchema(o, b) == Err(e)
            case Ok(a') =>
              && ApplySchema(o, b).Ok?
              && Twins(a', ApplySchema(o, b).value)
              && SameChildren(a, a')
              && SameChildren(b, ApplySchema(o, b).value)
              && a'.loc == a.loc
  {
    hide ResolveScalar;
    hide ResolvedTag.Uri;
  }

  lemma RegisterAlike(l: Options, o: Options, sl: State, sr: State, name: string, a: Node, b: Node, span: Span)
    requires Modes(l, o) && Alike(sl, sr)
    ensures match RegisterAnchor(l, sl, name, a, span)
            case Err(_) => RegisterAnchor(o, sr, name, b, span).Err?
            case Ok(sl') =>
              if sr.expanded + 1 > o.maxExpandedNodes then
                RegisterAnchor(o, sr, name, b, span) ==
                  Err(AliasExpansionLimitExceeded(o.maxExpandedNodes, o.PosAt(span.start)))
              else
                && RegisterAnchor(o, sr, name, b, span).Ok?
                && Alike(sl', RegisterAnchor(o, sr, name, b, span).value)
                && EnvOf(RegisterAnchor(o, sr, name, b, span).value)
                   == Env(sr.anchors[name := CloneWithoutComments(b)], sr.expanded + 1)
  {
    hide CloneWithoutComments;
    assert name in sl.anchors <==> name in sl.anchors.Keys;
    assert name in sr.anchors <==> name in sr.anchors.Keys;
  }

  lemma CompleteFollows(l: Options, o: Options, sl: State, sr: State, a: Node, b: Node, span: Span)
    requires Modes(l, o) && Alike(sl, sr) && Twins(a, b) && a.loc == span
    ensures var r := CompleteNode(l, sl, a, span);
            if r.Err? then CompleteNode(o, sr, b, span).Err?
            else
              && ApplySchema(o, b).Ok?
              && Twins(r.value.node, ApplySchema(o, b).value)
              && SameChildren(a, r.value.node)
              && Follows(CompleteNode(o, sr, b, span), r.value.st,
                         Define(o, CloneWithoutComments(ApplySchema(o, b).value), EnvOf(sr)))
  {
    hide ApplySchema;
    hide CloneWithoutComments;
    hide RegisterAnchor;
    hide Alike;
    SchemaKeepsTwins(l, o, a, b);
    var ra, rb := ApplySchema(l, a), ApplySchema(o, b);
    if ra.Ok? {
      CloneKeepsAnchor(rb.value);
      TwinsShareAnchors(ra.value, rb.value);
      if ra.value.Anchor().Some? {
        var anchorSpan := if ra.value.AnchorLoc().Some? then ra.value.AnchorLoc().value else span;
        RegisterAlike(l, o, sl, sr, ra.value.Anchor().value, ra.value, rb.value, anchorSpan);
      }
    }
  }

  lemma TwinsShareAnchors(a: Node, b: Node)
    requires Twins(a, b)
    ensures a.Anchor() == b.Anchor() && a.AnchorLoc() == b.AnchorLoc() && a.loc == b.loc
  {
  }

  // ----- Nodes -----

  function AsParsed(r: LoadResult<Begun>): LoadResult<Parsed> {
    match r
    case Ok(b) => Ok(Parsed(b.node, b.st))
    case Err(e) => Err(e)
  }

  lemma AliasFollows(l: Options, o: Options, sl: State, sr: State, name: string, loc: Span)
    requires Modes(l, o) && Alike(sl, sr) && PlainAnchors(sr.anchors)
    ensures ResolveAlias(l, sl, name, loc) == Ok(Parsed(Node.Alias(name, loc, None, None), sl))
    ensures Follows(ResolveAlias(o, sr, name, loc), sl, ResolveNode(o, Node.Alias(name, loc, None, None), EnvOf(sr)))
  {
    hide CloneWithoutComments;
    hide Expand;
    if name in sr.anchors {
      ExpandAliasFree(o, sr.anchors, sr.expanded, sr.anchors[name], {}, loc);
      PlainNodeRelocates(sr.anchors[name], loc);
    }
  }

  lemma EmptyScalarFollows(o: Options, sl: State, sr: State)
    requires Alike(sl, sr)
    ensures Follows(Ok(Parsed(EMPTY_SCALAR, sr)), sl, ResolveNode(o, EMPTY_SCALAR, EnvOf(sr)))
  {
  }

  ghost predicate BeginsAlike(o: Options, a: LoadResult<Begun>, b: LoadResult<Begun>, env: Env) {
    if a.Err? then b.Err?
    else if a.value.follow then
      b.Ok? && b.value.follow && b.value.node == a.value.node && Alike(a.value.st, b.value.st)
        && EnvOf(b.value.st) == env
    else (b.Ok? ==> !b.value.follow) && Follows(AsParsed(b), a.value.st, ResolveNode(o, a.value.node, env))
  }

  lemma ScalarFollows(l: Options, o: Options, sl: State, sr: State, n: Node)
    requires Modes(l, o) && Alike(sl, sr) && n.Scalar?
    ensures var r := CompleteNode(l, sl, n, n.loc);
            if r.Err? then CompleteNode(o, sr, n, n.loc).Err?
            else Follows(CompleteNode(o, sr, n, n.loc), r.value.st, ResolveNode(o, r.value.node, EnvOf(sr)))
  {
    hide CompleteNode;
    hide ApplySchema;
    hide Alike;
    hide Define;
    CompleteFollows(l, o, sl, sr, n, n, n.loc);
  }

  lemma AlikeAfter(sl: State, sr: State, a: seq<Item>, b: seq<Item>, depth: int)
    requires Alike(sl, sr) && SkipComments(a) == SkipComments(b)
    ensures Alike(sl.(rest := a), sr.(rest := b))
    ensures Alike(sl.(rest := a, depth := depth), sr.(rest := b, depth := depth))
  {
  }

  lemma AlikeDeeper(sl: State, sr: State)
    requires Alike(sl, sr)
    ensures Alike(sl.(depth := sl.depth + 1), sr.(depth := sr.depth + 1))
  {
  }

  lemma AlikeWithoutComments(sl: State, sr: State)
    requires Alike(sl, sr) && !StartsWithComment(sl.rest) && !StartsWithComment(sr.rest)
    ensures sl.rest == sr.rest && sl.depth == sr.depth
  {
  }

  lemma EventFollows(l: Options, o: Options, sl: State, sr: State, event: Event, span: Span)
    requires Modes(l, o) && Sound(o, sr) && Alike(sl, sr) && sl.depth == sr.depth
    ensures BeginsAlike(o, BeginEvent(l, sl, event, span), BeginEvent(o, sr, event, span), EnvOf(sr))
  {
    hide CompleteNode;
    hide ResolveAlias;
    hide ResolveNode;
    hide PropertiesMeta;
    hide Alike;
    hide Follows;
    match event
    case Scalar(value, style, props) =>
      ScalarFollows(l, o, sl, sr, Node.Scalar(value, style, props.tag, span, PropertiesMeta(props)));
    case Alias(name) => AliasFollows(l, o, sl, sr, name, span);
    case _ =>
      EmptyScalarFollows(o, sl, sr);
      AlikeDeeper(sl, sr);
  }

  /** Without comments in front, both modes begin with the same event. */
  lemma BeginFollowsAtEvent(l: Options, o: Options, sl: State, sr: State)
    requires Modes(l, o) && Sound(o, sr) && Alike(sl, sr)
    requires !StartsWithComment(sl.rest) && !StartsWithComment(sr.rest)
    ensures BeginsAlike(o, BeginNode(l, sl), BeginNode(o, sr), EnvOf(sr))
  {
    hide BeginEvent;
    hide ResolveNode;
    hide Alike;
    hide Follows;
    hide CommentRun;
    AlikeWithoutComments(sl, sr);
    EmptyScalarFollows(o, sl, sr);
    if !StartsWithClosing(sl.rest) && sl.rest != [] && sl.rest[0].Good? {
      AlikeAfter(sl, sr, sl.rest[1..], sl.rest[1..], sl.depth);
      EventFollows(l, o, sl.(rest := sl.rest[1..]), sr.(rest := sr.rest[1..]), sl.rest[0].event, sl.rest[0].span);
    }
  }

  lemma BeginFollows(l: Options, o: Options, sl: State, sr: State)
    requires Modes(l, o) && Sound(o, sr) && Alike(sl, sr)
    ensures BeginsAlike(o, BeginNode(l, sl), BeginNode(o, sr), EnvOf(sr))
  {
    hide BeginNode;
    hide BeginsAlike;
    BeginNodeDrains(l, sl);
    BeginNodeDrains(o, sr);
    SkipIsIdempotent(sl.rest);
    BeginFollowsAtEvent(l, o, Drained(sl), Drained(sr));
  }

  /** A collection with its span closed and its tag resolved. */
  function Closed(o: Options, n: Node, end: nat): LoadResult<Node> {
    ApplySchema(o, n.WithLoc(n.loc.(end := end)))
  }

  ghost predicate EndsAlike(
    o: Options, a: Node, b: Node, l: LoadResult<Parsed>, r: LoadResult<Parsed>, closed: LoadResult<Node>, env: Env)
  {
    if l.Err? then r.Err?
    else
      && closed.Ok?
      && Twins(l.value.node, closed.value)
      && SameChildren(a, l.value.node)
      && SameChildren(b, closed.value)
      && Follows(r, l.value.st, Define(o, CloneWithoutComments(closed.value), env))
  }

  lemma EndFollows(l: Options, o: Options, sl: State, sr: State, a: Node, b: Node, kind: CollectionKind)
    requires Modes(l, o) && Alike(sl, sr) && Twins(a, b) && !a.Scalar?
    requires StartsWithEnd(sl.rest, kind) && StartsWithEnd(sr.rest, kind)
    ensures EndsAlike(o, a, b, FinishCollection(l, sl, a), FinishCollection(o, sr, b),
                      Closed(o, b, sl.rest[0].span.end), EnvOf(sr))
  {
    hide CompleteNode;
    hide ApplySchema;
    hide CloneWithoutComments;
    hide Define;
    assert sl.rest == sr.rest;
    var loc := a.loc.(end := sl.rest[0].span.end);
    var sl1 := sl.(rest := sl.rest[1..], depth := sl.depth - 1);
    var sr1 := sr.(rest := sr.rest[1..], depth := sr.depth - 1);
    CompleteFollows(l, o, sl1, sr1, a.WithLoc(loc), b.WithLoc(loc), loc);
    SchemaKeepsTwins(l, o, a.WithLoc(loc), b.WithLoc(loc));
  }

  /** The completed collection, seen as the meaning of aliases sees it. */
  lemma MappingFollows(o: Options, n: Node, b: Node, env: Env, r: EntriesResolution)
    requires n.Mapping? && Twins(n, b)
    requires ResolveEntries(o, n.entries, env) == Ok(r) && CloneEntries(b.entries) == r.entries
    ensures ResolveNode(o, n, env) == Define(o, CloneWithoutComments(b), r.env)
  {
    hide Define;
  }

  lemma SequenceFollows(o: Options, n: Node, b: Node, env: Env, r: ItemsResolution)
    requires n.Sequence? && Twins(n, b)
    requires ResolveItems(o, n.items, env) == Ok(r) && CloneItems(b.items) == r.items
    ensures ResolveNode(o, n, env) == Define(o, CloneWithoutComments(b), r.env)
  {
    hide Define;
  }

  /** The part of loading a collection that comes after its start event. */
  function ParseRest(o: Options, b: Begun): LoadResult<Parsed>
    requires b.node.Mapping? || b.node.Sequence?
  {
    match b.node
    case Mapping(_, style, tag, loc, meta) =>
      var p :- ParseEntries(o, b.st);
      FinishCollection(o, p.st, Mapping(p.entries, style, tag, loc, meta))
    case Sequence(_, style, tag, loc, meta) =>
      var p :- ParseItems(o, b.st);
      FinishCollection(o, p.st, Sequence(p.items, style, tag, loc, meta))
  }

  ghost predicate RestFollows(l: Options, o: Options, b: Begun, c: Begun)
    requires b.node == c.node && (b.node.Mapping? || b.node.Sequence?)
  {
    var r := ParseRest(l, b);
    if r.Err? then ParseRest(o, c).Err?
    else Follows(ParseRest(o, c), r.value.st, ResolveNode(o, r.value.node, EnvOf(c.st)))
  }

  lemma {:induction false} NodeFollows(l: Options, o: Options, sl: State, sr: State)
    requires Modes(l, o) && Sound(o, sr) && Alike(sl, sr)
    ensures var r := ParseNode(l, sl);
            if r.Err? then ParseNode(o, sr).Err?
            else Follows(ParseNode(o, sr), r.value.st, ResolveNode(o, r.value.node, EnvOf(sr)))
    decreases |sl.rest|, 0
  {
    hide BeginNode;
    hide FinishCollection;
    hide Follows;
    hide Alike;
    hide Sound;
    hide ResolveNode;
    BeginFollows(l, o, sl, sr);
    BeginNodeIsSound(o, sr);
    var b, c := BeginNode(l, sl), BeginNode(o, sr);
    if b.Ok? && b.value.follow {
      if b.value.node.Mapping? {
        MappingRestFollows(l, o, b.value, c.value);
      } else {
        SequenceRestFollows(l, o, b.value, c.value);
      }
    } else if b.Ok? {
      CompleteNodeFollows(o, sr, b.value, c, EnvOf(sr));
    }
  }

  lemma CompleteNodeFollows(o: Options, sr: State, b: Begun, c: LoadResult<Begun>, env: Env)
    requires c == BeginNode(o, sr)
    requires (c.Ok? ==> !c.value.follow) && Follows(AsParsed(c), b.st, ResolveNode(o, b.node, env))
    ensures Follows(ParseNode(o, sr), b.st, ResolveNode(o, b.node, env))
  {
    hide BeginNode;
    hide ResolveNode;
    hide Follows;
    assert AsParsed(c) == ParseNode(o, sr);
  }

  lemma {:induction false} MappingRestFollows(l: Options, o: Options, b: Begun, c: Begun)
    requires Modes(l, o) && Sound(o, c.st) && Alike(b.st, c.st)
    requires b.node == c.node && b.node.Mapping?
    ensures RestFollows(l, o, b, c)
    decreases |b.st.rest|, 2
  {
    hide FinishCollection;
    hide Alike;
    hide Sound;
    hide ResolveNode;
    hide CloneWithoutComments;
    hide Closed;
    hide Define;
    hide ParseEntries;
    var Mapping(_, style, tag, loc, meta) := b.node;
    EntriesFollowUp(l, o, b.st, c.st);
    var p, q := ParseEntries(l, b.st), ParseEntries(o, c.st);
    if p.Ok? {
      var n := Mapping(p.value.entries, style, tag, loc, meta);
      FinishKeepsChildren(l, p.value.st, n);
      if q.Ok? {
        var m := Mapping(q.value.entries, style, tag, loc, meta);
        EndFollows(l, o, p.value.st, q.value.st, n, m, MappingKind);
        var f := FinishCollection(l, p.value.st, n);
        if f.Ok? {
          var closed := Closed(o, m, p.value.st.rest[0].span.end).value;
          MappingFollows(o, f.value.node, closed, EnvOf(c.st), ResolveEntries(o, p.value.entries, EnvOf(c.st)).value);
        }
      } else {
        MappingFails(o, p.value.entries, EnvOf(c.st));
      }
    }
  }

  /** An alias that cannot be resolved makes its collection fail the same way. */
  lemma MappingFails(o: Options, entries: seq<Ast.Entry>, env: Env)
    requires ResolveEntries(o, entries, env).Err?
    ensures forall n: Node :: n.Mapping? && n.entries == entries ==>
              ResolveNode(o, n, env) == Err(ResolveEntries(o, entries, env).error)
  {
  }

  lemma SequenceFails(o: Options, items: seq<Node>, env: Env)
    requires ResolveItems(o, items, env).Err?
    ensures forall n: Node :: n.Sequence? && n.items == items ==>
              ResolveNode(o, n, env) == Err(ResolveItems(o, items, env).error)
  {
  }

  lemma FinishKeepsChildren(l: Options, st: State, n: Node)
    ensures var r := FinishCollection(l, st, n);
            r.Ok? ==> SameChildren(n, r.value.node)
  {
    hide ResolveScalar;
    hide ResolvedTag.Uri;
    hide RegisterAnchor;
  }

  lemma {:induction false} SequenceRestFollows(l: Options, o: Options, b: Begun, c: Begun)
    requires Modes(l, o) && Sound(o, c.st) && Alike(b.st, c.st)
    requires b.node == c.node && b.node.Sequence?
    ensures RestFollows(l, o, b, c)
    decreases |b.st.rest|, 2
  {
    hide FinishCollection;
    hide Alike;
    hide Sound;
    hide ResolveNode;
    hide CloneWithoutComments;
    hide Closed;
    hide Define;
    hide ParseItems;
    var Sequence(_, style, tag, loc, meta) := b.node;
    ItemsFollowUp(l, o, b.st, c.st);
    var p, q := ParseItems(l, b.st), ParseItems(o, c.st);
    if p.Ok? {
      var n := Sequence(p.value.items, style, tag, loc, meta);
      FinishKeepsChildren(l, p.value.st, n);
      if q.Ok? {
        var m := Sequence(q.value.items, style, tag, loc, meta);
        EndFollows(l, o, p.value.st, q.value.st, n, m, SequenceKind);
        var f := FinishCollection(l, p.value.st, n);
        if f.Ok? {
          var closed := Closed(o, m, p.value.st.rest[0].span.end).value;
          SequenceFollows(o, f.value.node, closed, EnvOf(c.st), ResolveItems(o, p.value.items, EnvOf(c.st)).value);
        }
      } else {
        SequenceFails(o, p.value.items, EnvOf(c.st));
      }
    }
  }

  /** The part of loading entries that comes after the first key. */
  function ParseAfterKey(o: Options, key: Parsed): LoadResult<ParsedEntries> {
    var v :- ParseNode(o, key.st);
    var value := FinishValue(o, v.st, v.node);
    var more :- ParseEntries(o, value.st);
    Ok(ParsedEntries([Ast.Entry(key.node, value.node)] + more.entries, more.st))
  }

  /** The meaning of entries once the first key is known to mean `key`. */
  function ResolveAfterKey(o: Options, key: Node, entries: seq<Ast.Entry>, env: Env): LoadResult<EntriesResolution>
    requires entries != []
  {
    var v :- ResolveNode(o, entries[0].value, env);
    var more :- ResolveEntries(o, entries[1..], v.env);
    Ok(EntriesResolution([Ast.Entry(key, v.node)] + more.entries, more.env))
  }

  lemma {:induction false} AfterKeyFollows(l: Options, o: Options, keyl: Parsed, keyr: Parsed)
    requires Modes(l, o) && Sound(o, keyr.st) && Alike(keyl.st, keyr.st)
    ensures var r := ParseAfterKey(l, keyl);
            if r.Err? then ParseAfterKey(o, keyr).Err?
            else
              && r.value.entries != [] && r.value.entries[0].key == keyl.node
              && EntriesFollow(ParseAfterKey(o, keyr), r.value.st,
                               ResolveAfterKey(o, CloneWithoutComments(keyr.node), r.value.entries, EnvOf(keyr.st)))
    decreases |keyl.st.rest|, 2
  {
    hide Alike;
    hide Sound;
    hide ResolveNode;
    hide CloneWithoutComments;
    hide FinishValue;
    hide FinishKey;
    hide NextEntryOf;
    NodeFollows(l, o, keyl.st, keyr.st);
    ParseNodeIsSound(o, keyr.st);
    var vl, vr := ParseNode(l, keyl.st), ParseNode(o, keyr.st);
    if vl.Ok? {
      FinishChangesOnlyComments(l, vl.value.st, vl.value.node, None);
      var valuel := FinishValue(l, vl.value.st, vl.value.node);
      var ml := ParseEntries(l, valuel.st);
      if ml.Ok? {
        assert ([Ast.Entry(keyl.node, valuel.node)] + ml.value.entries)[1..] == ml.value.entries;
      }
      if vr.Ok? {
        FinishChangesOnlyComments(o, vr.value.st, vr.value.node, None);
        FinishIsSound(o, vr.value.st, vr.value.node, None);
        var valuer := FinishValue(o, vr.value.st, vr.value.node);
        OnlyCommentsAlike(vl.value.st, vr.value.st, vl.value.node, vr.value.node, valuel, valuer);
        EntriesFollowUp(l, o, valuel.st, valuer.st);
        var mr := ParseEntries(o, valuer.st);
        if mr.Ok? {
          assert ([Ast.Entry(keyr.node, valuer.node)] + mr.value.entries)[1..] == mr.value.entries;
        }
      }
    }
  }

  lemma ParseEntriesSteps(o: Options, st: State)
    ensures var next := NextEntryOf(o, st, MappingKind);
            if next.Err? then ParseEntries(o, st).Err?
            else if next.value.entry.Closed? then ParseEntries(o, st) == Ok(ParsedEntries([], next.value.st))
            else
              var k := ParseNode(o, next.value.st);
              if k.Err? then ParseEntries(o, st) == Err(k.error)
              else
                var key := FinishKey(o, k.value.st, k.value.node, next.value.entry.comments);
                ParseEntries(o, st) == ParseAfterKey(o, key)
  {
    hide NextEntryOf;
    hide FinishKey;
    hide FinishValue;
  }

  lemma ResolveEntriesSteps(o: Options, entries: seq<Ast.Entry>, env: Env)
    requires entries != []
    ensures var k := ResolveNode(o, entries[0].key, env);
            ResolveEntries(o, entries, env) ==
            if k.Err? then Err(k.error) else ResolveAfterKey(o, k.value.node, entries, k.value.env)
  {
    hide ResolveNode;
  }

  lemma {:induction false} EntriesFollowUp(l: Options, o: Options, sl: State, sr: State)
    requires Modes(l, o) && Sound(o, sr) && Alike(sl, sr)
    ensures var r := ParseEntries(l, sl);
            if r.Err? then ParseEntries(o, sr).Err?
            else EntriesFollow(ParseEntries(o, sr), r.value.st, ResolveEntries(o, r.value.entries, EnvOf(sr)))
    decreases |sl.rest|, 1
  {
    hide Alike;
    hide Sound;
    hide ResolveNode;
    hide CloneWithoutComments;
    hide NextEntryOf;
    hide FinishKey;
    hide ParseEntries;
    hide ParseAfterKey;
    hide ResolveAfterKey;
    NextEntryAlike(l, o, sl, sr, MappingKind);
    NextEntryIsSound(o, sr, MappingKind);
    ParseEntriesSteps(l, sl);
    ParseEntriesSteps(o, sr);
    var a, b := NextEntryOf(l, sl, MappingKind), NextEntryOf(o, sr, MappingKind);
    if a.Ok? && a.value.entry.More? {
      hide ResolveEntries;
      hide EntriesFollow;
      NodeFollows(l, o, a.value.st, b.value.st);
      ParseNodeIsSound(o, b.value.st);
      var kl, kr := ParseNode(l, a.value.st), ParseNode(o, b.value.st);
      if kl.Ok? {
        FinishChangesOnlyComments(l, kl.value.st, kl.value.node, a.value.entry.comments);
        var keyl := FinishKey(l, kl.value.st, kl.value.node, a.value.entry.comments);
        if ParseAfterKey(l, keyl).Ok? && kr.Err? {
          KeyFails(l, o, keyl, EnvOf(sr), kr);
        }
        if kr.Ok? {
          FinishChangesOnlyComments(o, kr.value.st, kr.value.node, b.value.entry.comments);
          FinishIsSound(o, kr.value.st, kr.value.node, b.value.entry.comments);
          var keyr := FinishKey(o, kr.value.st, kr.value.node, b.value.entry.comments);
          OnlyCommentsAlike(kl.value.st, kr.value.st, kl.value.node, kr.value.node, keyl, keyr);
          AfterKeyFollows(l, o, keyl, keyr);
          if ParseAfterKey(l, keyl).Ok? {
            ResolveEntriesSteps(o, ParseAfterKey(l, keyl).value.entries, EnvOf(sr));
          }
        }
      }
    }
  }

  /** A key that cannot be resolved makes the entries fail the same way. */
  lemma KeyFails(l: Options, o: Options, key: Parsed, env: Env, r: LoadResult<Parsed>)
    requires ParseAfterKey(l, key).Ok? && r.Err?
    requires ResolveNode(o, key.node, env) == Err(r.error)
    ensures ResolveEntries(o, ParseAfterKey(l, key).value.entries, env) == Err(r.error)
    ensures forall s: State :: EntriesFollow(Err(r.error), s, Err(r.error))
  {
    hide ResolveNode;
    hide FinishValue;
  }

  /** The part of loading items that comes after the first item. */
  function ParseAfterItem(o: Options, item: Parsed): LoadResult<ParsedItems> {
    var more :- ParseItems(o, item.st);
    Ok(ParsedItems([item.node] + more.items, more.st))
  }

  lemma ParseItemsSteps(o: Options, st: State)
    ensures var next := NextEntryOf(o, st, SequenceKind);
            if next.Err? then ParseItems(o, st).Err?
            else if next.value.entry.Closed? then ParseItems(o, st) == Ok(ParsedItems([], next.value.st))
            else
              var i := ParseNode(o, next.value.st);
              if i.Err? then ParseItems(o, st) == Err(i.error)
              else
                var item := FinishItem(o, i.value.st, i.value.node, next.value.entry.comments);
                ParseItems(o, st) == ParseAfterItem(o, item)
  {
    hide NextEntryOf;
    hide FinishItem;
  }

  lemma {:induction false} AfterItemFollows(l: Options, o: Options, iteml: Parsed, itemr: Parsed, env: Env)
    requires Modes(l, o) && Sound(o, itemr.st) && Alike(iteml.st, itemr.st)
    requires ResolveNode(o, iteml.node, env) == Ok(Resolution(CloneWithoutComments(itemr.node), EnvOf(itemr.st)))
    ensures var r := ParseAfterItem(l, iteml);
            if r.Err? then ParseAfterItem(o, itemr).Err?
            else ItemsFollow(ParseAfterItem(o, itemr), r.value.st, ResolveItems(o, r.value.items, env))
    decreases |iteml.st.rest|, 2
  {
    hide Alike;
    hide Sound;
    hide ResolveNode;
    hide CloneWithoutComments;
    ItemsFollowUp(l, o, iteml.st, itemr.st);
    var ml, mr := ParseItems(l, iteml.st), ParseItems(o, itemr.st);
    if ml.Ok? {
      assert ([iteml.node] + ml.value.items)[1..] == ml.value.items;
    }
    if mr.Ok? {
      assert ([itemr.node] + mr.value.items)[1..] == mr.value.items;
    }
  }

  /** An item that cannot be resolved makes the items fail the same way. */
  lemma ItemFails(l: Options, o: Options, item: Parsed, env: Env, r: LoadResult<Parsed>)
    requires ParseAfterItem(l, item).Ok? && r.Err?
    requires ResolveNode(o, item.node, env) == Err(r.error)
    ensures ResolveItems(o, ParseAfterItem(l, item).value.items, env) == Err(r.error)
  {
    hide ResolveNode;
  }

  lemma {:induction false} ItemsFollowUp(l: Options, o: Options, sl: State, sr: State)
    requires Modes(l, o) && Sound(o, sr) && Alike(sl, sr)
    ensures var r := ParseItems(l, sl);
            if r.Err? then ParseItems(o, sr).Err?
            else ItemsFollow(ParseItems(o, sr), r.value.st, ResolveItems(o, r.value.items, EnvOf(sr)))
    decreases |sl.rest|, 1
  {
    hide Alike;
    hide Sound;
    hide ResolveNode;
    hide CloneWithoutComments;
    hide NextEntryOf;
    hide FinishItem;
    hide ParseItems;
    hide ParseAfterItem;
    NextEntryAlike(l, o, sl, sr, SequenceKind);
    NextEntryIsSound(o, sr, SequenceKind);
    ParseItemsSteps(l, sl);
    ParseItemsSteps(o, sr);
    var a, b := NextEntryOf(l, sl, SequenceKind), NextEntryOf(o, sr, SequenceKind);
    if a.Ok? && a.value.entry.More? {
      hide ResolveItems;
      NodeFollows(l, o, a.value.st, b.value.st);
      ParseNodeIsSound(o, b.value.st);
      var il, ir := ParseNode(l, a.value.st), ParseNode(o, b.value.st);
      if il.Ok? {
        FinishChangesOnlyComments(l, il.value.st, il.value.node, a.value.entry.comments);
        var iteml := FinishItem(l, il.value.st, il.value.node, a.value.entry.comments);
        if ir.Ok? {
          FinishChangesOnlyComments(o, ir.value.st, ir.value.node, b.value.entry.comments);
          FinishIsSound(o, ir.value.st, ir.value.node, b.value.entry.comments);
          var itemr := FinishItem(o, ir.value.st, ir.value.node, b.value.entry.comments);
          OnlyCommentsAlike(il.value.st, ir.value.st, il.value.node, ir.value.node, iteml, itemr);
          AfterItemFollows(l, o, iteml, itemr, EnvOf(sr));
        } else if ParseAfterItem(l, iteml).Ok? {
          ItemFails(l, o, iteml, EnvOf(sr), ir);
        }
      }
    }
  }

  // ----- Documents -----

  /** The same document, with the tree `root` once comments are removed. */
  predicate SameDocument(l: Document, r: Document, root: Node) {
    && CloneWithoutComments(r.root) == root
    && l.version == r.version && l.tags == r.tags
    && l.prefixComments == r.prefixComments && l.comments == r.comments && l.afterEndComments == r.afterEndComments
    && l.explicitStart == r.explicitStart && l.explicitEnd == r.explicitEnd
  }

  predicate SameDocuments(l: seq<Document>, r: seq<Document>, roots: seq<Node>) {
    |l| == |r| == |roots| && forall i :: 0 <= i < |l| ==> SameDocument(l[i], r[i], roots[i])
  }

  lemma RootFollows(l: Options, o: Options, sl: State, sr: State)
    requires Modes(l, o) && Sound(o, sr) && Alike(sl, sr) && sl.rest == sr.rest
    ensures var r := ParseRoot(l, sl);
            if r.Err? then ParseRoot(o, sr).Err?
            else Follows(ParseRoot(o, sr), r.value.st, ResolveNode(o, r.value.node, EnvOf(sr)))
  {
    hide ParseNode;
    hide ApplySchema;
    NodeFollows(l, o, sl, sr);
    EmptyRootFollows(l, o);
  }

  lemma EmptyRootFollows(l: Options, o: Options)
    requires Modes(l, o)
    ensures ApplySchema(l, EMPTY_SCALAR) == ApplySchema(o, EMPTY_SCALAR)
    ensures var r := ApplySchema(l, EMPTY_SCALAR);
            r.Ok? ==> forall env :: ResolveNode(o, r.value, env) == Ok(Resolution(CloneWithoutComments(r.value), env))
  {
    hide ResolveScalar;
    hide ResolvedTag.Uri;
  }

  ghost predicate DocumentFollows(
    o: Options, r: LoadResult<LoadedDocument>, l: LoadedDocument, spec: LoadResult<Resolution>)
  {
    if spec.Err? then r == Err(spec.error)
    else
      && r.Ok?
      && SameDocument(l.document, r.value.document, spec.value.node)
      && r.value.st.rest == l.st.rest && r.value.st.depth == l.st.depth
  }

  lemma {:induction false} EndDocumentFollows(
    l: Options, o: Options, pl: Parsed, pr: Parsed, start: Event, outside: seq<string>, comments: seq<string>)
    requires Modes(l, o) && start.DocumentStart? && Alike(pl.st, pr.st)
    ensures var a, b := EndDocument(l, pl, start, outside, comments), EndDocument(o, pr, start, outside, comments);
            && a.Ok? == b.Ok?
            && (a.Ok? ==>
              && SameDocument(a.value.document, b.value.document, CloneWithoutComments(pr.node))
              && (forall env :: ResolveNode(o, a.value.document.root, env) == ResolveNode(o, pl.node, env))
              && a.value.st.rest == b.value.st.rest && a.value.st.depth == b.value.st.depth)
  {
    hide ResolveNode;
    hide CloneWithoutComments;
    hide FinishValue;
    hide CommentRun;
    FinishChangesOnlyComments(l, pl.st, pl.node, None);
    FinishChangesOnlyComments(o, pr.st, pr.node, None);
    var fl, fr := FinishValue(l, pl.st, pl.node), FinishValue(o, pr.st, pr.node);
    assert SkipComments(fl.st.rest) == SkipComments(fr.st.rest);
  }

  lemma {:induction false} LoadDocumentFollows(
    l: Options, o: Options, sl: State, sr: State, start: Event, outside: seq<string>)
    requires Modes(l, o) && start.DocumentStart? && sl.rest == sr.rest && sl.depth == sr.depth
    ensures var r := LoadDocument(l, sl, start, outside);
            if r.Err? then LoadDocument(o, sr, start, outside).Err?
            else DocumentFollows(o, LoadDocument(o, sr, start, outside), r.value,
                                 ResolveNode(o, r.value.document.root, Env(map[], 0)))
  {
    hide ParseRoot;
    hide EndDocument;
    hide ResolveNode;
    hide SameDocument;
    hide CloneWithoutComments;
    hide Sound;
    ResetIsSound(o, sr);
    var run := CommentRun(sl.rest);
    var tl, tr := Reset(sl).(rest := sl.rest[run..]), Reset(sr).(rest := sl.rest[run..]);
    SoundAnywhere(o, Reset(sr), tr.rest);
    RootFollows(l, o, tl, tr);
    var pl, pr := ParseRoot(l, tl), ParseRoot(o, tr);
    if pl.Ok? {
      EndKeepsTheRoot(l, o, pl.value, start, outside, Texts(RawComments(sl.rest[..run])));
      if pr.Ok? {
        EndDocumentFollows(l, o, pl.value, pr.value, start, outside, Texts(RawComments(sl.rest[..run])));
      }
    }
  }

  lemma EndKeepsTheRoot(l: Options, o: Options, p: Parsed, start: Event, outside: seq<string>, comments: seq<string>)
    requires start.DocumentStart?
    ensures var r := EndDocument(l, p, start, outside, comments);
            r.Ok? ==> forall env :: ResolveNode(o, r.value.document.root, env) == ResolveNode(o, p.node, env)
  {
    hide ResolveNode;
    hide CloneWithoutComments;
    hide FinishValue;
    FinishChangesOnlyComments(l, p.st, p.node, None);
  }

  ghost predicate DocumentsFollow(r: LoadResult<Loaded>, l: Loaded, spec: LoadResult<seq<Node>>) {
    if spec.Err? then r == Err(spec.error)
    else
      && r.Ok?
      && SameDocuments(l.documents, r.value.documents, spec.value)
      && r.value.outside == l.outside && r.value.st.rest == l.st.rest
  }

  lemma {:induction false} LoadDocumentsFollow(l: Options, o: Options, sl: State, sr: State, outside: seq<string>)
    requires Modes(l, o) && sl.rest == sr.rest && sl.depth == sr.depth
    ensures var r := LoadDocuments(l, sl, outside);
            if r.Err? then LoadDocuments(o, sr, outside).Err?
            else DocumentsFollow(LoadDocuments(o, sr, outside), r.value, ResolveDocuments(o, r.value.documents))
    decreases |sl.rest|
  {
    hide LoadDocument;
    hide ResolveNode;
    hide SameDocument;
    if sl.rest != [] && sl.rest[0].Good? {
      var event := sl.rest[0].event;
      var tl, tr := sl.(rest := sl.rest[1..]), sr.(rest := sr.rest[1..]);
      if event.DocumentStart? {
        LoadDocumentFollows(l, o, tl, tr, event, outside);
        var dl, dr := LoadDocument(l, tl, event, outside), LoadDocument(o, tr, event, outside);
        if dl.Ok? {
          var ml := LoadDocuments(l, dl.value.st, []);
          if ml.Ok? {
            assert ([dl.value.document] + ml.value.documents)[1..] == ml.value.documents;
          }
          if dr.Ok? {
            LoadDocumentsFollow(l, o, dl.value.st, dr.value.st, []);
          }
        }
      } else if event.Comment? {
        LoadDocumentsFollow(l, o, tl, tr, outside + [WithHash(event.text)]);
      } else if !event.StreamEnd? && !IsNodeEvent(event) {
        LoadDocumentsFollow(l, o, tl, tr, outside);
      }
    }
  }

  lemma GivingKeepsTheRest(l: seq<Document>, r: seq<Document>, roots: seq<Node>, outside: seq<string>)
    requires SameDocuments(l, r, roots)
    ensures SameDocuments(GiveToLast(l, outside), GiveToLast(r, outside), roots)
  {
    hide CloneWithoutComments;
  }

  lemma {:induction false} ResolveDocumentsByRoots(o: Options, a: seq<Document>, b: seq<Document>)
    requires |a| == |b| && forall i :: 0 <= i < |a| ==> a[i].root == b[i].root
    ensures ResolveDocuments(o, a) == ResolveDocuments(o, b)
  {
    hide ResolveNode;
    if a != [] {
      ResolveDocumentsByRoots(o, a[1..], b[1..]);
    }
  }

  /**
   The refinement for a whole stream.  If lossless loading fails, so does
   resolved loading.  If it succeeds, resolved loading gives the same documents
   with every alias replaced by what it means, or fails with the error that the
   meaning of aliases gives: an undefined name, or the expansion limit.
   */
  lemma {:induction false} ResolvedRefinesLossless(o: Options, stream: seq<Item>)
    requires o.mode.Resolved?
    ensures var l, r := Run(o.(mode := Lossless), stream), Run(o, stream);
            if l.Err? then r.Err?
            else DocumentsFollow(r, l.value, ResolveDocuments(o, l.value.documents))
  {
    hide LoadDocuments;
    hide SameDocuments;
    hide ResolveDocuments;
    var lo := o.(mode := Lossless);
    var st := InitialState(if stream == [] then [] else stream[1..]);
    LoadDocumentsFollow(lo, o, st, st, []);
    var l, r := LoadDocuments(lo, st, []), LoadDocuments(o, st, []);
    if l.Ok? {
      var documents := GiveToLast(l.value.documents, l.value.outside);
      ResolveDocumentsByRoots(o, l.value.documents, documents);
      if r.Ok? {
        var roots := ResolveDocuments(o, l.value.documents);
        GivingKeepsTheRest(l.value.documents, r.value.documents, roots.value, l.value.outside);
      }
    }
  }
}
