/**
 Where the comments around an alias go.  In resolved mode they are placed by the
 node the alias stands for: when that makes no difference, and what is put on a
 node in both cases.
 */
module AliasPlacement {
  import opened Wrappers
  import opened Events
  import opened Schema
  import opened Ast
  import opened AstLemmas
  import opened LoaderSpec
  import opened LoaderAnchors
  import opened AliasSemantics

  function InLossless(o: Options): Options {
    o.(mode := Lossless)
  }

  // ----- When placing makes no difference -----

  /** Whether the comment in front of the stream stands on the line of `n`. */
  predicate TakesComment(o: Options, n: Node, rest: seq<Item>, asKey: bool)
    requires StartsWithComment(rest)
  {
    var line := if asKey then KeyCommentLine(o, n) else CommentLine(o, n);
    line.Some? && o.Line(rest[0].span.start) == line.value
  }

  /**
   The comments around an alias go where they would go around the node it
   stands for: none of those in front stands below the properties of an empty
   node, and the next one ends the line of the one if it ends that of the other.
   */
  predicate Settles(o: Options, env: Env, n: Node, comments: Option<EntryComments>, rest: seq<Item>, asKey: bool) {
    n.Alias? && n.name in env.anchors ==>
      var meant := env.anchors[n.name].WithLoc(n.loc);
      && (comments.Some? ==> SplitComments(o, meant, comments.value.raw).after == [])
      && (StartsWithComment(rest) ==> TakesComment(o, n, rest, asKey) == TakesComment(o, meant, rest, asKey))
  }

  /** Every alias in the node that is loaded next settles. */
  predicate NodeSettles(o: Options, st: State, env: Env)
    decreases |st.rest|, 0
  {
    var b := BeginNode(InLossless(o), st);
    b.Ok? && b.value.follow ==>
      if b.value.node.Mapping? then EntriesSettle(o, b.value.st, env) else ItemsSettle(o, b.value.st, env)
  }

  predicate EntriesSettle(o: Options, st: State, env: Env)
    decreases |st.rest|, 1
  {
    var l := InLossless(o);
    var next := NextEntryOf(l, st, MappingKind);
    next.Ok? && next.value.entry.More? ==>
      var k := ParseNode(l, next.value.st);
      k.Ok? ==>
        && NodeSettles(o, next.value.st, env)
        && Settles(o, env, k.value.node, next.value.entry.comments, k.value.st.rest, true)
        && AfterKeySettles(o, FinishKey(l, k.value.st, k.value.node, next.value.entry.comments), env)
  }

  predicate AfterKeySettles(o: Options, key: Parsed, env: Env)
    decreases |key.st.rest|, 3
  {
    var l := InLossless(o);
    var e, v := KeepNode(o, key.node, env), ParseNode(l, key.st);
    e.Ok? && v.Ok? ==>
      && NodeSettles(o, key.st, e.value.env)
      && Settles(o, e.value.env, v.value.node, None, v.value.st.rest, false)
      && AfterValueSettles(o, FinishValue(l, v.value.st, v.value.node), e.value.env)
  }

  predicate AfterValueSettles(o: Options, value: Parsed, env: Env)
    decreases |value.st.rest|, 2
  {
    var e := KeepNode(o, value.node, env);
    e.Ok? ==> EntriesSettle(o, value.st, e.value.env)
  }

  predicate ItemsSettle(o: Options, st: State, env: Env)
    decreases |st.rest|, 1
  {
    var l := InLossless(o);
    var next := NextEntryOf(l, st, SequenceKind);
    next.Ok? && next.value.entry.More? ==>
      var i := ParseNode(l, next.value.st);
      i.Ok? ==>
        && NodeSettles(o, next.value.st, env)
        && Settles(o, env, i.value.node, next.value.entry.comments, i.value.st.rest, false)
        && AfterItemSettles(o, FinishItem(l, i.value.st, i.value.node, next.value.entry.comments), env)
  }

  predicate AfterItemSettles(o: Options, item: Parsed, env: Env)
    decreases |item.st.rest|, 2
  {
    var e := KeepNode(o, item.node, env);
    e.Ok? ==> ItemsSettle(o, item.st, e.value.env)
  }

  // ----- Placing is the same in both modes -----

  lemma {:induction false} UpToLineInLossless(o: Options, raw: seq<RawComment>, line: nat)
    ensures UpToLine(InLossless(o), raw, line) == UpToLine(o, raw, line)
  {
    if raw != [] {
      UpToLineInLossless(o, raw[1..], line);
    }
  }

  lemma SplitInLossless(o: Options, n: Node, raw: seq<RawComment>)
    ensures SplitComments(InLossless(o), n, raw) == SplitComments(o, n, raw)
  {
    hide UpToLine;
    if PropertiesEnd(n).Some? {
      UpToLineInLossless(o, raw, o.Line(PropertiesEnd(n).value));
    }
  }

  lemma FinishInLossless(o: Options, st: State, n: Node, comments: Option<EntryComments>)
    ensures FinishKey(InLossless(o), st, n, comments) == FinishKey(o, st, n, comments)
    ensures FinishItem(InLossless(o), st, n, comments) == FinishItem(o, st, n, comments)
    ensures FinishValue(InLossless(o), st, n) == FinishValue(o, st, n)
  {
    hide SplitComments;
    hide AttachLeading;
    hide AttachTrailing;
    if comments.Some? {
      SplitInLossless(o, n, comments.value.raw);
    }
  }

  lemma SchemaInLossless(o: Options, n: Node)
    ensures ApplySchema(InLossless(o), n) == ApplySchema(o, n)
  {
    hide ResolveScalar;
    hide ResolvedTag.Uri;
  }

  // ----- What is put on a node -----

  /** The comments in front that stay with the node. */
  function Held(o: Options, n: Node, comments: Option<EntryComments>): seq<string> {
    match comments
    case None => []
    case Some(c) => c.inherited + SplitComments(o, n, c.raw).before
  }

  /** The comments in front that move on. */
  function PassedOn(o: Options, n: Node, comments: Option<EntryComments>): seq<string> {
    match comments
    case None => []
    case Some(c) => SplitComments(o, n, c.raw).after
  }

  function Taken(o: Options, n: Node, rest: seq<Item>, asKey: bool): Option<string> {
    if StartsWithComment(rest) && TakesComment(o, n, rest, asKey) then Some(WithHash(rest[0].event.text)) else None
  }

  /** A key, or else an item or a value, with the comments around it. */
  function FinishNode(o: Options, st: State, n: Node, comments: Option<EntryComments>, asKey: bool): Parsed {
    var taken := Taken(o, n, st.rest, asKey);
    Parsed(Dress(n, Held(o, n, comments), taken),
           st.(rest := if taken.Some? then st.rest[1..] else st.rest, pending := st.pending + PassedOn(o, n, comments)))
  }

  lemma AttachKeepsTheLine(o: Options, n: Node, comments: seq<string>)
    ensures CommentLine(o, AttachLeading(n, comments)) == CommentLine(o, n)
    ensures KeyCommentLine(o, AttachLeading(n, comments)) == KeyCommentLine(o, n)
  {
  }

  lemma FinishIsDressing(o: Options, st: State, n: Node, comments: Option<EntryComments>)
    ensures FinishKey(o, st, n, comments) == FinishNode(o, st, n, comments, true)
    ensures FinishItem(o, st, n, comments) == FinishNode(o, st, n, comments, false)
    ensures FinishValue(o, st, n) == FinishNode(o, st, n, None, false)
  {
    hide SplitComments;
    hide AttachLeading;
    hide AttachTrailing;
    hide CommentLine;
    hide KeyCommentLine;
    AttachKeepsTheLine(o, n, Held(o, n, comments));
    assert st.pending + [] == st.pending;
    AttachingNothing(n);
  }

  lemma AttachingNothing(n: Node)
    ensures AttachLeading(n, []) == n
  {
  }

  predicate Undressed(n: Node) {
    n.LeadingComments() == [] && n.TrailingComment() == None
  }

  lemma DressShows(n: Node, leading: seq<string>, trailing: Option<string>)
    requires Undressed(n)
    ensures var d := Dress(n, leading, trailing); d.LeadingComments() == leading && d.TrailingComment() == trailing
  {
  }

  lemma DressKeepsChildren(n: Node, leading: seq<string>, trailing: Option<string>)
    ensures SameChildren(n, Dress(n, leading, trailing)) && SameChildren(Dress(n, leading, trailing), n)
  {
  }

  /** Nodes that place comments alike: what is put on the one is put on the other. */
  predicate PlaceAlike(n: Node, m: Node) {
    PropertiesEnd(n) == PropertiesEnd(m) && IsBlockScalar(n) == IsBlockScalar(m) && n.loc == m.loc
  }

  lemma LinesAlike(o: Options, n: Node, m: Node)
    requires PlaceAlike(n, m)
    ensures CommentLine(o, n) == CommentLine(o, m) && KeyCommentLine(o, n) == KeyCommentLine(o, m)
  {
    hide PropertiesEnd;
  }

  lemma SplitAlike(o: Options, n: Node, m: Node, raw: seq<RawComment>)
    requires PlaceAlike(n, m)
    ensures SplitComments(o, n, raw) == SplitComments(o, m, raw)
  {
    hide UpToLine;
    hide Texts;
    hide PropertiesEnd;
  }

  lemma PlacedAlike(o: Options, n: Node, m: Node, comments: Option<EntryComments>, rest: seq<Item>, asKey: bool)
    requires PlaceAlike(n, m)
    ensures Held(o, n, comments) == Held(o, m, comments) && PassedOn(o, n, comments) == PassedOn(o, m, comments)
    ensures Taken(o, n, rest, asKey) == Taken(o, m, rest, asKey)
  {
    hide SplitComments;
    hide CommentLine;
    hide KeyCommentLine;
    hide PlaceAlike;
    LinesAlike(o, n, m);
    if comments.Some? {
      SplitAlike(o, n, m, comments.value.raw);
    }
  }

  /** Only an alias is replaced by a node that places comments otherwise. */
  lemma KeptPlacesAlike(o: Options, n: Node, env: Env)
    requires !n.Alias?
    ensures var k := KeepNode(o, n, env); k.Ok? ==> PlaceAlike(n, k.value.node)
  {
    hide Define;
    hide KeepEntries;
    hide KeepItems;
  }

  lemma AliasMeans(o: Options, n: Node, env: Env)
    requires n.Alias? && Undressed(n) && BareAnchors(env)
    ensures var k := KeepNode(o, n, env);
            k.Ok? ==>
              n.name in env.anchors && k.value.node == env.anchors[n.name].WithLoc(n.loc) && Undressed(k.value.node)
  {
    if n.name in env.anchors {
      var m := env.anchors[n.name];
      assert CloneWithoutComments(m) == m;
      CloneIsUndressed(m);
      AttachingNothing(m.WithLoc(n.loc));
    }
  }

  lemma CloneIsUndressed(n: Node)
    ensures Undressed(CloneWithoutComments(n))
  {
  }

  /** An alias holds all comments in front of it; what it stands for does exactly when none moves on. */
  lemma AliasHolds(o: Options, n: Node, m: Node, comments: Option<EntryComments>)
    requires n.Alias?
    ensures PassedOn(o, n, comments) == []
    ensures Held(o, n, comments) == Held(o, m, comments) <==> PassedOn(o, m, comments) == []
  {
    hide UpToLine;
    if comments.Some? {
      var raw := comments.value.raw;
      assert Texts(raw)[..|raw|] == Texts(raw);
      var split := SplitComments(o, m, raw);
      assert |split.before| + |split.after| == |raw|;
      assert |Held(o, m, comments)| == |comments.value.inherited| + |split.before|;
      assert |Held(o, n, comments)| == |comments.value.inherited| + |raw|;
      if split.after == [] {
        assert split.before == Texts(raw);
      }
    }
  }

  lemma SettlesIsTakenAlike(
    o: Options, env: Env, n: Node, comments: Option<EntryComments>, rest: seq<Item>, asKey: bool)
    requires n.Alias? && n.name in env.anchors
    ensures var m := env.anchors[n.name].WithLoc(n.loc);
            Settles(o, env, n, comments, rest, asKey) <==>
              PassedOn(o, m, comments) == [] && Taken(o, n, rest, asKey) == Taken(o, m, rest, asKey)
  {
    hide SplitComments;
    hide TakesComment;
  }

  /** The comments around one node: placed as in lossless mode if and only if it settles. */
  lemma FinishKeeps(
    o: Options, sl: State, sr: State, nl: Node, nr: Node, comments: Option<EntryComments>, asKey: bool, env: Env)
    requires BareAnchors(env) && (nl.Alias? ==> Undressed(nl))
    requires KeepNode(o, nl, env).Ok?
    ensures var pl, pr := FinishNode(o, sl, nl, comments, asKey), FinishNode(o, sr, nr, comments, asKey);
            var before, after := KeepNode(o, nl, env).value, KeepNode(o, pl.node, env);
            && after.Ok? && after.value.env == before.env
            && (!SameChildren(nr, before.node) ==> !SameChildren(pr.node, after.value.node))
            && (nr == before.node && sl.rest == sr.rest && sl.pending == sr.pending ==>
                if Settles(o, env, nl, comments, sl.rest, asKey)
                then pr.node == after.value.node && pl.st.rest == pr.st.rest && pl.st.pending == pr.st.pending
                else pr.node != after.value.node)
  {
    hide KeepNode;
    hide Dress;
    hide Held;
    hide PassedOn;
    hide Taken;
    hide BareAnchors;
    hide Settles;
    var held, taken := Held(o, nl, comments), Taken(o, nl, sl.rest, asKey);
    KeepDresses(o, nl, held, taken, env);
    var m := KeepNode(o, nl, env).value.node;
    DressKeepsChildren(m, held, taken);
    var held', taken' := Held(o, nr, comments), Taken(o, nr, sr.rest, asKey);
    DressKeepsChildren(nr, held', taken');
    if nr == m && sl.rest == sr.rest && sl.pending == sr.pending {
      if nl.Alias? {
        AliasMeans(o, nl, env);
        AliasHolds(o, nl, m, comments);
        SettlesIsTakenAlike(o, env, nl, comments, sl.rest, asKey);
        DressShows(m, held, taken);
        DressShows(m, held', taken');
      } else {
        KeptPlacesAlike(o, nl, env);
        PlacedAlike(o, nl, m, comments, sl.rest, asKey);
        OnlyAliasesUnsettle(o, env, nl, comments, sl.rest, asKey);
      }
    }
  }

  lemma OnlyAliasesUnsettle(
    o: Options, env: Env, n: Node, comments: Option<EntryComments>, rest: seq<Item>, asKey: bool)
    requires !n.Alias?
    ensures Settles(o, env, n, comments, rest, asKey)
  {
  }
}
