/**
 Comments keep their order and their lines.  The comments that stand before
 something and the comments at the end of a line are two sequences, each in the
 order of the source; together they are the comments of the stream, and every
 comment at the end of a line stood on the line where its node ends.
 */
module LoaderOrder {
  import opened Wrappers
  import opened Events
  import opened Schema
  import opened Ast
  import opened AstLemmas
  import opened LoaderSpec
  import opened LoaderAnchors
  import opened LoaderComments

  // ----- The comments of a stream and of a tree, in order -----

  /** A comment and the line it stands on. */
  type Placed = (string, Option<nat>)

  function PlacedComments(o: Options, stream: seq<Item>): seq<Placed> {
    if stream == [] then []
    else if StartsWithComment(stream) then
      [(WithHash(stream[0].event.text), Some(o.Line(stream[0].span.start)))] + PlacedComments(o, stream[1..])
    else PlacedComments(o, stream[1..])
  }

  function TextsOf(comments: seq<Placed>): (texts: seq<string>)
    ensures |texts| == |comments|
  {
    seq(|comments|, i requires 0 <= i < |comments| => comments[i].0)
  }

  /**
   The line at whose end the comment of a node may stand: the first line of a
   literal or folded scalar, and otherwise the line of the end of the text.  Text
   that ends with a line break ends on the line before.  A node without text has
   no such line.
   */
  function TextLine(o: Options, n: Node): Option<nat> {
    var (line, column) := o.lineColumn(n.loc.end);
    if n.Scalar? && (n.style.Literal? || n.style.Folded?) then Some(o.lineColumn(n.loc.start).0)
    else if n.loc.start == n.loc.end then None
    else if column == 0 && line > 0 then Some(line - 1)
    else Some(line)
  }

  /** For a key, also one without text has a line: that of its place. */
  function KeyTextLine(o: Options, n: Node): Option<nat> {
    if TextLine(o, n).None? then Some(o.lineColumn(n.loc.start).0) else TextLine(o, n)
  }

  lemma LinesAgree(o: Options, n: Node)
    ensures CommentLine(o, n) == TextLine(o, n) && KeyCommentLine(o, n) == KeyTextLine(o, n)
  {
  }

  /** The comments before the nodes of a tree, in document order. */
  function LeadOf(n: Node): seq<string>
    decreases n, 1
  {
    n.LeadingComments() + LeadInside(n)
  }

  function LeadInside(n: Node): seq<string>
    decreases n, 0
  {
    match n
    case Mapping(entries, _, _, _, _) => LeadEntries(entries)
    case Sequence(items, _, _, _, _) => LeadItems(items)
    case _ => []
  }

  function LeadEntries(entries: seq<Ast.Entry>): seq<string>
    decreases entries, 0
  {
    if entries == [] then []
    else
      assert entries[0].key < entries[0];
      LeadOf(entries[0].key) + LeadOf(entries[0].value) + LeadEntries(entries[1..])
  }

  function LeadItems(items: seq<Node>): seq<string>
    decreases items, 0
  {
    if items == [] then [] else LeadOf(items[0]) + LeadItems(items[1..])
  }

  /** The comments at the end of the lines of a tree, each with the line where its node ends. */
  function TrailOf(o: Options, n: Node, line: Option<nat>): seq<Placed>
    decreases n, 1
  {
    TrailInside(o, n) + OwnTrail(n, line)
  }

  function OwnTrail(n: Node, line: Option<nat>): seq<Placed> {
    if n.TrailingComment().Some? then [(n.TrailingComment().value, line)] else []
  }

  function TrailInside(o: Options, n: Node): seq<Placed>
    decreases n, 0
  {
    match n
    case Mapping(entries, _, _, _, _) => TrailEntries(o, entries)
    case Sequence(items, _, _, _, _) => TrailItems(o, items)
    case _ => []
  }

  function TrailEntries(o: Options, entries: seq<Ast.Entry>): seq<Placed>
    decreases entries, 0
  {
    if entries == [] then []
    else
      assert entries[0].key < entries[0];
      TrailOf(o, entries[0].key, KeyTextLine(o, entries[0].key))
      + TrailOf(o, entries[0].value, TextLine(o, entries[0].value))
      + TrailEntries(o, entries[1..])
  }

  function TrailItems(o: Options, items: seq<Node>): seq<Placed>
    decreases items, 0
  {
    if items == [] then [] else TrailOf(o, items[0], TextLine(o, items[0])) + TrailItems(o, items[1..])
  }

  // ----- Interleavings -----

  /** `all` is `lead`, of which only the texts are known, and `trail`, each in its order. */
  predicate Interleaves(all: seq<Placed>, lead: seq<string>, trail: seq<Placed>) {
    if all == [] then lead == [] && trail == []
    else
      || (lead != [] && lead[0] == all[0].0 && Interleaves(all[1..], lead[1..], trail))
      || (trail != [] && trail[0] == all[0] && Interleaves(all[1..], lead, trail[1..]))
  }

  lemma {:induction false} InterleavesAppend(
    a: seq<Placed>, lead: seq<string>, trail: seq<Placed>, a': seq<Placed>, lead': seq<string>, trail': seq<Placed>)
    requires Interleaves(a, lead, trail) && Interleaves(a', lead', trail')
    ensures Interleaves(a + a', lead + lead', trail + trail')
  {
    if a == [] {
      assert a + a' == a' && lead + lead' == lead' && trail + trail' == trail';
    } else {
      assert (a + a')[1..] == a[1..] + a';
      if lead != [] && lead[0] == a[0].0 && Interleaves(a[1..], lead[1..], trail) {
        assert (lead + lead')[1..] == lead[1..] + lead';
        InterleavesAppend(a[1..], lead[1..], trail, a', lead', trail');
      } else {
        assert (trail + trail')[1..] == trail[1..] + trail';
        InterleavesAppend(a[1..], lead, trail[1..], a', lead', trail');
      }
    }
  }

  lemma {:induction false} AllLead(all: seq<Placed>)
    ensures Interleaves(all, TextsOf(all), [])
  {
    if all != [] {
      AllLead(all[1..]);
      assert TextsOf(all)[1..] == TextsOf(all[1..]);
    }
  }

  /**
   Between two points of the stream with `before` and `after` still to be read:
   what was read, on top of the comments `waiting` at the first point, is `lead`
   and `trail` and the comments `left` waiting at the second.
   */
  ghost predicate Accounts(
    before: seq<Placed>, waiting: seq<string>, lead: seq<string>, trail: seq<Placed>, after: seq<Placed>,
    left: seq<string>)
  {
    exists used, taken :: AccountsBy(before, waiting, lead, trail, after, left, used, taken)
  }

  ghost predicate AccountsBy(
    before: seq<Placed>, waiting: seq<string>, lead: seq<string>, trail: seq<Placed>, after: seq<Placed>,
    left: seq<string>,
    used: seq<Placed>, taken: seq<string>)
  {
    before == used + after && waiting + taken == lead + left && Interleaves(used, taken, trail)
  }

  lemma AccountsThen(
    before: seq<Placed>, waiting: seq<string>, lead: seq<string>, trail: seq<Placed>,
    middle: seq<Placed>, between: seq<string>, lead': seq<string>, trail': seq<Placed>,
    after: seq<Placed>, left: seq<string>)
    requires Accounts(before, waiting, lead, trail, middle, between)
    requires Accounts(middle, between, lead', trail', after, left)
    ensures Accounts(before, waiting, lead + lead', trail + trail', after, left)
  {
    var u, t :| AccountsBy(before, waiting, lead, trail, middle, between, u, t);
    var u', t' :| AccountsBy(middle, between, lead', trail', after, left, u', t');
    InterleavesAppend(u, t, trail, u', t', trail');
    assert u + (u' + after) == u + u' + after;
    assert waiting + (t + t') == waiting + t + t' == lead + between + t' == lead + (between + t');
    assert lead + (lead' + left) == lead + lead' + left;
    assert AccountsBy(before, waiting, lead + lead', trail + trail', after, left, u + u', t + t');
  }

  lemma AccountsForNothing(comments: seq<Placed>, waiting: seq<string>)
    ensures Accounts(comments, waiting, [], [], comments, waiting)
  {
    assert AccountsBy(comments, waiting, [], [], comments, waiting, [], []);
  }

  /** A run of comments is put with the waiting ones, and all of them may be given to what comes. */
  lemma AccountsForRun(run: seq<Placed>, after: seq<Placed>, waiting: seq<string>)
    ensures Accounts(run + after, waiting, [], [], after, waiting + TextsOf(run))
    ensures Accounts(run + after, waiting, waiting + TextsOf(run), [], after, [])
  {
    AllLead(run);
    assert AccountsBy(run + after, waiting, [], [], after, waiting + TextsOf(run), run, TextsOf(run));
    assert AccountsBy(run + after, waiting, waiting + TextsOf(run), [], after, [], run, TextsOf(run));
  }

  lemma AccountsForTrail(comment: Placed, after: seq<Placed>, waiting: seq<string>)
    ensures Accounts([comment] + after, waiting, [], [comment], after, waiting)
  {
    assert Interleaves([comment][1..], [], [comment][1..]);
    assert AccountsBy([comment] + after, waiting, [], [comment], after, waiting, [comment], []);
  }

  lemma {:induction false} RunIsPlaced(o: Options, stream: seq<Item>)
    ensures var k := CommentRun(stream);
            && PlacedComments(o, stream) == PlacedComments(o, stream[..k]) + PlacedComments(o, stream[k..])
            && TextsOf(PlacedComments(o, stream[..k])) == Texts(RawComments(stream[..k]))
  {
    var k := CommentRun(stream);
    if StartsWithComment(stream) {
      RunIsPlaced(o, stream[1..]);
      assert stream[..k][1..] == stream[1..][..k - 1];
      assert stream[1..][k - 1..] == stream[k..];
      FirstIsPlaced(o, stream, k);
    } else {
      assert stream[k..] == stream;
    }
  }

  lemma FirstIsPlaced(o: Options, stream: seq<Item>, k: nat)
    requires StartsWithComment(stream) && k == CommentRun(stream)
    ensures var first := (WithHash(stream[0].event.text), Some(o.Line(stream[0].span.start)));
            && k > 0
            && PlacedComments(o, stream) == [first] + PlacedComments(o, stream[1..])
            && PlacedComments(o, stream[..k]) == [first] + PlacedComments(o, stream[1..][..k - 1])
            && TextsOf(PlacedComments(o, stream[..k])) == [first.0] + TextsOf(PlacedComments(o, stream[1..][..k - 1]))
            && Texts(RawComments(stream[..k])) == [first.0] + Texts(RawComments(stream[1..][..k - 1]))
  {
    var some := stream[..k];
    assert some[1..] == stream[1..][..k - 1];
    assert StartsWithComment(some);
    FirstOfRaw(some);
    FirstOfPlaced(o, stream);
    FirstOfPlaced(o, some);
    hide *;
  }

  lemma FirstOfPlaced(o: Options, stream: seq<Item>)
    requires StartsWithComment(stream)
    ensures var first := (WithHash(stream[0].event.text), Some(o.Line(stream[0].span.start)));
            && PlacedComments(o, stream) == [first] + PlacedComments(o, stream[1..])
            && TextsOf(PlacedComments(o, stream)) == [first.0] + TextsOf(PlacedComments(o, stream[1..]))
  {
    hide WithHash;
  }

  // ----- Steps -----

  /** What loading from `st` to `st'` owes to the comments in between. */
  ghost predicate Keeps(o: Options, st: State, lead: seq<string>, trail: seq<Placed>, st': State) {
    Accounts(PlacedComments(o, st.rest), st.pending, lead, trail, PlacedComments(o, st'.rest), st'.pending)
  }

  lemma KeepsThen(
    o: Options, st: State, lead: seq<string>, trail: seq<Placed>, st1: State,
    lead': seq<string>, trail': seq<Placed>, st2: State)
    requires Keeps(o, st, lead, trail, st1) && Keeps(o, st1, lead', trail', st2)
    ensures Keeps(o, st, lead + lead', trail + trail', st2)
  {
    hide Accounts;
    AccountsThen(PlacedComments(o, st.rest), st.pending, lead, trail, PlacedComments(o, st1.rest), st1.pending,
                 lead', trail', PlacedComments(o, st2.rest), st2.pending);
  }

  lemma KeepsAfterNothing(o: Options, st: State, st1: State, lead: seq<string>, trail: seq<Placed>, st2: State)
    requires Keeps(o, st, [], [], st1) && Keeps(o, st1, lead, trail, st2)
    ensures Keeps(o, st, lead, trail, st2)
  {
    hide Keeps;
    KeepsThen(o, st, [], [], st1, lead, trail, st2);
    assert [] + lead == lead && [] + trail == trail;
  }

  lemma KeepsNothing(o: Options, st: State, st': State)
    requires PlacedComments(o, st.rest) == PlacedComments(o, st'.rest) && st.pending == st'.pending
    ensures Keeps(o, st, [], [], st')
  {
    AccountsForNothing(PlacedComments(o, st.rest), st.pending);
  }

  lemma OtherEventIsNoComment(o: Options, rest: seq<Item>)
    requires rest != [] && !StartsWithComment(rest)
    ensures PlacedComments(o, rest[1..]) == PlacedComments(o, rest)
  {
  }

  /** A tree without comments has none to order. */
  lemma {:induction false} CloneHasNoOrder(o: Options, n: Node)
    ensures LeadInside(CloneWithoutComments(n)) == [] && TrailInside(o, CloneWithoutComments(n)) == []
    decreases n
  {
    match n
    case Mapping(entries, _, _, _, _) => CloneEntriesHaveNoOrder(o, entries);
    case Sequence(items, _, _, _, _) => CloneItemsHaveNoOrder(o, items);
    case _ =>
  }

  lemma CloneHasNoOwn(n: Node, line: Option<nat>)
    ensures CloneWithoutComments(n).LeadingComments() == [] && OwnTrail(CloneWithoutComments(n), line) == []
  {
  }

  lemma {:induction false} CloneEntriesHaveNoOrder(o: Options, entries: seq<Ast.Entry>)
    ensures LeadEntries(CloneEntries(entries)) == [] && TrailEntries(o, CloneEntries(entries)) == []
    decreases entries
  {
    hide CloneWithoutComments;
    if entries != [] {
      assert entries[0].key < entries[0];
      var k, v := CloneWithoutComments(entries[0].key), CloneWithoutComments(entries[0].value);
      CloneHasNoOrder(o, entries[0].key);
      CloneHasNoOrder(o, entries[0].value);
      CloneHasNoOwn(entries[0].key, KeyTextLine(o, k));
      CloneHasNoOwn(entries[0].value, TextLine(o, v));
      CloneEntriesHaveNoOrder(o, entries[1..]);
      assert CloneEntries(entries)[1..] == CloneEntries(entries[1..]);
    }
  }

  lemma {:induction false} CloneItemsHaveNoOrder(o: Options, items: seq<Node>)
    ensures LeadItems(CloneItems(items)) == [] && TrailItems(o, CloneItems(items)) == []
    decreases items
  {
    hide CloneWithoutComments;
    if items != [] {
      CloneHasNoOrder(o, items[0]);
      CloneHasNoOwn(items[0], TextLine(o, CloneWithoutComments(items[0])));
      CloneItemsHaveNoOrder(o, items[1..]);
      assert CloneItems(items)[1..] == CloneItems(items[1..]);
    }
  }

  /** The same children, the same comments inside. */
  lemma SameChildrenSameOrder(o: Options, n: Node, m: Node)
    requires SameChildren(n, m)
    ensures LeadInside(n) == LeadInside(m) && TrailInside(o, n) == TrailInside(o, m)
  {
  }

  lemma SchemaKeepsChildren(o: Options, n: Node)
    ensures var r := ApplySchema(o, n); r.Ok? ==> SameChildren(n, r.value)
  {
    hide ResolveScalar;
    hide ResolvedTag.Uri;
    hide ClearTagLoc;
    hide ResolveCollection;
  }

  lemma {:induction false} CompleteNodeKeepsOrder(o: Options, st: State, n: Node, span: Span)
    ensures var r := CompleteNode(o, st, n, span);
            r.Ok? ==>
              && SameChildren(n, r.value.node)
              && LeadInside(r.value.node) == LeadInside(n) && TrailInside(o, r.value.node) == TrailInside(o, n)
              && r.value.st.rest == st.rest && r.value.st.pending == st.pending
  {
    hide ApplySchema;
    hide SameChildren;
    hide LeadInside;
    hide TrailInside;
    SchemaKeepsChildren(o, n);
    var r := ApplySchema(o, n);
    if r.Ok? {
      SameChildrenSameOrder(o, n, r.value);
    }
  }

  lemma ResolveAliasHasNoOrder(o: Options, st: State, name: string, loc: Span)
    requires PlainAnchors(st.anchors)
    ensures var r := ResolveAlias(o, st, name, loc);
            r.Ok? ==>
              && LeadInside(r.value.node) == [] && TrailInside(o, r.value.node) == []
              && r.value.st.rest == st.rest && r.value.st.pending == st.pending
  {
    hide Expand;
    if o.mode.Resolved? && name in st.anchors {
      var n := st.anchors[name];
      ExpandAliasFree(o, st.anchors, st.expanded, n, {}, loc);
      CloneHasNoOrder(o, n);
      SameChildrenSameOrder(o, n, n.WithLoc(loc));
    }
  }

  /** A node begins without comments; the ones in front of it wait. */
  lemma {:induction false} BeginNodeKeepsOrder(o: Options, st: State)
    requires PlainAnchors(st.anchors)
    ensures var r := BeginNode(o, st);
            r.Ok? ==>
              && LeadInside(r.value.node) == [] && TrailInside(o, r.value.node) == []
              && Keeps(o, st, [], [], r.value.st)
              && (!StartsWithComment(st.rest) ==> r.value.st.pending == st.pending)
    decreases |st.rest|
  {
    hide Keeps;
    hide CompleteNode;
    hide ResolveAlias;
    hide PropertiesMeta;
    hide PlacedComments;
    KeepsNothing(o, st, st);
    if !StartsWithClosing(st.rest) && st.rest != [] && st.rest[0].Good? {
      var Good(event, span) := st.rest[0];
      var st1 := st.(rest := st.rest[1..]);
      var r := BeginNode(o, st);
      if !event.Comment? {
        OtherEventIsNoComment(o, st.rest);
        if r.Ok? {
          BeginEventKeepsOrder(o, st1, event, span);
          KeepsNothing(o, st, r.value.st);
        }
      } else {
        var k := CommentRun(st1.rest);
        var st2 := st1.(
          rest := st1.rest[k..],
          pending := st1.pending + [WithHash(event.text)] + Texts(RawComments(st1.rest[..k])));
        ReadingARunKeeps(o, st);
        BeginNodeKeepsOrder(o, st2);
        if r.Ok? {
          KeepsAfterNothing(o, st, st2, [], [], r.value.st);
        }
      }
    }
  }

  lemma {:induction false} BeginEventKeepsOrder(o: Options, st: State, event: Event, span: Span)
    requires PlainAnchors(st.anchors) && !event.Comment?
    ensures var r := BeginEvent(o, st, event, span);
            r.Ok? ==>
              && LeadInside(r.value.node) == [] && TrailInside(o, r.value.node) == []
              && r.value.st.rest == st.rest && r.value.st.pending == st.pending
  {
    hide CompleteNode;
    hide ResolveAlias;
    hide PropertiesMeta;
    match event
    case Scalar(value, style, props) =>
      var n := Node.Scalar(value, style, props.tag, span, PropertiesMeta(props));
      CompleteNodeKeepsOrder(o, st, n, span);
      assert LeadInside(n) == [] && TrailInside(o, n) == [];
    case Alias(name) => ResolveAliasHasNoOrder(o, st, name, span);
    case _ =>
  }

  lemma ReadingARunKeeps(o: Options, st: State)
    requires StartsWithComment(st.rest)
    ensures var rest := st.rest[1..];
            var k := CommentRun(rest);
            Keeps(o, st, [], [], st.(
              rest := rest[k..],
              pending := st.pending + [WithHash(st.rest[0].event.text)] + Texts(RawComments(rest[..k]))))
  {
    hide Accounts;
    var rest := st.rest[1..];
    var k := CommentRun(rest);
    assert CommentRun(st.rest) == k + 1;
    assert st.rest[..k + 1][1..] == rest[..k] && st.rest[k + 1..] == rest[k..];
    RunIsPlaced(o, st.rest);
    FirstOfRaw(st.rest[..k + 1]);
    AccountsForRun(PlacedComments(o, st.rest[..k + 1]), PlacedComments(o, rest[k..]), st.pending);
    hide CommentRun;
    hide PlacedComments;
    hide RawComments;
    hide Texts;
    hide TextsOf;
    hide WithHash;
    var first := [WithHash(st.rest[0].event.text)];
    assert st.pending + (first + Texts(RawComments(rest[..k]))) == st.pending + first + Texts(RawComments(rest[..k]));
  }

  // ----- Keys, values and items -----

  /**
   The comments `before` and `after` read in front of a node, and what the node
   itself accounts for: they are its own, unless it is one that has nothing
   inside, and then some may be left to wait.
   */
  lemma AccountsAround(
    run: seq<Placed>, waiting: seq<string>, before: seq<string>, after: seq<string>,
    middle: seq<Placed>, lead: seq<string>, trail: seq<Placed>, rest: seq<Placed>, left: seq<string>)
    requires TextsOf(run) == before + after
    requires Accounts(middle, [], lead, trail, rest, left)
    requires after == [] || (lead == [] && left == [])
    ensures Accounts(run + middle, waiting, waiting + before + lead, trail, rest, left + after)
  {
    hide TextsOf;
    hide Interleaves;
    var u, t :| AccountsBy(middle, [], lead, trail, rest, left, u, t);
    assert [] + t == t;
    AllLead(run);
    InterleavesAppend(run, TextsOf(run), [], u, t, trail);
    assert [] + trail == trail;
    assert run + (u + rest) == run + u + rest;
    assert waiting + (before + after + t) == waiting + before + lead + (left + after) by {
      if after == [] {
        assert before + after + t == before + t && left + after == left;
        assert waiting + (before + (lead + left)) == waiting + before + lead + left;
      } else {
        assert t == [] && left + after == after && waiting + before + lead == waiting + before;
        assert waiting + (before + after + t) == waiting + before + after;
      }
    }
    assert AccountsBy(run + middle, waiting, waiting + before + lead, trail, rest, left + after, run + u,
      before + after + t);
  }

  /** Attaching comments changes nothing inside a node, nor where it ends. */
  lemma AttachKeepsInside(o: Options, n: Node, comments: seq<string>, comment: string)
    ensures var m := AttachLeading(n, comments);
            && LeadInside(m) == LeadInside(n) && TrailInside(o, m) == TrailInside(o, n)
            && TextLine(o, m) == TextLine(o, n) && KeyTextLine(o, m) == KeyTextLine(o, n)
            && (Bare(n) ==> m.LeadingComments() == comments && m.TrailingComment() == None)
    ensures var m := AttachTrailing(n, comment);
            && LeadInside(m) == LeadInside(n) && TrailInside(o, m) == TrailInside(o, n)
            && TextLine(o, m) == TextLine(o, n) && KeyTextLine(o, m) == KeyTextLine(o, n)
            && m.LeadingComments() == n.LeadingComments() && m.TrailingComment() == Some(comment)
  {
  }

  lemma SplitIsInOrder(o: Options, n: Node, raw: seq<RawComment>)
    ensures var split := SplitComments(o, n, raw);
            && split.before + split.after == Texts(raw)
            && (split.after != [] ==> n.Scalar?)
  {
  }

  /** A key or item with the comments in front of it. */
  lemma AttachEntryKeepsOrder(o: Options, st: State, next: Next, kind: CollectionKind, n: Node, after: State)
    requires NextEntryOf(o, st, kind) == Ok(next) && next.entry.More?
    requires Bare(n) && Keeps(o, next.st, LeadInside(n), TrailInside(o, n), after)
    requires n.Scalar? ==> after.pending == []
    ensures var p := AttachEntryComments(o, after, n, next.entry.comments);
            && Keeps(o, st, LeadOf(p.node), TrailInside(o, p.node), p.st)
            && p.node.TrailingComment() == None
  {
    hide SplitComments;
    hide Accounts;
    hide AttachLeading;
    hide CommentRun;
    hide RawComments;
    hide Texts;
    hide TextsOf;
    var run := CommentRun(st.rest);
    var raw := RawComments(st.rest[..run]);
    RunIsPlaced(o, st.rest);
    SplitIsInOrder(o, n, raw);
    var split := SplitComments(o, n, raw);
    AttachKeepsInside(o, n, st.pending + split.before, "");
    hide PlacedComments;
    hide LeadInside;
    hide TrailInside;
    var runP, middle, rest :=
      PlacedComments(o, st.rest[..run]), PlacedComments(o, next.st.rest), PlacedComments(o, after.rest);
    if next.entry.comments.None? {
      assert raw == [] && st.pending == [];
      AccountsAround(runP, st.pending, [], [], middle, LeadInside(n), TrailInside(o, n), rest, after.pending);
      assert st.pending + [] + LeadInside(n) == LeadOf(n) && after.pending + [] == after.pending;
    } else {
      if split.after != [] {
        assert LeadInside(n) == [] by { ScalarHasNothingInside(n); }
      }
      AccountsAround(runP, st.pending, split.before, split.after, middle, LeadInside(n), TrailInside(o, n), rest,
        after.pending);
    }
  }

  lemma ScalarHasNothingInside(n: Node)
    requires n.Scalar?
    ensures LeadInside(n) == []
  {
  }

  /** The comment at the end of the line of a node. */
  lemma AttachOnLineKeepsOrder(o: Options, st: State, n: Node, line: Option<nat>)
    requires n.TrailingComment() == None
    ensures var a := AttachOnLine(o, st.rest, n, line);
            && Keeps(o, st, [], OwnTrail(a.node, line), st.(rest := a.rest))
            && LeadOf(a.node) == LeadOf(n) && TrailInside(o, a.node) == TrailInside(o, n)
            && TextLine(o, a.node) == TextLine(o, n) && KeyTextLine(o, a.node) == KeyTextLine(o, n)
  {
    hide AttachTrailing;
    hide TextLine;
    hide KeyTextLine;
    var a := AttachOnLine(o, st.rest, n, line);
    if a.rest == st.rest {
      KeepsNothing(o, st, st.(rest := a.rest));
    }
    if StartsWithComment(st.rest) {
      AttachKeepsInside(o, n, [], WithHash(st.rest[0].event.text));
      var comment := (WithHash(st.rest[0].event.text), Some(o.Line(st.rest[0].span.start)));
      AccountsForTrail(comment, PlacedComments(o, st.rest[1..]), st.pending);
      assert st.pending + [] == st.pending;
    }
  }

  lemma KeepsTrail(
    o: Options, st: State, lead: seq<string>, trail: seq<Placed>, st1: State, own: seq<Placed>, st2: State)
    requires Keeps(o, st, lead, trail, st1) && Keeps(o, st1, [], own, st2)
    ensures Keeps(o, st, lead, trail + own, st2)
  {
    hide Keeps;
    KeepsThen(o, st, lead, trail, st1, [], own, st2);
    assert lead + [] == lead;
  }

  lemma FinishKeyKeepsOrder(o: Options, st: State, next: Next, n: Node, after: State)
    requires NextEntryOf(o, st, MappingKind) == Ok(next) && next.entry.More?
    requires Bare(n) && Keeps(o, next.st, LeadInside(n), TrailInside(o, n), after)
    requires n.Scalar? ==> after.pending == []
    ensures var p := FinishKey(o, after, n, next.entry.comments);
            Keeps(o, st, LeadOf(p.node), TrailOf(o, p.node, KeyTextLine(o, p.node)), p.st)
  {
    hide Keeps;
    AttachEntryKeepsOrder(o, st, next, MappingKind, n, after);
    hide NextEntryOf;
    hide AttachEntryComments;
    hide AttachOnLine;
    hide KeyTextLine;
    hide KeyCommentLine;
    hide LeadInside;
    hide TrailInside;
    var p := AttachEntryComments(o, after, n, next.entry.comments);
    var line := KeyTextLine(o, p.node);
    LinesAgree(o, p.node);
    AttachOnLineKeepsOrder(o, p.st, p.node, line);
    var a := AttachOnLine(o, p.st.rest, p.node, line);
    KeepsTrail(o, st, LeadOf(p.node), TrailInside(o, p.node), p.st, OwnTrail(a.node, line), p.st.(rest := a.rest));
  }

  lemma FinishItemKeepsOrder(o: Options, st: State, next: Next, n: Node, after: State)
    requires NextEntryOf(o, st, SequenceKind) == Ok(next) && next.entry.More?
    requires Bare(n) && Keeps(o, next.st, LeadInside(n), TrailInside(o, n), after)
    requires n.Scalar? ==> after.pending == []
    ensures var p := FinishItem(o, after, n, next.entry.comments);
            Keeps(o, st, LeadOf(p.node), TrailOf(o, p.node, TextLine(o, p.node)), p.st)
  {
    hide Keeps;
    AttachEntryKeepsOrder(o, st, next, SequenceKind, n, after);
    hide NextEntryOf;
    hide AttachEntryComments;
    hide AttachOnLine;
    hide TextLine;
    hide CommentLine;
    hide LeadInside;
    hide TrailInside;
    var p := AttachEntryComments(o, after, n, next.entry.comments);
    var line := TextLine(o, p.node);
    LinesAgree(o, p.node);
    AttachOnLineKeepsOrder(o, p.st, p.node, line);
    var a := AttachOnLine(o, p.st.rest, p.node, line);
    KeepsTrail(o, st, LeadOf(p.node), TrailInside(o, p.node), p.st, OwnTrail(a.node, line), p.st.(rest := a.rest));
  }

  lemma FinishValueKeepsOrder(o: Options, st: State, n: Node, after: State)
    requires Bare(n) && Keeps(o, st, LeadInside(n), TrailInside(o, n), after)
    ensures var p := FinishValue(o, after, n);
            Keeps(o, st, LeadOf(p.node), TrailOf(o, p.node, TextLine(o, p.node)), p.st)
  {
    hide Keeps;
    hide AttachOnLine;
    hide TextLine;
    hide CommentLine;
    hide LeadInside;
    hide TrailInside;
    var line := TextLine(o, n);
    LinesAgree(o, n);
    AttachOnLineKeepsOrder(o, after, n, line);
    var a := AttachOnLine(o, after.rest, n, line);
    assert LeadOf(n) == LeadInside(n);
    KeepsTrail(o, st, LeadInside(n), TrailInside(o, n), after, OwnTrail(a.node, line), after.(rest := a.rest));
  }

  lemma ClosingKeepsOrder(o: Options, st: State, kind: CollectionKind)
    ensures var r := NextEntryOf(o, st, kind);
            r.Ok? && r.value.entry.Closed? ==> Keeps(o, st, [], [], r.value.st)
    ensures var r := NextEntryOf(o, st, kind);
            r.Ok? && r.value.entry.More? ==> r.value.st.pending == [] && !StartsWithComment(r.value.st.rest)
  {
    hide Accounts;
    hide CommentRun;
    hide PlacedComments;
    var k := CommentRun(st.rest);
    RunIsPlaced(o, st.rest);
    AccountsForRun(PlacedComments(o, st.rest[..k]), PlacedComments(o, st.rest[k..]), st.pending);
  }

  lemma {:induction false} FinishCollectionKeepsOrder(o: Options, st: State, n: Node)
    requires n.Mapping? || n.Sequence?
    ensures var r := FinishCollection(o, st, n);
            r.Ok? ==>
              && LeadInside(r.value.node) == LeadInside(n) && TrailInside(o, r.value.node) == TrailInside(o, n)
              && !r.value.node.Scalar?
              && Keeps(o, st, [], [], r.value.st)
  {
    hide Accounts;
    hide CompleteNode;
    hide PlacedComments;
    hide LeadInside;
    hide TrailInside;
    var ends := StartsWithEnd(st.rest, MappingKind) || StartsWithEnd(st.rest, SequenceKind);
    var loc := if ends then n.loc.(end := st.rest[0].span.end) else n.loc;
    var st1 := st.(rest := if ends then st.rest[1..] else st.rest, depth := st.depth - 1);
    if ends {
      OtherEventIsNoComment(o, st.rest);
    }
    SameChildrenSameOrder(o, n, n.WithLoc(loc));
    CompleteNodeKeepsOrder(o, st1, n.WithLoc(loc), loc);
    var r := FinishCollection(o, st, n);
    if r.Ok? {
      hide Keeps;
      KeepsNothing(o, st, r.value.st);
    }
  }

  // ----- Nodes -----

  /** A loaded node, still without comments of its own, accounts for those inside it. */
  lemma {:induction false} ParseNodeKeepsOrder(o: Options, st: State)
    requires Sound(o, st)
    ensures var r := ParseNode(o, st);
            r.Ok? ==>
              && Bare(r.value.node)
              && Keeps(o, st, LeadInside(r.value.node), TrailInside(o, r.value.node), r.value.st)
              && (r.value.node.Scalar? && !StartsWithComment(st.rest) ==> r.value.st.pending == st.pending)
    decreases |st.rest|, 0
  {
    hide Keeps;
    hide BeginNode;
    hide FinishCollection;
    hide Bare;
    hide Account;
    hide Comments;
    ParseNodeKeepsComments(o, st, "");
    BeginNodeKeepsOrder(o, st);
    BeginNodeIsSound(o, st);
    hide Sound;
    var b := BeginNode(o, st);
    if b.Ok? && b.value.follow {
      match b.value.node
      case Mapping(_, style, tag, loc, meta) =>
        ParseEntriesKeepsOrder(o, b.value.st);
        var p := ParseEntries(o, b.value.st);
        if p.Ok? {
          var n := Mapping(p.value.entries, style, tag, loc, meta);
          FinishCollectionKeepsOrder(o, p.value.st, n);
          CollectionKeepsOrder(o, st, b.value.st, LeadEntries(p.value.entries), TrailEntries(o, p.value.entries),
            p.value.st,
                               FinishCollection(o, p.value.st, n));
        }
      case Sequence(_, style, tag, loc, meta) =>
        ParseItemsKeepsOrder(o, b.value.st);
        var p := ParseItems(o, b.value.st);
        if p.Ok? {
          var n := Sequence(p.value.items, style, tag, loc, meta);
          FinishCollectionKeepsOrder(o, p.value.st, n);
          CollectionKeepsOrder(o, st, b.value.st, LeadItems(p.value.items), TrailItems(o, p.value.items), p.value.st,
                               FinishCollection(o, p.value.st, n));
        }
    }
  }

  lemma CollectionKeepsOrder(
    o: Options, st: State, st1: State, lead: seq<string>, trail: seq<Placed>, st2: State, r: LoadResult<Parsed>)
    requires Keeps(o, st, [], [], st1) && Keeps(o, st1, lead, trail, st2)
    requires r.Ok? ==> Keeps(o, st2, [], [], r.value.st)
    ensures r.Ok? ==> Keeps(o, st, lead, trail, r.value.st)
  {
    hide Keeps;
    KeepsAfterNothing(o, st, st1, lead, trail, st2);
    if r.Ok? {
      KeepsTrail(o, st, lead, trail, st2, [], r.value.st);
      assert trail + [] == trail;
    }
  }

  lemma {:induction false} ParseEntriesKeepsOrder(o: Options, st: State)
    requires Sound(o, st)
    ensures var r := ParseEntries(o, st);
            r.Ok? ==> Keeps(o, st, LeadEntries(r.value.entries), TrailEntries(o, r.value.entries), r.value.st)
    decreases |st.rest|, 1
  {
    hide Keeps;
    hide Bare;
    hide LeadOf;
    hide TrailOf;
    hide NextEntryOf;
    hide FinishKey;
    hide FinishValue;
    hide Sound;
    ClosingKeepsOrder(o, st, MappingKind);
    NextEntryIsSound(o, st, MappingKind);
    var next := NextEntryOf(o, st, MappingKind);
    if next.Ok? && next.value.entry.More? {
      ParseNodeKeepsOrder(o, next.value.st);
      ParseNodeIsSound(o, next.value.st);
      var k := ParseNode(o, next.value.st);
      if k.Ok? {
        FinishKeyKeepsOrder(o, st, next.value, k.value.node, k.value.st);
        FinishIsSound(o, k.value.st, k.value.node, next.value.entry.comments);
        var key := FinishKey(o, k.value.st, k.value.node, next.value.entry.comments);
        ParseNodeKeepsOrder(o, key.st);
        ParseNodeIsSound(o, key.st);
        var v := ParseNode(o, key.st);
        if v.Ok? {
          FinishValueKeepsOrder(o, key.st, v.value.node, v.value.st);
          FinishIsSound(o, v.value.st, v.value.node, None);
          var value := FinishValue(o, v.value.st, v.value.node);
          ParseEntriesKeepsOrder(o, value.st);
          var more := ParseEntries(o, value.st);
          if more.Ok? {
            EntryThenMore(o, st, Ast.Entry(key.node, value.node), key.st, value.st, more.value.entries, more.value.st);
          }
        }
      }
    }
  }

  lemma EntryThenMore(o: Options, st: State, e: Ast.Entry, st1: State, st2: State, more: seq<Ast.Entry>, st3: State)
    requires Keeps(o, st, LeadOf(e.key), TrailOf(o, e.key, KeyTextLine(o, e.key)), st1)
    requires Keeps(o, st1, LeadOf(e.value), TrailOf(o, e.value, TextLine(o, e.value)), st2)
    requires Keeps(o, st2, LeadEntries(more), TrailEntries(o, more), st3)
    ensures Keeps(o, st, LeadEntries([e] + more), TrailEntries(o, [e] + more), st3)
  {
    hide Keeps;
    hide LeadOf;
    hide TrailOf;
    hide KeyTextLine;
    hide TextLine;
    assert ([e] + more)[1..] == more;
    var trail := TrailOf(o, e.key, KeyTextLine(o, e.key));
    var trail' := TrailOf(o, e.value, TextLine(o, e.value));
    KeepsThen(o, st, LeadOf(e.key), trail, st1, LeadOf(e.value), trail', st2);
    KeepsThen(o, st, LeadOf(e.key) + LeadOf(e.value), trail + trail', st2, LeadEntries(more), TrailEntries(o, more),
      st3);
  }

  lemma {:induction false} ParseItemsKeepsOrder(o: Options, st: State)
    requires Sound(o, st)
    ensures var r := ParseItems(o, st);
            r.Ok? ==> Keeps(o, st, LeadItems(r.value.items), TrailItems(o, r.value.items), r.value.st)
    decreases |st.rest|, 1
  {
    hide Keeps;
    hide Bare;
    hide LeadOf;
    hide TrailOf;
    hide NextEntryOf;
    hide FinishItem;
    hide Sound;
    ClosingKeepsOrder(o, st, SequenceKind);
    NextEntryIsSound(o, st, SequenceKind);
    var next := NextEntryOf(o, st, SequenceKind);
    if next.Ok? && next.value.entry.More? {
      ParseNodeKeepsOrder(o, next.value.st);
      ParseNodeIsSound(o, next.value.st);
      var i := ParseNode(o, next.value.st);
      if i.Ok? {
        FinishItemKeepsOrder(o, st, next.value, i.value.node, i.value.st);
        FinishIsSound(o, i.value.st, i.value.node, next.value.entry.comments);
        var item := FinishItem(o, i.value.st, i.value.node, next.value.entry.comments);
        ParseItemsKeepsOrder(o, item.st);
        var more := ParseItems(o, item.st);
        if more.Ok? {
          ItemThenMore(o, st, item.node, item.st, more.value.items, more.value.st);
        }
      }
    }
  }

  lemma ItemThenMore(o: Options, st: State, n: Node, st1: State, more: seq<Node>, st2: State)
    requires Keeps(o, st, LeadOf(n), TrailOf(o, n, TextLine(o, n)), st1)
    requires Keeps(o, st1, LeadItems(more), TrailItems(o, more), st2)
    ensures Keeps(o, st, LeadItems([n] + more), TrailItems(o, [n] + more), st2)
  {
    hide Keeps;
    hide LeadOf;
    hide TrailOf;
    hide TextLine;
    assert ([n] + more)[1..] == more;
    KeepsThen(o, st, LeadOf(n), TrailOf(o, n, TextLine(o, n)), st1, LeadItems(more), TrailItems(o, more), st2);
  }

  // ----- Documents -----

  /** The comments of a document that stand before something, or at its end, in order. */
  function DocumentLead(d: Document): seq<string> {
    d.prefixComments + d.comments + LeadOf(d.root) + d.endComments + d.afterEndComments
  }

  function LeadAll(documents: seq<Document>): seq<string> {
    if documents == [] then [] else DocumentLead(documents[0]) + LeadAll(documents[1..])
  }

  function TrailAll(o: Options, documents: seq<Document>): seq<Placed> {
    if documents == [] then []
    else TrailOf(o, documents[0].root, TextLine(o, documents[0].root)) + TrailAll(o, documents[1..])
  }

  lemma {:induction false} ParseRootKeepsOrder(o: Options, st: State)
    requires Sound(o, st)
    ensures var r := ParseRoot(o, st);
            r.Ok? ==>
              && Bare(r.value.node)
              && Keeps(o, st, LeadInside(r.value.node), TrailInside(o, r.value.node), r.value.st)
  {
    hide ApplySchema;
    hide ParseNode;
    hide Keeps;
    hide Account;
    ParseRootKeepsComments(o, st, "");
    ParseNodeKeepsOrder(o, st);
    if StartsWithDocumentEnd(st.rest) {
      SchemaKeepsChildren(o, EMPTY_SCALAR);
      KeepsNothing(o, st, st);
    }
  }

  /** Everything a run of comments and the comments before it have is given to one field. */
  lemma RunIsGiven(o: Options, st: State, waiting: seq<string>)
    ensures var k := CommentRun(st.rest);
            Accounts(PlacedComments(o, st.rest), waiting, waiting + Texts(RawComments(st.rest[..k])), [],
                     PlacedComments(o, st.rest[k..]), [])
  {
    hide Accounts;
    hide CommentRun;
    var k := CommentRun(st.rest);
    RunIsPlaced(o, st.rest);
    AccountsForRun(PlacedComments(o, st.rest[..k]), PlacedComments(o, st.rest[k..]), waiting);
  }

  lemma {:induction false} LoadDocumentKeepsOrder(o: Options, st: State, start: Event, outside: seq<string>)
    requires start.DocumentStart?
    ensures var r := LoadDocument(o, st, start, outside);
            r.Ok? ==>
              Accounts(PlacedComments(o, st.rest), outside, DocumentLead(r.value.document),
                       TrailOf(o, r.value.document.root, TextLine(o, r.value.document.root)),
                       PlacedComments(o, r.value.st.rest), [])
  {
    hide Accounts;
    hide ParseRoot;
    hide FinishValue;
    hide Sound;
    hide PlacedComments;
    hide LeadOf;
    hide TrailOf;
    hide TextLine;
    ResetIsSound(o, st);
    RunIsGiven(o, st, outside);
    var st1 := Reset(st).(rest := st.rest[CommentRun(st.rest)..]);
    SoundAnywhere(o, Reset(st), st1.rest);
    ParseRootKeepsOrder(o, st1);
    var parsed := ParseRoot(o, st1);
    if parsed.Ok? {
      FinishValueKeepsOrder(o, st1, parsed.value.node, parsed.value.st);
      var root := FinishValue(o, parsed.value.st, parsed.value.node);
      EndDocumentKeepsOrder(o, parsed.value, start, outside, Texts(RawComments(st.rest[..CommentRun(st.rest)])));
      hide CommentRun;
      hide EndDocument;
      var r := LoadDocument(o, st, start, outside);
      if r.Ok? {
        DocumentAccounts(
          PlacedComments(o, st.rest), outside, r.value.document, PlacedComments(o, st1.rest),
          TrailOf(o, root.node, TextLine(o, root.node)), PlacedComments(o, root.st.rest), root.st.pending,
          PlacedComments(o, r.value.st.rest));
      }
    }
  }

  /** The comments behind the root go to the end of the document. */
  lemma EndDocumentKeepsOrder(o: Options, parsed: Parsed, start: Event, outside: seq<string>, comments: seq<string>)
    requires start.DocumentStart?
    ensures var r := EndDocument(o, parsed, start, outside, comments);
            var root := FinishValue(o, parsed.st, parsed.node);
            r.Ok? ==>
              && var d := r.value.document;
                 d.root == root.node && d.prefixComments == outside && d.comments == comments
                   && d.afterEndComments == []
                 && Accounts(PlacedComments(o, root.st.rest), root.st.pending, d.endComments, [],
                             PlacedComments(o, r.value.st.rest), [])
  {
    hide Accounts;
    hide FinishValue;
    hide PlacedComments;
    hide CommentRun;
    var root := FinishValue(o, parsed.st, parsed.node);
    RunIsGiven(o, root.st, root.st.pending);
    var rest := root.st.rest[CommentRun(root.st.rest)..];
    if rest != [] && rest[0].Good? && rest[0].event.DocumentEnd? {
      OtherEventIsNoComment(o, rest);
    }
  }

  lemma DocumentAccounts(
    before: seq<Placed>, outside: seq<string>, d: Document, start: seq<Placed>, trail: seq<Placed>,
    middle: seq<Placed>, pending: seq<string>, after: seq<Placed>)
    requires Accounts(before, outside, outside + d.comments, [], start, [])
    requires Accounts(start, [], LeadOf(d.root), trail, middle, pending)
    requires Accounts(middle, pending, d.endComments, [], after, [])
    requires d.prefixComments == outside && d.afterEndComments == []
    ensures Accounts(before, outside, DocumentLead(d), trail, after, [])
  {
    hide Accounts;
    hide LeadOf;
    AccountsThen(before, outside, outside + d.comments, [], start, [], LeadOf(d.root), trail, middle, pending);
    AccountsThen(before, outside, outside + d.comments + LeadOf(d.root), [] + trail, middle, pending,
                 d.endComments, [], after, []);
    assert [] + trail + [] == trail;
    assert outside + d.comments + LeadOf(d.root) + d.endComments == DocumentLead(d);
  }

  lemma {:induction false} LoadDocumentsKeepsOrder(o: Options, st: State, outside: seq<string>)
    ensures var r := LoadDocuments(o, st, outside);
            r.Ok? ==>
              Accounts(PlacedComments(o, st.rest), outside, LeadAll(r.value.documents), TrailAll(o, r.value.documents),
                       PlacedComments(o, r.value.st.rest), r.value.outside)
    decreases |st.rest|
  {
    hide Accounts;
    hide LoadDocument;
    hide DocumentLead;
    hide TrailOf;
    hide TextLine;
    AccountsForNothing(PlacedComments(o, st.rest), outside);
    if st.rest != [] && st.rest[0].Good? {
      var event := st.rest[0].event;
      var st1 := st.(rest := st.rest[1..]);
      if event.StreamEnd? {
      } else if event.DocumentStart? {
        LoadDocumentKeepsOrder(o, st1, event, outside);
        var d := LoadDocument(o, st1, event, outside);
        if d.Ok? {
          LoadDocumentsKeepsOrder(o, d.value.st, []);
          var more := LoadDocuments(o, d.value.st, []);
          if more.Ok? {
            DocumentThenMore(o, PlacedComments(o, st1.rest), outside, d.value.document,
              PlacedComments(o, d.value.st.rest),
                             more.value.documents, PlacedComments(o, more.value.st.rest), more.value.outside);
          }
        }
      } else if event.Comment? {
        LoadDocumentsKeepsOrder(o, st1, outside + [WithHash(event.text)]);
        var more := LoadDocuments(o, st1, outside + [WithHash(event.text)]);
        if more.Ok? {
          OutsideThenMore(o, st, outside, LeadAll(more.value.documents), TrailAll(o, more.value.documents),
                          PlacedComments(o, more.value.st.rest), more.value.outside);
        }
      } else if !IsNodeEvent(event) {
        LoadDocumentsKeepsOrder(o, st1, outside);
      }
    }
  }

  lemma DocumentThenMore(
    o: Options, before: seq<Placed>, outside: seq<string>, d: Document, middle: seq<Placed>, more: seq<Document>,
    after: seq<Placed>, left: seq<string>)
    requires Accounts(before, outside, DocumentLead(d), TrailOf(o, d.root, TextLine(o, d.root)), middle, [])
    requires Accounts(middle, [], LeadAll(more), TrailAll(o, more), after, left)
    ensures Accounts(before, outside, LeadAll([d] + more), TrailAll(o, [d] + more), after, left)
  {
    hide Accounts;
    hide DocumentLead;
    hide TrailOf;
    hide TextLine;
    assert ([d] + more)[1..] == more;
    AccountsThen(before, outside, DocumentLead(d), TrailOf(o, d.root, TextLine(o, d.root)), middle, [],
                 LeadAll(more), TrailAll(o, more), after, left);
  }

  lemma OutsideThenMore(
    o: Options, st: State, outside: seq<string>, lead: seq<string>, trail: seq<Placed>, after: seq<Placed>,
    left: seq<string>)
    requires StartsWithComment(st.rest)
    requires Accounts(PlacedComments(o, st.rest[1..]), outside + [WithHash(st.rest[0].event.text)], lead, trail, after,
             left)
    ensures Accounts(PlacedComments(o, st.rest), outside, lead, trail, after, left)
  {
    hide Accounts;
    var first := (WithHash(st.rest[0].event.text), Some(o.Line(st.rest[0].span.start)));
    AccountsForRun([first], PlacedComments(o, st.rest[1..]), outside);
    assert TextsOf([first]) == [first.0];
    AccountsThen([first] + PlacedComments(o, st.rest[1..]), outside, [], [],
                 PlacedComments(o, st.rest[1..]), outside + [first.0], lead, trail, after, left);
    assert [] + lead == lead && [] + trail == trail;
  }

  lemma GivingToTheLast(o: Options, documents: seq<Document>, outside: seq<string>)
    requires documents != [] && documents[|documents| - 1].afterEndComments == []
    ensures LeadAll(GiveToLast(documents, outside)) == LeadAll(documents) + outside
    ensures TrailAll(o, GiveToLast(documents, outside)) == TrailAll(o, documents)
    decreases |documents|
  {
    hide LeadOf;
    hide TrailOf;
    hide TextLine;
    var given := GiveToLast(documents, outside);
    if |documents| == 1 {
      assert documents[1..] == [] && given[1..] == [];
      var d := documents[0];
      assert DocumentLead(given[0]) == DocumentLead(d) + outside;
    } else {
      GivingToTheLast(o, documents[1..], outside);
      assert given[1..] == GiveToLast(documents[1..], outside);
      assert DocumentLead(documents[0]) + (LeadAll(documents[1..]) + outside) == LeadAll(documents) + outside;
    }
  }

  /**
   For every stream that loads into at least one document, in both modes: the
   comments between its first event and its end are, in this order, the
   comments before things and the comments at the ends of lines, each kind in
   the order of the documents and the trees; a comment at the end of a line
   stood on the line where its node, or its key, ends.
   */
  lemma {:induction false} CommentsKeepTheirOrder(o: Options, stream: seq<Item>)
    requires stream != []
    ensures var r := Run(o, stream);
            r.Ok? && r.value.documents != [] ==>
              exists used ::
                && PlacedComments(o, stream[1..]) == used + PlacedComments(o, r.value.st.rest)
                && Interleaves(used, LeadAll(r.value.documents), TrailAll(o, r.value.documents))
  {
    hide LoadDocuments;
    hide Accounts;
    hide PlacedComments;
    hide GiveToLast;
    hide LeadAll;
    hide TrailAll;
    hide Interleaves;
    var st := InitialState(stream[1..]);
    LoadDocumentsKeepsOrder(o, st, []);
    LoadDocumentsKeepsComments(o, st, [], "");
    var l := LoadDocuments(o, st, []);
    var r := Run(o, stream);
    if r.Ok? && r.value.documents != [] {
      EmptyStaysEmpty(l.value.documents, l.value.outside);
      GivingToTheLast(o, l.value.documents, l.value.outside);
      AccountsInAll(PlacedComments(o, stream[1..]), LeadAll(l.value.documents), TrailAll(o, l.value.documents),
                    PlacedComments(o, l.value.st.rest), l.value.outside);
    }
  }

  lemma EmptyStaysEmpty(documents: seq<Document>, outside: seq<string>)
    ensures GiveToLast(documents, outside) != [] ==> documents != []
  {
  }

  lemma AccountsInAll(before: seq<Placed>, lead: seq<string>, trail: seq<Placed>, after: seq<Placed>, left: seq<string>)
    requires Accounts(before, [], lead, trail, after, left)
    ensures exists used :: before == used + after && Interleaves(used, lead + left, trail)
  {
    hide Interleaves;
    var used, taken :| AccountsBy(before, [], lead, trail, after, left, used, taken);
    assert [] + taken == taken;
    assert before == used + after && Interleaves(used, lead + left, trail);
  }
}
