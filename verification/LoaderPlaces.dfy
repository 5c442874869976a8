/**
 Where each comment is put.  The place of a comment is given on the stream and
 the tree: by the events it stands between, by the line it stands on, and by
 the lines of the nodes around it.  Loading puts every comment in its place, in
 both modes.
 */
module LoaderPlaces {
  import opened Wrappers
  import opened Events
  import opened Schema
  import opened Ast
  import opened AstLemmas
  import opened LoaderSpec
  import opened LoaderAnchors
  import opened LoaderComments
  import opened LoaderOrder
  import opened LoaderResolved
  import opened LoaderStream
  import opened AliasSemantics

  // ----- What stands behind a node -----

  predicate StartsWithStart(stream: seq<Item>) {
    stream != [] && stream[0].Good? && (stream[0].event.MappingStart? || stream[0].event.SequenceStart?)
  }

  predicate StartsWithBracketEnd(stream: seq<Item>) {
    stream != [] && stream[0].Good? && (stream[0].event.MappingEnd? || stream[0].event.SequenceEnd?)
  }

  /** What is left of the stream once the `open` innermost collections have ended. */
  function BehindEnd(stream: seq<Item>, open: nat): (rest: seq<Item>)
    ensures |rest| <= |stream|
  {
    if open == 0 || stream == [] then stream
    else BehindEnd(
      stream[1..],
      if StartsWithStart(stream) then open + 1 else if StartsWithBracketEnd(stream) then open - 1 else open)
  }

  /** What is left of the stream behind the last event of its first node. */
  function BehindNode(stream: seq<Item>): (rest: seq<Item>)
    ensures |rest| <= |stream|
  {
    var node := SkipComments(stream);
    if node == [] || StartsWithClosing(node) then node
    else if StartsWithStart(node) then BehindEnd(node[1..], 1)
    else node[1..]
  }

  // ----- The place of a comment -----

  /** The stream starts with a comment on the line. */
  predicate StandsOn(o: Options, stream: seq<Item>, line: Option<nat>) {
    StartsWithComment(stream) && line == Some(o.lineColumn(stream[0].span.start).0)
  }

  /** The comment behind a node is its trailing comment if and only if it stands on its line. */
  predicate HasItsTrailing(o: Options, behind: seq<Item>, line: Option<nat>, n: Node) {
    n.TrailingComment() == if StandsOn(o, behind, line) then Some("#" + behind[0].event.text) else None
  }

  function BehindTrailing(o: Options, behind: seq<Item>, line: Option<nat>): (rest: seq<Item>)
    ensures |rest| <= |behind|
  {
    if StandsOn(o, behind, line) then behind[1..] else behind
  }

  /**
   A comment in front of a key or an item is its own, unless the node is an
   empty one that has only properties, and the comment stands below the last of
   them.
   */
  predicate IsOwn(o: Options, comment: Item, n: Node)
    requires comment.Good?
  {
    n.Scalar? && n.style.Plain? && n.value == "" && n.meta.Some? ==>
      var line := o.lineColumn(comment.span.start).0;
      var anchor, tag := n.meta.value.anchorLoc, n.meta.value.tagLoc;
      && (anchor.Some? && (tag.None? || tag.value.end <= anchor.value.end) ==>
            line <= o.lineColumn(anchor.value.end).0)
      && (tag.Some? && (anchor.None? || anchor.value.end <= tag.value.end) ==>
            line <= o.lineColumn(tag.value.end).0)
  }

  /** How many of the comments in front of a key or an item are its own. */
  function OwnCount(waiting: seq<string>, n: Node): int {
    |n.LeadingComments()| - |waiting|
  }

  /**
   A key or an item leads with the comments that were waiting, and with the
   comments in front of it up to the first that is not its own.
   */
  predicate HasItsLeading(o: Options, stream: seq<Item>, waiting: seq<string>, n: Node) {
    var own := OwnCount(waiting, n);
    && 0 <= own <= CommentRun(stream)
    && n.LeadingComments() == waiting + CommentTexts(stream[..own])
    && (forall i :: 0 <= i < own ==> IsOwn(o, stream[i], n))
    && (own < CommentRun(stream) ==> !IsOwn(o, stream[own], n))
  }

  predicate NothingInside(o: Options, n: Node) {
    LeadInside(n) == [] && TrailInside(o, n) == []
  }

  // ----- The places of all comments -----

  /**
   The comments left waiting behind the node that stands first in the stream, if
   all comments inside the node are in their places; none if one is not.
   */
  function Places(o: Options, stream: seq<Item>, waiting: seq<string>, n: Node): Option<seq<string>>
    decreases n, 0
  {
    var run := CommentRun(stream);
    var node := stream[run..];
    var all := waiting + CommentTexts(stream[..run]);
    if !StartsWithStart(node) then if NothingInside(o, n) then Some(all) else None
    else match n
      case Mapping(entries, _, _, _, _) => PlacesInEntries(o, node[1..], all, entries)
      case Sequence(items, _, _, _, _) => PlacesInItems(o, node[1..], all, items)
      case _ => None
  }

  function PlacesInEntries(o: Options, stream: seq<Item>, waiting: seq<string>, entries: seq<Ast.Entry>)
    : Option<seq<string>>
    decreases entries, 0
  {
    var run := CommentRun(stream);
    if entries == [] then
      if StartsWithBracketEnd(stream[run..]) then Some(waiting + CommentTexts(stream[..run])) else None
    else
      assert entries[0].key < entries[0];
      var Entry(key, value) := entries[0];
      var behindKey := BehindNode(stream);
      var inKey := Places(o, stream[run..], [], key);
      if inKey.None? || !HasItsLeading(o, stream, waiting, key)
         || !HasItsTrailing(o, behindKey, KeyTextLine(o, key), key) then None
      else
        var toValue := BehindTrailing(o, behindKey, KeyTextLine(o, key));
        var behindValue := BehindNode(toValue);
        var inValue := Places(o, toValue, inKey.value + CommentTexts(stream[OwnCount(waiting, key)..run]), value);
        if inValue.None? || value.LeadingComments() != []
           || !HasItsTrailing(o, behindValue, TextLine(o, value), value) then None
        else PlacesInEntries(o, BehindTrailing(o, behindValue, TextLine(o, value)), inValue.value, entries[1..])
  }

  function PlacesInItems(o: Options, stream: seq<Item>, waiting: seq<string>, items: seq<Node>): Option<seq<string>>
    decreases items, 0
  {
    var run := CommentRun(stream);
    if items == [] then
      if StartsWithBracketEnd(stream[run..]) then Some(waiting + CommentTexts(stream[..run])) else None
    else
      var item := items[0];
      var behind := BehindNode(stream);
      var inItem := Places(o, stream[run..], [], item);
      if inItem.None? || !HasItsLeading(o, stream, waiting, item)
         || !HasItsTrailing(o, behind, TextLine(o, item), item) then None
      else PlacesInItems(
        o, BehindTrailing(o, behind, TextLine(o, item)),
        inItem.value + CommentTexts(stream[OwnCount(waiting, item)..run]), items[1..])
  }

  /** What is left behind the root of a document; a root that is missing takes no event. */
  function BehindRoot(stream: seq<Item>): (rest: seq<Item>)
    ensures |rest| <= |stream|
  {
    if StartsWithDocumentEnd(stream) then stream else BehindNode(stream)
  }

  /**
   What is left of the stream behind a document whose start has just been read, if
   all its comments are in their places: those outside in front of it, those
   between its start and its root, those of the tree, and those up to its end.
   */
  function PlacesInDocument(o: Options, stream: seq<Item>, outside: seq<string>, d: Document)
    : (rest: Option<seq<Item>>)
    ensures rest.Some? ==> |rest.value| <= |stream|
  {
    var run := CommentRun(stream);
    var behind := BehindRoot(stream[run..]);
    var inRoot := Places(o, stream[run..], [], d.root);
    var toEnd := BehindTrailing(o, behind, TextLine(o, d.root));
    var last := CommentRun(toEnd);
    if inRoot.None? || d.root.LeadingComments() != [] || !HasItsTrailing(o, behind, TextLine(o, d.root), d.root)
       || d.prefixComments != outside || d.comments != CommentTexts(stream[..run])
       || d.endComments != inRoot.value + CommentTexts(toEnd[..last]) then None
    else
      var end := toEnd[last..];
      Some(if end != [] && end[0].Good? && end[0].event.DocumentEnd? then end[1..] else end)
  }

  /** The comments outside behind the last document, if all others are in their places. */
  function PlacesInDocuments(o: Options, stream: seq<Item>, outside: seq<string>, documents: seq<Document>)
    : Option<seq<string>>
    decreases |stream|
  {
    if stream == [] || (stream[0].Good? && stream[0].event.StreamEnd?) then
      if documents == [] then Some(outside) else None
    else if StartsWithComment(stream) then
      PlacesInDocuments(o, stream[1..], outside + ["#" + stream[0].event.text], documents)
    else if stream[0].Good? && stream[0].event.DocumentStart? then
      if documents == [] then None
      else
        var rest := PlacesInDocument(o, stream[1..], outside, documents[0]);
        if rest.None? then None else PlacesInDocuments(o, rest.value, [], documents[1..])
    else PlacesInDocuments(o, stream[1..], outside, documents)
  }

  // ----- Runs of comments -----

  lemma {:induction false} TextsOfComments(some: seq<Item>)
    requires forall i :: 0 <= i < |some| ==> some[i].Good? && some[i].event.Comment?
    ensures Texts(RawComments(some)) == CommentTexts(some)
  {
    if some != [] {
      FirstOfRaw(some);
      TextsOfComments(some[1..]);
    }
  }

  lemma TextsOfPart(stream: seq<Item>, j: nat)
    requires j <= CommentRun(stream)
    ensures var k := CommentRun(stream);
            var all := Texts(RawComments(stream[..k]));
            && all == CommentTexts(stream[..k])
            && all[..j] == CommentTexts(stream[..j]) && all[j..] == CommentTexts(stream[j..k])
  {
    hide CommentTexts;
    hide WithHash;
    var k := CommentRun(stream);
    TextsOfComments(stream[..k]);
    TextsOfComments(stream[..j]);
    TextsOfComments(stream[j..k]);
  }

  // ----- What is read of the stream -----

  lemma {:induction false} CommentsAreNoBrackets(stream: seq<Item>, open: nat)
    ensures BehindEnd(SkipComments(stream), open) == BehindEnd(stream, open) || open == 0
    decreases |stream|
  {
    if StartsWithComment(stream) {
      assert SkipComments(stream) == SkipComments(stream[1..]);
      CommentsAreNoBrackets(stream[1..], open);
    } else {
      assert SkipComments(stream) == stream;
    }
  }

  /** What beginning a node reads: the comments in front, which wait, and at most one event. */
  lemma BeginReads(o: Options, st: State)
    ensures var r := BeginNode(o, st);
            var node := SkipComments(st.rest);
            r.Ok? ==>
              && (node != [] ==> node[0].Good?)
              && r.value.st.rest == (if node == [] || StartsWithClosing(node) then node else node[1..])
              && r.value.st.pending == st.pending + CommentTexts(st.rest[..CommentRun(st.rest)])
              && r.value.follow == StartsWithStart(node)
  {
    hide BeginNode;
    hide BeginEvent;
    BeginNodeDrains(o, st);
    TextsOfPart(st.rest, 0);
    DrainedReads(o, Drained(st));
    hide CommentRun;
  }

  lemma DrainedReads(o: Options, st: State)
    requires !StartsWithComment(st.rest)
    ensures var r := BeginNode(o, st);
            r.Ok? ==>
              && (st.rest != [] ==> st.rest[0].Good?)
              && r.value.st.rest == (if st.rest == [] || StartsWithClosing(st.rest) then st.rest else st.rest[1..])
              && r.value.st.pending == st.pending
              && r.value.follow == StartsWithStart(st.rest)
  {
    hide CompleteNode;
    hide Expand;
    hide PropertiesMeta;
    hide CommentRun;
    hide RawComments;
    if st.rest != [] && st.rest[0].Good? && st.rest[0].event.Scalar? {
      var Good(event, span) := st.rest[0];
      CompleteReadsNothing(
        o, st.(rest := st.rest[1..]),
        Node.Scalar(event.value, event.style, event.props.tag, span, PropertiesMeta(event.props)), span);
    }
  }

  lemma CompleteReadsNothing(o: Options, st: State, n: Node, span: Span)
    ensures var r := CompleteNode(o, st, n, span);
            r.Ok? ==> r.value.st.rest == st.rest && r.value.st.pending == st.pending
  {
    hide ApplySchema;
  }

  lemma FinishReadsComments(o: Options, st: State, n: Node, comments: Option<EntryComments>, open: nat)
    requires open > 0
    ensures BehindEnd(FinishKey(o, st, n, comments).st.rest, open) == BehindEnd(st.rest, open)
    ensures BehindEnd(FinishItem(o, st, n, comments).st.rest, open) == BehindEnd(st.rest, open)
    ensures BehindEnd(FinishValue(o, st, n).st.rest, open) == BehindEnd(st.rest, open)
  {
    FinishChangesOnlyComments(o, st, n, comments);
    hide FinishKey;
    hide FinishItem;
    hide FinishValue;
    hide BehindEnd;
    hide CloneWithoutComments;
    hide ResolveNode;
    CommentsAreNoBrackets(st.rest, open);
    CommentsAreNoBrackets(FinishKey(o, st, n, comments).st.rest, open);
    CommentsAreNoBrackets(FinishItem(o, st, n, comments).st.rest, open);
    CommentsAreNoBrackets(FinishValue(o, st, n).st.rest, open);
  }

  /** One event opens a collection, or ends one, or does neither. */
  lemma OneEvent(stream: seq<Item>, open: nat)
    requires stream != [] && open > 0
    ensures BehindEnd(stream, open)
         == BehindEnd(
              stream[1..],
              if StartsWithStart(stream) then open + 1 else if StartsWithBracketEnd(stream) then open - 1 else open)
    ensures BehindEnd(stream, 0) == stream
  {
  }

  lemma CollectionReads(node: seq<Item>, end: seq<Item>, open: nat)
    requires StartsWithStart(node) && StartsWithBracketEnd(end) && open > 0
    requires BehindEnd(node[1..], 1) == BehindEnd(end, 1)
    requires BehindEnd(node[1..], open + 1) == BehindEnd(end, open + 1)
    ensures BehindEnd(node[1..], 1) == end[1..] && BehindEnd(node, open) == BehindEnd(end[1..], open)
  {
    OneEvent(node, open);
    OneEvent(end, open + 1);
    OneEvent(end, 1);
    BehindNone(end[1..]);
    hide BehindEnd;
  }

  lemma BehindNone(stream: seq<Item>)
    ensures BehindEnd(stream, 0) == stream
  {
  }

  /** Loading a node reads just that: up to what stands behind it, whatever is still open around it. */
  lemma {:induction false} NodeReads(o: Options, st: State, open: nat)
    requires open > 0
    ensures var r := ParseNode(o, st);
            r.Ok? ==>
              r.value.st.rest == BehindNode(st.rest) && BehindEnd(st.rest, open) == BehindEnd(r.value.st.rest, open)
    decreases |st.rest|, 0
  {
    hide BeginNode;
    hide FinishCollection;
    hide ParseNode;
    hide CommentRun;
    hide BehindEnd;
    hide CommentTexts;
    NodeStep(o, st);
    BeginReads(o, st);
    CommentsAreNoBrackets(st.rest, open);
    var node := SkipComments(st.rest);
    var b := BeginNode(o, st);
    if b.Ok? && b.value.follow {
      hide SkipComments;
      if b.value.node.Mapping? {
        EntriesRead(o, b.value.st, 1);
        EntriesRead(o, b.value.st, open + 1);
        var p := ParseEntries(o, b.value.st);
        if p.Ok? {
          FinishCollectionSuffix(o, p.value.st, b.value.node.(entries := p.value.entries));
          CollectionReads(node, p.value.st.rest, open);
        }
      } else {
        ItemsRead(o, b.value.st, 1);
        ItemsRead(o, b.value.st, open + 1);
        var p := ParseItems(o, b.value.st);
        if p.Ok? {
          FinishCollectionSuffix(o, p.value.st, b.value.node.(items := p.value.items));
          CollectionReads(node, p.value.st.rest, open);
        }
      }
    } else if node != [] {
      OneEvent(node, open);
    }
  }

  lemma {:induction false} EntriesRead(o: Options, st: State, open: nat)
    requires open > 0
    ensures var r := ParseEntries(o, st); r.Ok? ==> BehindEnd(st.rest, open) == BehindEnd(r.value.st.rest, open)
    decreases |st.rest|, 1
  {
    hide ParseNode;
    hide ParseEntries;
    hide FinishKey;
    hide FinishValue;
    hide BehindEnd;
    EntriesStep(o, st);
    NextEntryReads(o, st, MappingKind);
    hide NextEntryOf;
    CommentsAreNoBrackets(st.rest, open);
    var next := NextEntryOf(o, st, MappingKind);
    if next.Ok? && next.value.entry.More? {
      NodeReads(o, next.value.st, open);
      var k := ParseNode(o, next.value.st);
      if k.Ok? {
        FinishReadsComments(o, k.value.st, k.value.node, next.value.entry.comments, open);
        var key := FinishKey(o, k.value.st, k.value.node, next.value.entry.comments);
        NodeReads(o, key.st, open);
        var v := ParseNode(o, key.st);
        if v.Ok? {
          FinishReadsComments(o, v.value.st, v.value.node, None, open);
          EntriesRead(o, FinishValue(o, v.value.st, v.value.node).st, open);
        }
      }
    }
  }

  lemma NextEntryReads(o: Options, st: State, kind: CollectionKind)
    ensures var r := NextEntryOf(o, st, kind);
            r.Ok? ==>
              && r.value.st.rest == SkipComments(st.rest)
              && (if r.value.entry.More? then r.value.st.pending == [] && !StartsWithClosing(r.value.st.rest)
                  else r.value.st.pending == st.pending + CommentTexts(st.rest[..CommentRun(st.rest)]))
  {
    TextsOfPart(st.rest, 0);
    hide CommentRun;
    hide CommentTexts;
    hide RawComments;
    hide Texts;
  }

  lemma {:induction false} ItemsRead(o: Options, st: State, open: nat)
    requires open > 0
    ensures var r := ParseItems(o, st); r.Ok? ==> BehindEnd(st.rest, open) == BehindEnd(r.value.st.rest, open)
    decreases |st.rest|, 1
  {
    hide ParseNode;
    hide ParseItems;
    hide FinishItem;
    hide BehindEnd;
    ItemsStep(o, st);
    NextEntryReads(o, st, SequenceKind);
    hide NextEntryOf;
    CommentsAreNoBrackets(st.rest, open);
    var next := NextEntryOf(o, st, SequenceKind);
    if next.Ok? && next.value.entry.More? {
      NodeReads(o, next.value.st, open);
      var i := ParseNode(o, next.value.st);
      if i.Ok? {
        FinishReadsComments(o, i.value.st, i.value.node, next.value.entry.comments, open);
        ItemsRead(o, FinishItem(o, i.value.st, i.value.node, next.value.entry.comments).st, open);
      }
    }
  }

  // ----- Keys, values and items -----

  lemma {:induction false} UpToLineStops(o: Options, raw: seq<RawComment>, line: nat)
    ensures var k := UpToLine(o, raw, line);
            && (forall i :: 0 <= i < k ==> o.Line(raw[i].start) <= line)
            && (k < |raw| ==> o.Line(raw[k].start) > line)
  {
    if raw != [] && o.Line(raw[0].start) <= line {
      UpToLineStops(o, raw[1..], line);
    }
  }

  /** The comments in front of a node are split at the first that is not its own. */
  lemma SplitIsAtTheFirst(o: Options, stream: seq<Item>, n: Node, own: nat)
    requires var split := SplitComments(o, n, RawComments(stream[..CommentRun(stream)])); own == |split.before|
    ensures var k := CommentRun(stream);
            var split := SplitComments(o, n, RawComments(stream[..k]));
            && own <= k
            && split.before == CommentTexts(stream[..own]) && split.after == CommentTexts(stream[own..k])
            && (forall i :: 0 <= i < own ==> IsOwn(o, stream[i], n))
            && (own < k ==> !IsOwn(o, stream[own], n))
  {
    var k := CommentRun(stream);
    var raw := RawComments(stream[..k]);
    hide CommentTexts;
    hide CommentRun;
    var end := PropertiesEnd(n);
    if end.Some? {
      UpToLineStops(o, raw, o.Line(end.value));
    }
    hide UpToLine;
    hide WithHash;
    TextsOfPart(stream, own);
    forall i | 0 <= i < k ensures IsOwn(o, stream[i], n) == (end.None? || o.Line(raw[i].start) <= o.Line(end.value)) {
      OwnByProperties(o, stream[i], n);
    }
  }

  lemma OwnByProperties(o: Options, comment: Item, n: Node)
    requires comment.Good?
    ensures var end := PropertiesEnd(n);
            IsOwn(o, comment, n) == (end.None? || o.Line(comment.span.start) <= o.Line(end.value))
  {
  }

  /** The same node, up to the comments on it. */
  ghost predicate SameButOwn(n: Node, m: Node) {
    && SameChildren(n, m)
    && n.loc == m.loc
    && (n.Scalar? ==>
      && m.style == n.style && m.value == n.value
      && (n.meta.Some? ==>
            && m.meta.Some?
            && m.meta.value.anchorLoc == n.meta.value.anchorLoc && m.meta.value.tagLoc == n.meta.value.tagLoc)
      && (n.meta.None? ==> m.meta.None? || (m.meta.value.anchorLoc.None? && m.meta.value.tagLoc.None?)))
  }

  /** What decides the places of comments does not depend on the comments on a node. */
  lemma OwnDoNotMatter(o: Options, n: Node, m: Node)
    requires SameButOwn(n, m)
    ensures TextLine(o, n) == TextLine(o, m) && KeyTextLine(o, n) == KeyTextLine(o, m)
    ensures forall c: Item | c.Good? :: IsOwn(o, c, n) == IsOwn(o, c, m)
  {
  }

  lemma PlacesOfChildren(o: Options, stream: seq<Item>, waiting: seq<string>, n: Node, m: Node)
    requires SameChildren(n, m)
    ensures Places(o, stream, waiting, n) == Places(o, stream, waiting, m)
  {
    SameChildrenSameOrder(o, n, m);
    hide LeadInside;
    hide TrailInside;
    hide PlacesInEntries;
    hide PlacesInItems;
  }

  lemma AttachingKeepsTheRest(n: Node, comments: seq<string>, comment: string)
    ensures var m := AttachLeading(n, comments);
            && SameButOwn(n, m)
            && (Bare(n) ==> m.LeadingComments() == comments && m.TrailingComment() == None)
    ensures var m := AttachTrailing(n, comment);
            SameButOwn(n, m) && m.LeadingComments() == n.LeadingComments() && m.TrailingComment() == Some(comment)
  {
  }

  /** The comments in front of a key or an item that has some, or some waiting. */
  lemma SplitIsPlaced(o: Options, stream: seq<Item>, waiting: seq<string>, n: Node, after: State)
    requires Bare(n)
    ensures var k := CommentRun(stream);
            var c := Some(EntryComments(RawComments(stream[..k]), waiting));
            var p := AttachEntryComments(o, after, n, c);
            && SameButOwn(n, p.node) && p.node.TrailingComment() == None
            && HasItsLeading(o, stream, waiting, p.node)
            && p.st == after.(pending := after.pending + CommentTexts(stream[OwnCount(waiting, p.node)..k]))
  {
    hide IsOwn;
    hide SplitComments;
    hide CommentTexts;
    hide CommentRun;
    hide AttachLeading;
    hide RawComments;
    hide SameButOwn;
    hide Bare;
    var raw := RawComments(stream[..CommentRun(stream)]);
    var split := SplitComments(o, n, raw);
    var own := |split.before|;
    var p := AttachEntryComments(o, after, n, Some(EntryComments(raw, waiting)));
    SplitIsAtTheFirst(o, stream, n, own);
    AttachingKeepsTheRest(n, waiting + split.before, "");
    OwnDoNotMatter(o, n, p.node);
  }

  /** The comments in front of a key or an item. */
  lemma LeadingIsPlaced(o: Options, st: State, next: Next, kind: CollectionKind, n: Node, after: State)
    requires NextEntryOf(o, st, kind) == Ok(next) && next.entry.More? && Bare(n)
    ensures var p := AttachEntryComments(o, after, n, next.entry.comments);
            && SameButOwn(n, p.node) && p.node.TrailingComment() == None
            && HasItsLeading(o, st.rest, st.pending, p.node)
            && p.st == after.(
                 pending := after.pending + CommentTexts(st.rest[OwnCount(st.pending, p.node)..CommentRun(st.rest)]))
  {
    hide IsOwn;
    hide SplitComments;
    hide CommentTexts;
    hide CommentRun;
    hide AttachLeading;
    hide RawComments;
    if next.entry.comments.None? {
      NothingToLead(st.rest, CommentRun(st.rest));
    } else {
      SplitIsPlaced(o, st.rest, st.pending, n, after);
      hide AttachEntryComments;
      hide HasItsLeading;
    }
  }

  lemma NothingToLead(stream: seq<Item>, k: nat)
    requires k == CommentRun(stream) && RawComments(stream[..k]) == []
    ensures k == 0 && stream[..0] == [] && stream[0..0] == [] && CommentTexts([]) == []
  {
  }

  /** The comment behind a node. */
  lemma TrailingIsPlaced(o: Options, rest: seq<Item>, n: Node, line: Option<nat>)
    requires n.TrailingComment() == None
    ensures var a := AttachOnLine(o, rest, n, line);
            && SameButOwn(n, a.node) && a.node.LeadingComments() == n.LeadingComments()
            && HasItsTrailing(o, rest, line, a.node) && a.rest == BehindTrailing(o, rest, line)
  {
    hide AttachTrailing;
    if rest != [] && rest[0].Good? && rest[0].event.Comment? {
      AttachingKeepsTheRest(n, [], WithHash(rest[0].event.text));
    }
  }

  lemma LeadingStays(o: Options, stream: seq<Item>, waiting: seq<string>, n: Node, m: Node)
    requires SameButOwn(n, m) && n.LeadingComments() == m.LeadingComments()
    ensures HasItsLeading(o, stream, waiting, n) == HasItsLeading(o, stream, waiting, m)
  {
    hide IsOwn;
    OwnDoNotMatter(o, n, m);
  }

  /** A key between the comments in front of it and the one on its line. */
  lemma KeyIsPlaced(o: Options, st: State, next: Next, n: Node, after: State)
    requires NextEntryOf(o, st, MappingKind) == Ok(next) && next.entry.More? && Bare(n)
    ensures var p := FinishKey(o, after, n, next.entry.comments);
            && SameChildren(n, p.node)
            && HasItsLeading(o, st.rest, st.pending, p.node)
            && HasItsTrailing(o, after.rest, KeyTextLine(o, p.node), p.node)
            && p.st == after.(
                 rest := BehindTrailing(o, after.rest, KeyTextLine(o, p.node)),
                 pending := after.pending + CommentTexts(st.rest[OwnCount(st.pending, p.node)..CommentRun(st.rest)]))
  {
    LeadingIsPlaced(o, st, next, MappingKind, n, after);
    hide NextEntryOf;
    hide CommentRun;
    hide CommentTexts;
    hide AttachEntryComments;
    hide AttachOnLine;
    hide HasItsLeading;
    hide KeyCommentLine;
    hide KeyTextLine;
    hide Bare;
    var a := AttachEntryComments(o, after, n, next.entry.comments);
    var line := KeyTextLine(o, a.node);
    LinesAgree(o, a.node);
    TrailingIsPlaced(o, after.rest, a.node, line);
    var p := FinishKey(o, after, n, next.entry.comments);
    OwnDoNotMatter(o, a.node, p.node);
    LeadingStays(o, st.rest, st.pending, a.node, p.node);
  }

  lemma ItemIsPlaced(o: Options, st: State, next: Next, n: Node, after: State)
    requires NextEntryOf(o, st, SequenceKind) == Ok(next) && next.entry.More? && Bare(n)
    ensures var p := FinishItem(o, after, n, next.entry.comments);
            && SameChildren(n, p.node)
            && HasItsLeading(o, st.rest, st.pending, p.node)
            && HasItsTrailing(o, after.rest, TextLine(o, p.node), p.node)
            && p.st == after.(
                 rest := BehindTrailing(o, after.rest, TextLine(o, p.node)),
                 pending := after.pending + CommentTexts(st.rest[OwnCount(st.pending, p.node)..CommentRun(st.rest)]))
  {
    LeadingIsPlaced(o, st, next, SequenceKind, n, after);
    hide NextEntryOf;
    hide CommentRun;
    hide CommentTexts;
    hide AttachEntryComments;
    hide AttachOnLine;
    hide HasItsLeading;
    hide CommentLine;
    hide TextLine;
    hide Bare;
    var a := AttachEntryComments(o, after, n, next.entry.comments);
    var line := TextLine(o, a.node);
    LinesAgree(o, a.node);
    TrailingIsPlaced(o, after.rest, a.node, line);
    var p := FinishItem(o, after, n, next.entry.comments);
    OwnDoNotMatter(o, a.node, p.node);
    LeadingStays(o, st.rest, st.pending, a.node, p.node);
  }

  /** A value or a root, which leads with nothing. */
  lemma ValueIsPlaced(o: Options, st: State, n: Node)
    requires Bare(n)
    ensures var p := FinishValue(o, st, n);
            && SameChildren(n, p.node)
            && p.node.LeadingComments() == []
            && HasItsTrailing(o, st.rest, TextLine(o, p.node), p.node)
            && p.st == st.(rest := BehindTrailing(o, st.rest, TextLine(o, p.node)))
  {
    hide AttachOnLine;
    hide CommentLine;
    hide TextLine;
    LinesAgree(o, n);
    TrailingIsPlaced(o, st.rest, n, TextLine(o, n));
    OwnDoNotMatter(o, n, FinishValue(o, st, n).node);
  }

  lemma EntryIsPlaced(
    o: Options, stream: seq<Item>, waiting: seq<string>, e: Ast.Entry, more: seq<Ast.Entry>, inKey: seq<string>,
    toValue: seq<Item>, inValue: seq<string>, toNext: seq<Item>)
    requires var behind := BehindNode(stream);
             && Places(o, stream[CommentRun(stream)..], [], e.key) == Some(inKey)
             && HasItsLeading(o, stream, waiting, e.key) && HasItsTrailing(o, behind, KeyTextLine(o, e.key), e.key)
             && toValue == BehindTrailing(o, behind, KeyTextLine(o, e.key))
    requires var behind := BehindNode(toValue);
             var own := OwnCount(waiting, e.key);
             && Places(o, toValue, inKey + CommentTexts(stream[own..CommentRun(stream)]), e.value) == Some(inValue)
             && e.value.LeadingComments() == [] && HasItsTrailing(o, behind, TextLine(o, e.value), e.value)
             && toNext == BehindTrailing(o, behind, TextLine(o, e.value))
    ensures PlacesInEntries(o, stream, waiting, [e] + more) == PlacesInEntries(o, toNext, inValue, more)
  {
    hide Places;
    hide HasItsLeading;
    hide HasItsTrailing;
    hide BehindTrailing;
    hide BehindNode;
    hide KeyTextLine;
    hide TextLine;
    hide CommentRun;
    hide CommentTexts;
    hide OwnCount;
    assert ([e] + more)[1..] == more;
  }

  lemma ItemThenMorePlaced(
    o: Options, stream: seq<Item>, waiting: seq<string>, n: Node, more: seq<Node>, inItem: seq<string>,
    toNext: seq<Item>)
    requires var behind := BehindNode(stream);
             && Places(o, stream[CommentRun(stream)..], [], n) == Some(inItem)
             && HasItsLeading(o, stream, waiting, n) && HasItsTrailing(o, behind, TextLine(o, n), n)
             && toNext == BehindTrailing(o, behind, TextLine(o, n))
    ensures 0 <= OwnCount(waiting, n) <= CommentRun(stream)
    ensures PlacesInItems(o, stream, waiting, [n] + more)
         == PlacesInItems(o, toNext, inItem + CommentTexts(stream[OwnCount(waiting, n)..CommentRun(stream)]), more)
  {
    hide Places;
    hide HasItsTrailing;
    hide BehindTrailing;
    hide BehindNode;
    hide TextLine;
    hide CommentRun;
    hide CommentTexts;
    hide OwnCount;
    hide IsOwn;
    assert ([n] + more)[1..] == more;
  }

  // ----- Trees -----

  lemma FinishedIsTheSame(o: Options, st: State, n: Node)
    ensures var r := FinishCollection(o, st, n);
            r.Ok? ==> SameChildren(n, r.value.node) && r.value.st.pending == st.pending
  {
    hide CompleteNode;
    hide SameChildren;
    FinishCollectionSuffix(o, st, n);
    var ends := StartsWithEnd(st.rest, MappingKind) || StartsWithEnd(st.rest, SequenceKind);
    var loc := if ends then n.loc.(end := st.rest[0].span.end) else n.loc;
    var st1 := st.(rest := if ends then st.rest[1..] else st.rest, depth := st.depth - 1);
    CompleteNodeKeepsOrder(o, st1, n.WithLoc(loc), loc);
    MovingKeepsChildren(n, loc);
    var r := FinishCollection(o, st, n);
    if r.Ok? {
      ChildrenThen(n, n.WithLoc(loc), r.value.node);
    }
  }

  lemma MovingKeepsChildren(n: Node, loc: Span)
    ensures SameChildren(n, n.WithLoc(loc))
  {
  }

  lemma ChildrenThen(a: Node, b: Node, c: Node)
    requires SameChildren(a, b) && SameChildren(b, c)
    ensures SameChildren(a, c)
  {
  }

  /** A loaded node has every comment inside it in its place; those left wait. */
  lemma {:induction false} NodeIsPlaced(o: Options, st: State)
    requires Sound(o, st)
    ensures var r := ParseNode(o, st);
            r.Ok? ==> Places(o, st.rest, st.pending, r.value.node) == Some(r.value.st.pending)
    decreases |st.rest|, 0
  {
    hide BeginNode;
    hide FinishCollection;
    hide ParseNode;
    hide CommentRun;
    hide CommentTexts;
    hide LeadInside;
    hide TrailInside;
    NodeStep(o, st);
    BeginReads(o, st);
    BeginNodeIsSound(o, st);
    BeginNodeKeepsOrder(o, st);
    hide Keeps;
    var b := BeginNode(o, st);
    if b.Ok? && b.value.follow {
      hide PlacesInEntries;
      hide PlacesInItems;
      if b.value.node.Mapping? {
        EntriesArePlaced(o, b.value.st);
        var p := ParseEntries(o, b.value.st);
        if p.Ok? {
          FinishedIsTheSame(o, p.value.st, b.value.node.(entries := p.value.entries));
        }
      } else {
        ItemsArePlaced(o, b.value.st);
        var p := ParseItems(o, b.value.st);
        if p.Ok? {
          FinishedIsTheSame(o, p.value.st, b.value.node.(items := p.value.items));
        }
      }
    }
  }

  lemma {:induction false} EntriesArePlaced(o: Options, st: State)
    requires Sound(o, st)
    ensures var r := ParseEntries(o, st);
            r.Ok? ==> PlacesInEntries(o, st.rest, st.pending, r.value.entries) == Some(r.value.st.pending)
    decreases |st.rest|, 1
  {
    hide ParseNode;
    hide ParseEntries;
    hide FinishKey;
    hide FinishValue;
    hide Sound;
    hide Places;
    hide BehindNode;
    hide CommentRun;
    hide Account;
    hide Comments;
    hide HasItsLeading;
    hide HasItsTrailing;
    hide BehindTrailing;
    hide BehindEnd;
    hide ParseAfterKey;
    hide OwnCount;
    hide CommentTexts;
    hide SameChildren;
    hide AliasFree;
    hide PlacesInEntries;
    hide SkipComments;
    ParseEntriesSteps(o, st);
    NextEntryReads(o, st, MappingKind);
    NextEntryIsSound(o, st, MappingKind);
    hide NextEntryOf;
    var next := NextEntryOf(o, st, MappingKind);
    if next.Ok? && next.value.entry.Closed? {
      NoEntriesArePlaced(o, st.rest, st.pending);
    }
    if next.Ok? && next.value.entry.More? {
      BehindSkipped(st.rest);
      SkippingIsShorter(st.rest);
      NodeIsPlaced(o, next.value.st);
      NodeReads(o, next.value.st, 1);
      ParseNodeIsSound(o, next.value.st);
      ParseNodeKeepsComments(o, next.value.st, "");
      var k := ParseNode(o, next.value.st);
      if k.Ok? {
        KeyIsPlaced(o, st, next.value, k.value.node, k.value.st);
        FinishIsSound(o, k.value.st, k.value.node, next.value.entry.comments);
        var key := FinishKey(o, k.value.st, k.value.node, next.value.entry.comments);
        PlacesOfChildren(o, next.value.st.rest, [], k.value.node, key.node);
        ValuesArePlaced(o, st, key, k.value.st.pending);
      }
    }
  }

  lemma SkippingIsShorter(stream: seq<Item>)
    ensures |SkipComments(stream)| <= |stream|
  {
  }

  lemma NoEntriesArePlaced(o: Options, stream: seq<Item>, waiting: seq<string>)
    requires StartsWithBracketEnd(SkipComments(stream))
    ensures PlacesInEntries(o, stream, waiting, []) == Some(waiting + CommentTexts(stream[..CommentRun(stream)]))
  {
    hide CommentRun;
    hide CommentTexts;
  }

  lemma BehindSkipped(stream: seq<Item>)
    ensures BehindNode(SkipComments(stream)) == BehindNode(stream)
  {
    SkipIsIdempotent(stream);
    hide BehindEnd;
    hide CommentRun;
  }

  /** The value and the entries behind it, once the key is in its place. */
  lemma {:induction false} ValuesArePlaced(o: Options, st: State, key: Parsed, inKey: seq<string>)
    requires Sound(o, key.st) && |key.st.rest| < |st.rest|
    requires Places(o, SkipComments(st.rest), [], key.node) == Some(inKey)
    requires HasItsLeading(o, st.rest, st.pending, key.node)
    requires HasItsTrailing(o, BehindNode(st.rest), KeyTextLine(o, key.node), key.node)
    requires key.st.rest == BehindTrailing(o, BehindNode(st.rest), KeyTextLine(o, key.node))
    requires key.st.pending
          == inKey + CommentTexts(st.rest[OwnCount(st.pending, key.node)..CommentRun(st.rest)])
    ensures var r := ParseAfterKey(o, key);
            r.Ok? ==> PlacesInEntries(o, st.rest, st.pending, r.value.entries) == Some(r.value.st.pending)
    decreases |st.rest|, 0
  {
    hide PlacesInEntries;
    hide Places;
    hide HasItsLeading;
    hide HasItsTrailing;
    hide BehindTrailing;
    hide BehindNode;
    hide KeyTextLine;
    hide TextLine;
    hide CommentRun;
    hide CommentTexts;
    hide OwnCount;
    hide Sound;
    hide FinishValue;
    hide Account;
    hide Comments;
    hide Bare;
    NodeIsPlaced(o, key.st);
    NodeReads(o, key.st, 1);
    ParseNodeIsSound(o, key.st);
    ParseNodeKeepsComments(o, key.st, "");
    hide ParseNode;
    hide BehindEnd;
    var v := ParseNode(o, key.st);
    if v.Ok? {
      ValueIsPlaced(o, v.value.st, v.value.node);
      FinishIsSound(o, v.value.st, v.value.node, None);
      var value := FinishValue(o, v.value.st, v.value.node);
      PlacesOfChildren(o, key.st.rest, key.st.pending, v.value.node, value.node);
      EntriesArePlaced(o, value.st);
      hide ParseEntries;
      var more := ParseEntries(o, value.st);
      if more.Ok? {
        EntryIsPlaced(o, st.rest, st.pending, Ast.Entry(key.node, value.node), more.value.entries, inKey,
                      key.st.rest, v.value.st.pending, value.st.rest);
      }
    }
  }

  lemma {:induction false} ItemsArePlaced(o: Options, st: State)
    requires Sound(o, st)
    ensures var r := ParseItems(o, st);
            r.Ok? ==> PlacesInItems(o, st.rest, st.pending, r.value.items) == Some(r.value.st.pending)
    decreases |st.rest|, 1
  {
    hide ParseNode;
    hide ParseItems;
    hide FinishItem;
    hide Sound;
    hide Places;
    hide BehindNode;
    hide CommentRun;
    hide Account;
    hide Comments;
    hide HasItsLeading;
    hide HasItsTrailing;
    hide BehindTrailing;
    hide BehindEnd;
    ItemsStep(o, st);
    NextEntryReads(o, st, SequenceKind);
    NextEntryIsSound(o, st, SequenceKind);
    hide NextEntryOf;
    var next := NextEntryOf(o, st, SequenceKind);
    if next.Ok? && next.value.entry.More? {
      hide PlacesInItems;
      BehindSkipped(st.rest);
      NodeIsPlaced(o, next.value.st);
      NodeReads(o, next.value.st, 1);
      ParseNodeIsSound(o, next.value.st);
      ParseNodeKeepsComments(o, next.value.st, "");
      var i := ParseNode(o, next.value.st);
      if i.Ok? {
        ItemIsPlaced(o, st, next.value, i.value.node, i.value.st);
        FinishIsSound(o, i.value.st, i.value.node, next.value.entry.comments);
        var item := FinishItem(o, i.value.st, i.value.node, next.value.entry.comments);
        PlacesOfChildren(o, next.value.st.rest, [], i.value.node, item.node);
        ItemsArePlaced(o, item.st);
        var more := ParseItems(o, item.st);
        if more.Ok? {
          ItemThenMorePlaced(
            o, st.rest, st.pending, item.node, more.value.items, i.value.st.pending, item.st.rest);
        }
      }
    }
  }

  // ----- Documents -----

  lemma RootIsPlaced(o: Options, st: State)
    requires Sound(o, st) && !StartsWithComment(st.rest)
    ensures var r := ParseRoot(o, st);
            r.Ok? ==>
              && Bare(r.value.node)
              && Places(o, st.rest, st.pending, r.value.node) == Some(r.value.st.pending)
              && r.value.st.rest == BehindRoot(st.rest)
  {
    ParseRootKeepsComments(o, st, "");
    hide Account;
    hide ParseNode;
    hide ApplySchema;
    hide BehindNode;
    if StartsWithDocumentEnd(st.rest) {
      SchemaKeepsChildren(o, EMPTY_SCALAR);
      var r := ParseRoot(o, st);
      assert st.pending + [] == st.pending;
    } else {
      NodeIsPlaced(o, st);
      NodeReads(o, st, 1);
      hide Places;
    }
  }

  /** How a document ends, once its root has its comment. */
  lemma EndIsPlaced(o: Options, p: Parsed, start: Event, outside: seq<string>, comments: seq<string>)
    requires start.DocumentStart?
    ensures var r := EndDocument(o, p, start, outside, comments);
            var root := FinishValue(o, p.st, p.node);
            var last := CommentRun(root.st.rest);
            var end := root.st.rest[last..];
            r.Ok? ==>
              var d := r.value.document;
              && d.root == root.node && d.prefixComments == outside && d.comments == comments
              && d.afterEndComments == []
              && d.endComments == root.st.pending + CommentTexts(root.st.rest[..last])
              && r.value.st.rest == if end != [] && end[0].Good? && end[0].event.DocumentEnd? then end[1..] else end
  {
    hide FinishValue;
    hide CommentTexts;
    TextsOfPart(FinishValue(o, p.st, p.node).st.rest, 0);
    hide CommentRun;
    hide RawComments;
    hide Texts;
  }

  lemma {:induction false} DocumentIsPlaced(o: Options, st: State, start: Event, outside: seq<string>)
    requires start.DocumentStart?
    ensures var r := LoadDocument(o, st, start, outside);
            r.Ok? ==>
              && PlacesInDocument(o, st.rest, outside, r.value.document) == Some(r.value.st.rest)
              && r.value.document.afterEndComments == []
  {
    hide ParseRoot;
    hide EndDocument;
    hide Sound;
    hide Places;
    hide BehindRoot;
    hide BehindTrailing;
    hide HasItsTrailing;
    hide TextLine;
    hide FinishValue;
    hide CommentTexts;
    ResetIsSound(o, st);
    TextsOfPart(st.rest, 0);
    var run := CommentRun(st.rest);
    var comments := Texts(RawComments(st.rest[..run]));
    hide CommentRun;
    hide RawComments;
    hide Texts;
    var st1 := Reset(st).(rest := st.rest[run..]);
    SoundAnywhere(o, Reset(st), st1.rest);
    RootIsPlaced(o, st1);
    var p := ParseRoot(o, st1);
    if p.Ok? {
      ValueIsPlaced(o, p.value.st, p.value.node);
      EndIsPlaced(o, p.value, start, outside, comments);
      PlacesOfChildren(o, st1.rest, [], p.value.node, FinishValue(o, p.value.st, p.value.node).node);
    }
  }

  lemma {:induction false} DocumentsArePlaced(o: Options, st: State, outside: seq<string>)
    ensures var r := LoadDocuments(o, st, outside);
            r.Ok? ==>
              && PlacesInDocuments(o, st.rest, outside, r.value.documents) == Some(r.value.outside)
              && forall d :: d in r.value.documents ==> d.afterEndComments == []
    decreases |st.rest|
  {
    hide LoadDocument;
    hide PlacesInDocument;
    if st.rest != [] && st.rest[0].Good? {
      var event := st.rest[0].event;
      var st1 := st.(rest := st.rest[1..]);
      if event.StreamEnd? {
      } else if event.DocumentStart? {
        DocumentIsPlaced(o, st1, event, outside);
        var d := LoadDocument(o, st1, event, outside);
        if d.Ok? {
          DocumentsArePlaced(o, d.value.st, []);
          var more := LoadDocuments(o, d.value.st, []);
          if more.Ok? {
            assert ([d.value.document] + more.value.documents)[1..] == more.value.documents;
          }
        }
      } else if event.Comment? {
        DocumentsArePlaced(o, st1, outside + [WithHash(event.text)]);
      } else if !IsNodeEvent(event) {
        DocumentsArePlaced(o, st1, outside);
      }
    }
  }

  /** The comments behind the end of a document are not in it. */
  lemma {:induction false} BehindTheEndDoesNotMatter(
    o: Options, stream: seq<Item>, outside: seq<string>, a: seq<Document>, b: seq<Document>)
    requires |a| == |b|
    requires forall i :: 0 <= i < |a| ==> a[i] == b[i].(afterEndComments := a[i].afterEndComments)
    ensures PlacesInDocuments(o, stream, outside, a) == PlacesInDocuments(o, stream, outside, b)
    decreases |stream|
  {
    if stream == [] || (stream[0].Good? && stream[0].event.StreamEnd?) {
    } else if StartsWithComment(stream) {
      BehindTheEndDoesNotMatter(o, stream[1..], outside + ["#" + stream[0].event.text], a, b);
    } else if stream[0].Good? && stream[0].event.DocumentStart? {
      if a != [] {
        assert PlacesInDocument(o, stream[1..], outside, a[0]) == PlacesInDocument(o, stream[1..], outside, b[0]);
        hide PlacesInDocument;
        var rest := PlacesInDocument(o, stream[1..], outside, a[0]);
        if rest.Some? {
          BehindTheEndDoesNotMatter(o, rest.value, [], a[1..], b[1..]);
        }
      }
    } else {
      BehindTheEndDoesNotMatter(o, stream[1..], outside, a, b);
    }
  }

  /**
   For every stream that loads, in both modes, every comment is in its place.  In
   particular the comment that follows the last event of a key, a value, an item
   or a root is its trailing comment if and only if it stands on its line.
   */
  lemma EveryCommentIsInItsPlace(o: Options, stream: seq<Item>)
    requires stream != []
    ensures var r := Run(o, stream);
            r.Ok? ==>
              var documents := r.value.documents;
              && PlacesInDocuments(o, stream[1..], [], documents) == Some(r.value.outside)
              && forall i :: 0 <= i < |documents| ==>
                   documents[i].afterEndComments == if i == |documents| - 1 then r.value.outside else []
  {
    hide LoadDocuments;
    hide PlacesInDocuments;
    var st := InitialState(stream[1..]);
    DocumentsArePlaced(o, st, []);
    var l := LoadDocuments(o, st, []);
    if l.Ok? {
      BehindTheEndDoesNotMatter(
        o, stream[1..], [], GiveToLast(l.value.documents, l.value.outside), l.value.documents);
    }
  }
}
