/**
 Parse errors in a stream.  A load reports the parse error it comes to, unless
 what stands in front of it already decided the outcome.
 */
module LoaderErrors {
  import opened Wrappers
  import opened Events
  import opened Schema
  import opened Ast
  import opened LoaderSpec
  import opened LoaderResolved
  import opened LoaderStream

  ghost predicate AllGood(items: seq<Item>) {
    forall i :: 0 <= i < |items| ==> items[i].Good?
  }

  predicate StartsWithBad(b: seq<Item>, e: ParseError) {
    b != [] && b[0] == Bad(e)
  }

  /** What is left to read in front of `b`. */
  function FrontOf(rest: seq<Item>, b: seq<Item>): seq<Item>
    requires |b| <= |rest|
  {
    rest[..|rest| - |b|]
  }

  /** The same state, in front of `b` and in front of something else. */
  ghost predicate Cut(s: State, t: State, b: seq<Item>, other: seq<Item>) {
    && |b| <= |s.rest|
    && var front := FrontOf(s.rest, b);
       && AllGood(front)
       && s.rest == front + b
       && t == s.(rest := front + other)
  }

  lemma CutBegins(s: State, front: seq<Item>, b: seq<Item>, other: seq<Item>)
    requires AllGood(front) && s.rest == front + b
    ensures Cut(s, s.(rest := front + other), b, other) && FrontOf(s.rest, b) == front
  {
    assert s.rest[..|s.rest| - |b|] == front;
  }

  /** Reading `k` items of the front. */
  lemma CutDrops(s: State, t: State, b: seq<Item>, other: seq<Item>, k: nat)
    requires Cut(s, t, b, other) && k <= |s.rest| - |b|
    ensures k <= |t.rest| && s.rest[..k] == t.rest[..k]
    ensures Cut(s.(rest := s.rest[k..]), t.(rest := t.rest[k..]), b, other)
  {
    var front := FrontOf(s.rest, b);
    assert s.rest[k..] == front[k..] + b && t.rest[k..] == front[k..] + other;
    CutBegins(s.(rest := s.rest[k..]), front[k..], b, other);
    assert t.(rest := t.rest[k..]) == s.(rest := front[k..] + other);
  }

  lemma CutLooksAlike(s: State, t: State, b: seq<Item>, other: seq<Item>)
    requires Cut(s, t, b, other) && |s.rest| > |b|
    ensures s.rest != [] && t.rest != [] && s.rest[0] == t.rest[0] && s.rest[0].Good?
  {
  }

  /** Changing the rest of the state in both. */
  lemma CutOtherwise(s: State, t: State, b: seq<Item>, other: seq<Item>, s': State, t': State)
    requires Cut(s, t, b, other) && s'.rest == s.rest && t' == s'.(rest := t.rest)
    ensures Cut(s', t', b, other)
  {
  }

  /** The comments in front are in front of `b`. */
  lemma {:induction false} RunIsInFront(front: seq<Item>, b: seq<Item>, e: ParseError, other: seq<Item>)
    requires AllGood(front) && StartsWithBad(b, e)
    ensures CommentRun(front + b) <= |front|
    ensures CommentRun(front + b) < |front| ==> CommentRun(front + other) == CommentRun(front + b)
  {
    if front == [] {
      assert front + b == b;
    } else {
      assert (front + b)[1..] == front[1..] + b && (front + other)[1..] == front[1..] + other;
      RunIsInFront(front[1..], b, e, other);
    }
  }

  lemma CutRuns(s: State, t: State, b: seq<Item>, e: ParseError, other: seq<Item>)
    requires Cut(s, t, b, other) && StartsWithBad(b, e)
    ensures var k := CommentRun(s.rest);
            && k <= |s.rest| - |b|
            && (k == |s.rest| - |b| ==> s.rest[k..] == b)
            && (k < |s.rest| - |b| ==> CommentRun(t.rest) == k)
  {
    hide CommentRun;
    var front := FrontOf(s.rest, b);
    RunIsInFront(front, b, e, other);
    assert s.rest[|front|..] == b;
  }

  function Reported(e: ParseError): LoadError {
    Parse(e.pos, e.kind)
  }

  /** At the parse error, it is reported. */
  lemma NodeReports(o: Options, st: State, e: ParseError)
    requires StartsWithBad(st.rest, e)
    ensures BeginNode(o, st) == Err(Reported(e)) && ParseNode(o, st) == Err(Reported(e))
  {
    hide ParseEntries;
    hide ParseItems;
  }

  lemma NextReports(o: Options, st: State, kind: CollectionKind, e: ParseError)
    requires StartsWithBad(st.rest, e)
    ensures NextEntryOf(o, st, kind) == Err(Reported(e))
  {
    assert CommentRun(st.rest) == 0 && st.rest[0..] == st.rest;
    hide RawComments;
  }

  /** The outcome of loading one node: the error is reported, or not yet come to, or the rest does not matter. */
  ghost predicate NodeOutcome(
    e: ParseError, b: seq<Item>, other: seq<Item>, r: LoadResult<Parsed>, q: LoadResult<Parsed>)
  {
    if r.Err? then r.error == Reported(e) || q == r
    else r.value.st.rest == b || (q.Ok? && q.value.node == r.value.node && Cut(r.value.st, q.value.st, b, other))
  }

  ghost predicate BeginOutcome(
    e: ParseError, b: seq<Item>, other: seq<Item>, r: LoadResult<Begun>, q: LoadResult<Begun>)
  {
    if r.Err? then r.error == Reported(e) || q == r
    else
      || r.value.st.rest == b
      || (q.Ok? && q.value.node == r.value.node && q.value.follow == r.value.follow
          && Cut(r.value.st, q.value.st, b, other))
  }

  ghost predicate EntriesOutcome(
    e: ParseError, b: seq<Item>, other: seq<Item>, r: LoadResult<ParsedEntries>, q: LoadResult<ParsedEntries>)
  {
    if r.Err? then r.error == Reported(e) || q == r
    else q.Ok? && q.value.entries == r.value.entries && Cut(r.value.st, q.value.st, b, other)
  }

  ghost predicate ItemsOutcome(
    e: ParseError, b: seq<Item>, other: seq<Item>, r: LoadResult<ParsedItems>, q: LoadResult<ParsedItems>)
  {
    if r.Err? then r.error == Reported(e) || q == r
    else q.Ok? && q.value.items == r.value.items && Cut(r.value.st, q.value.st, b, other)
  }

  // ----- Nodes -----

  /** Completing a node does not look at what follows. */
  lemma CompleteLooksNowhere(o: Options, st: State, n: Node, span: Span, rest: seq<Item>)
    ensures var r, q := CompleteNode(o, st, n, span), CompleteNode(o, st.(rest := rest), n, span);
            if r.Err? then q == r
            else
              && q.Ok? && q.value.node == r.value.node
              && r.value.st.rest == st.rest && q.value.st == r.value.st.(rest := rest)
  {
    hide ApplySchema;
    hide CloneWithoutComments;
  }

  lemma EventLooksNowhere(o: Options, st: State, event: Event, span: Span, rest: seq<Item>)
    ensures var r, q := BeginEvent(o, st, event, span), BeginEvent(o, st.(rest := rest), event, span);
            if r.Err? then q == r
            else
              && q.Ok? && q.value.node == r.value.node && q.value.follow == r.value.follow
              && r.value.st.rest == st.rest && q.value.st == r.value.st.(rest := rest)
  {
    hide CompleteNode;
    hide Expand;
    hide PropertiesMeta;
    if event.Scalar? {
      CompleteLooksNowhere(
        o, st, Node.Scalar(event.value, event.style, event.props.tag, span, PropertiesMeta(event.props)), span, rest);
    }
  }

  lemma DrainedCut(s: State, t: State, b: seq<Item>, e: ParseError, other: seq<Item>)
    requires Cut(s, t, b, other) && StartsWithBad(b, e)
    ensures Drained(s).rest == b || (|Drained(s).rest| > |b| && Cut(Drained(s), Drained(t), b, other))
    ensures !StartsWithComment(Drained(s).rest)
  {
    var k := CommentRun(s.rest);
    CutRuns(s, t, b, e, other);
    if k < |s.rest| - |b| {
      CutDrops(s, t, b, other, k);
      var s', t' := s.(rest := s.rest[k..]), t.(rest := t.rest[k..]);
      hide CommentRun;
      hide RawComments;
      hide Texts;
      hide Cut;
      CutIsAlike(s, t, b, other);
      CutOtherwise(s', t', b, other, Drained(s), Drained(t));
    }
  }

  lemma CutIsAlike(s: State, t: State, b: seq<Item>, other: seq<Item>)
    requires Cut(s, t, b, other)
    ensures t == s.(rest := t.rest)
  {
  }

  lemma BeginCut(o: Options, s: State, t: State, b: seq<Item>, e: ParseError, other: seq<Item>)
    requires Cut(s, t, b, other) && StartsWithBad(b, e)
    ensures BeginOutcome(e, b, other, BeginNode(o, s), BeginNode(o, t))
  {
    BeginNodeDrains(o, s);
    BeginNodeDrains(o, t);
    DrainedCut(s, t, b, e, other);
    var s1, t1 := Drained(s), Drained(t);
    if s1.rest == b {
      NodeReports(o, s1, e);
    } else {
      DrainedBegins(o, s1, t1, b, e, other);
    }
  }

  lemma DrainedBegins(o: Options, s: State, t: State, b: seq<Item>, e: ParseError, other: seq<Item>)
    requires Cut(s, t, b, other) && |s.rest| > |b| && !StartsWithComment(s.rest)
    ensures BeginOutcome(e, b, other, BeginNode(o, s), BeginNode(o, t))
  {
    CutLooksAlike(s, t, b, other);
    CutDrops(s, t, b, other, 1);
    CutIsAlike(s, t, b, other);
    hide Cut;
    hide BeginEvent;
    if !StartsWithClosing(s.rest) {
      var Good(event, span) := s.rest[0];
      var s1, t1 := s.(rest := s.rest[1..]), t.(rest := t.rest[1..]);
      EventLooksNowhere(o, s1, event, span, t1.rest);
      var r := BeginEvent(o, s1, event, span);
      if r.Ok? {
        CutOtherwise(s1, t1, b, other, r.value.st, r.value.st.(rest := t1.rest));
      }
    }
  }

  ghost predicate NextOutcome(
    e: ParseError, b: seq<Item>, other: seq<Item>, r: LoadResult<Next>, q: LoadResult<Next>)
  {
    if r.Err? then r.error == Reported(e) || q == r
    else q.Ok? && q.value.entry == r.value.entry && |r.value.st.rest| > |b| && Cut(r.value.st, q.value.st, b, other)
  }

  /** The comments in front and the event behind them decide what is next. */
  lemma NextEntryLooksAlike(o: Options, s: State, t: State, kind: CollectionKind, k: nat)
    requires k == CommentRun(s.rest) == CommentRun(t.rest) && t == s.(rest := t.rest)
    requires k < |s.rest| && k < |t.rest| && s.rest[..k] == t.rest[..k] && s.rest[k] == t.rest[k] && s.rest[k].Good?
    ensures var r, q := NextEntryOf(o, s, kind), NextEntryOf(o, t, kind);
            if r.Err? then q == r
            else
              && q.Ok? && q.value.entry == r.value.entry
              && r.value.st.rest == s.rest[k..] && q.value.st == r.value.st.(rest := t.rest[k..])
  {
    hide CommentRun;
    hide RawComments;
    hide Texts;
    assert s.rest[k..][0] == s.rest[k] && t.rest[k..][0] == t.rest[k];
  }

  lemma NextEntryCut(
    o: Options, s: State, t: State, kind: CollectionKind, b: seq<Item>, e: ParseError, other: seq<Item>)
    requires Cut(s, t, b, other) && StartsWithBad(b, e)
    ensures NextOutcome(e, b, other, NextEntryOf(o, s, kind), NextEntryOf(o, t, kind))
  {
    hide NextEntryOf;
    hide CommentRun;
    hide Cut;
    var k := CommentRun(s.rest);
    CutRuns(s, t, b, e, other);
    if k < |s.rest| - |b| {
      CutDrops(s, t, b, other, k);
      var s1, t1 := s.(rest := s.rest[k..]), t.(rest := t.rest[k..]);
      CutLooksAlike(s1, t1, b, other);
      CutIsAlike(s, t, b, other);
      NextEntryLooksAlike(o, s, t, kind, k);
      var r := NextEntryOf(o, s, kind);
      if r.Ok? {
        CutOtherwise(s1, t1, b, other, r.value.st, r.value.st.(rest := t1.rest));
      }
    } else {
      RunThenBad(o, s, kind, k, e);
    }
  }

  /** At the error behind a run of comments, it is reported. */
  lemma RunThenBad(o: Options, s: State, kind: CollectionKind, k: nat, e: ParseError)
    requires k == CommentRun(s.rest) && StartsWithBad(s.rest[k..], e)
    ensures NextEntryOf(o, s, kind) == Err(Reported(e))
  {
    hide RawComments;
    hide Texts;
  }

  // ----- Keys, values and items -----

  /** The same node in front of `b`; or `b` is come to. */
  ghost predicate Alike(b: seq<Item>, other: seq<Item>, p: Parsed, q: Parsed) {
    p.st.rest == b || (q.node == p.node && Cut(p.st, q.st, b, other))
  }

  lemma AttachEntryCut(
    o: Options, p: Parsed, q: Parsed, c: Option<EntryComments>, b: seq<Item>, other: seq<Item>)
    requires Alike(b, other, p, q)
    ensures Alike(b, other, AttachEntryComments(o, p.st, p.node, c), AttachEntryComments(o, q.st, q.node, c))
  {
    hide SplitComments;
    hide AttachLeading;
    if p.st.rest != b {
      CutIsAlike(p.st, q.st, b, other);
      hide Cut;
      var r, r' := AttachEntryComments(o, p.st, p.node, c), AttachEntryComments(o, q.st, q.node, c);
      CutOtherwise(p.st, q.st, b, other, r.st, r'.st);
    }
  }

  lemma OnLineCut(
    o: Options, p: Parsed, q: Parsed, line: Option<nat>, line': Option<nat>, b: seq<Item>, e: ParseError,
    other: seq<Item>)
    requires Alike(b, other, p, q) && StartsWithBad(b, e)
    requires q.node == p.node ==> line' == line
    ensures var a, a' := AttachOnLine(o, p.st.rest, p.node, line), AttachOnLine(o, q.st.rest, q.node, line');
            Alike(b, other, Parsed(a.node, p.st.(rest := a.rest)), Parsed(a'.node, q.st.(rest := a'.rest)))
  {
    hide AttachTrailing;
    hide WithHash;
    hide Cut;
    if p.st.rest != b {
      LongerThanItsEnd(p.st, q.st, b, other);
      CutLooksAlike(p.st, q.st, b, other);
      CutDrops(p.st, q.st, b, other, 1);
      assert p.st.(rest := p.st.rest) == p.st && q.st.(rest := q.st.rest) == q.st;
    }
  }

  lemma LongerThanItsEnd(s: State, t: State, b: seq<Item>, other: seq<Item>)
    requires Cut(s, t, b, other) && s.rest != b
    ensures |s.rest| > |b|
  {
  }

  lemma FinishCut(
    o: Options, p: Parsed, q: Parsed, c: Option<EntryComments>, b: seq<Item>, e: ParseError, other: seq<Item>)
    requires Alike(b, other, p, q) && StartsWithBad(b, e)
    ensures Alike(b, other, FinishKey(o, p.st, p.node, c), FinishKey(o, q.st, q.node, c))
    ensures Alike(b, other, FinishItem(o, p.st, p.node, c), FinishItem(o, q.st, q.node, c))
    ensures Alike(b, other, FinishValue(o, p.st, p.node), FinishValue(o, q.st, q.node))
  {
    AttachEntryCut(o, p, q, c, b, other);
    var p1, q1 := AttachEntryComments(o, p.st, p.node, c), AttachEntryComments(o, q.st, q.node, c);
    hide AttachEntryComments;
    hide AttachOnLine;
    hide KeyCommentLine;
    hide CommentLine;
    hide Alike;
    OnLineCut(o, p1, q1, KeyCommentLine(o, p1.node), KeyCommentLine(o, q1.node), b, e, other);
    OnLineCut(o, p1, q1, CommentLine(o, p1.node), CommentLine(o, q1.node), b, e, other);
    OnLineCut(o, p, q, CommentLine(o, p.node), CommentLine(o, q.node), b, e, other);
  }

  lemma FinishCollectionCut(o: Options, s: State, t: State, n: Node, b: seq<Item>, e: ParseError, other: seq<Item>)
    requires Cut(s, t, b, other) && StartsWithBad(b, e)
    requires StartsWithEnd(s.rest, MappingKind) || StartsWithEnd(s.rest, SequenceKind)
    ensures NodeOutcome(e, b, other, FinishCollection(o, s, n), FinishCollection(o, t, n))
  {
    hide Cut;
    hide CompleteNode;
    hide Node.WithLoc;
    LongerThanItsEnd(s, t, b, other);
    CutLooksAlike(s, t, b, other);
    CutDrops(s, t, b, other, 1);
    CutIsAlike(s, t, b, other);
    var loc := n.loc.(end := s.rest[0].span.end);
    var s1 := s.(rest := s.rest[1..], depth := s.depth - 1);
    var t1 := t.(rest := t.rest[1..], depth := t.depth - 1);
    assert t1 == s1.(rest := t1.rest);
    CompleteLooksNowhere(o, s1, n.WithLoc(loc), loc, t1.rest);
    var r := CompleteNode(o, s1, n.WithLoc(loc), loc);
    if r.Ok? {
      CutOtherwise(s.(rest := s1.rest), t.(rest := t1.rest), b, other, r.value.st, r.value.st.(rest := t1.rest));
    }
  }

  // ----- Trees -----

  lemma {:induction false} NodeCut(o: Options, s: State, t: State, b: seq<Item>, e: ParseError, other: seq<Item>)
    requires Cut(s, t, b, other) && StartsWithBad(b, e)
    ensures NodeOutcome(e, b, other, ParseNode(o, s), ParseNode(o, t))
    decreases |s.rest|, 0
  {
    BeginCut(o, s, t, b, e, other);
    hide Cut;
    hide BeginNode;
    hide FinishCollection;
    hide StartsWithBad;
    hide ParseNode;
    NodeStep(o, s);
    NodeStep(o, t);
    var r, q := BeginNode(o, s), BeginNode(o, t);
    if r.Ok? && r.value.follow {
      if r.value.st.rest == b {
        CollectionReports(o, r.value.st, e);
      } else if r.value.node.Mapping? {
        EntriesCut(o, r.value.st, q.value.st, b, e, other);
        var es, es' := ParseEntries(o, r.value.st), ParseEntries(o, q.value.st);
        if es.Ok? {
          FinishCollectionCut(o, es.value.st, es'.value.st, r.value.node.(entries := es.value.entries), b, e, other);
        }
      } else {
        ItemsCut(o, r.value.st, q.value.st, b, e, other);
        var es, es' := ParseItems(o, r.value.st), ParseItems(o, q.value.st);
        if es.Ok? {
          FinishCollectionCut(o, es.value.st, es'.value.st, r.value.node.(items := es.value.items), b, e, other);
        }
      }
    }
  }

  lemma CollectionReports(o: Options, st: State, e: ParseError)
    requires StartsWithBad(st.rest, e)
    ensures ParseEntries(o, st) == Err(Reported(e)) && ParseItems(o, st) == Err(Reported(e))
  {
    NextReports(o, st, MappingKind, e);
    NextReports(o, st, SequenceKind, e);
    EntriesStep(o, st);
    ItemsStep(o, st);
    hide *;
  }

  lemma {:induction false} EntriesCut(o: Options, s: State, t: State, b: seq<Item>, e: ParseError, other: seq<Item>)
    requires Cut(s, t, b, other) && StartsWithBad(b, e)
    ensures EntriesOutcome(e, b, other, ParseEntries(o, s), ParseEntries(o, t))
    decreases |s.rest|, 1
  {
    hide Cut;
    hide NextEntryOf;
    hide ParseEntries;
    hide ParseAfterKey;
    hide FinishKey;
    hide StartsWithBad;
    NextEntryCut(o, s, t, MappingKind, b, e, other);
    EntriesStep(o, s);
    EntriesStep(o, t);
    ParseEntriesSteps(o, s);
    ParseEntriesSteps(o, t);
    var a, a' := NextEntryOf(o, s, MappingKind), NextEntryOf(o, t, MappingKind);
    if a.Ok? && a.value.entry.More? {
      hide ParseNode;
      NodeCut(o, a.value.st, a'.value.st, b, e, other);
      var k, k' := ParseNode(o, a.value.st), ParseNode(o, a'.value.st);
      if k.Ok? {
        var key := FinishKey(o, k.value.st, k.value.node, a.value.entry.comments);
        if k'.Err? {
          FinishAtBad(o, k.value, a.value.entry.comments, e);
          AfterKeyReports(o, key, e);
        } else {
          FinishCut(o, k.value, k'.value, a.value.entry.comments, b, e, other);
          var key' := FinishKey(o, k'.value.st, k'.value.node, a.value.entry.comments);
          AfterKeyCut(o, key, key', b, e, other);
        }
      }
    }
  }

  /** At `b` nothing is read to finish a node. */
  lemma FinishAtBad(o: Options, p: Parsed, c: Option<EntryComments>, e: ParseError)
    requires StartsWithBad(p.st.rest, e)
    ensures FinishKey(o, p.st, p.node, c).st.rest == p.st.rest
    ensures FinishItem(o, p.st, p.node, c).st.rest == p.st.rest
    ensures FinishValue(o, p.st, p.node).st.rest == p.st.rest
  {
    hide SplitComments;
    hide AttachLeading;
  }

  lemma AfterKeyReports(o: Options, key: Parsed, e: ParseError)
    requires StartsWithBad(key.st.rest, e)
    ensures ParseAfterKey(o, key) == Err(Reported(e))
  {
    NodeReports(o, key.st, e);
    hide ParseNode;
  }

  lemma AfterItemReports(o: Options, item: Parsed, e: ParseError)
    requires StartsWithBad(item.st.rest, e)
    ensures ParseAfterItem(o, item) == Err(Reported(e))
  {
    CollectionReports(o, item.st, e);
    hide ParseItems;
  }

  lemma {:induction false} AfterKeyCut(
    o: Options, key: Parsed, key': Parsed, b: seq<Item>, e: ParseError, other: seq<Item>)
    requires Alike(b, other, key, key') && StartsWithBad(b, e)
    ensures EntriesOutcome(e, b, other, ParseAfterKey(o, key), ParseAfterKey(o, key'))
    decreases |key.st.rest|, 2
  {
    hide Cut;
    hide StartsWithBad;
    if key.st.rest == b {
      AfterKeyReports(o, key, e);
    } else {
      hide FinishValue;
      NodeCut(o, key.st, key'.st, b, e, other);
      var v, v' := ParseNode(o, key.st), ParseNode(o, key'.st);
      hide ParseNode;
      if v.Ok? {
        var value := FinishValue(o, v.value.st, v.value.node);
        if v.value.st.rest == b {
          FinishAtBad(o, v.value, None, e);
          CollectionReports(o, value.st, e);
        } else {
          FinishCut(o, v.value, v'.value, None, b, e, other);
          var value' := FinishValue(o, v'.value.st, v'.value.node);
          if value.st.rest == b {
            CollectionReports(o, value.st, e);
          } else {
            EntriesCut(o, value.st, value'.st, b, e, other);
          }
        }
      }
    }
  }

  lemma {:induction false} AfterItemCut(
    o: Options, item: Parsed, item': Parsed, b: seq<Item>, e: ParseError, other: seq<Item>)
    requires Alike(b, other, item, item') && StartsWithBad(b, e)
    ensures ItemsOutcome(e, b, other, ParseAfterItem(o, item), ParseAfterItem(o, item'))
    decreases |item.st.rest|, 2
  {
    hide Cut;
    hide StartsWithBad;
    if item.st.rest == b {
      AfterItemReports(o, item, e);
    } else {
      ItemsCut(o, item.st, item'.st, b, e, other);
      hide ParseItems;
    }
  }

  lemma {:induction false} ItemsCut(o: Options, s: State, t: State, b: seq<Item>, e: ParseError, other: seq<Item>)
    requires Cut(s, t, b, other) && StartsWithBad(b, e)
    ensures ItemsOutcome(e, b, other, ParseItems(o, s), ParseItems(o, t))
    decreases |s.rest|, 1
  {
    hide Cut;
    hide NextEntryOf;
    hide ParseItems;
    hide ParseAfterItem;
    hide FinishItem;
    hide StartsWithBad;
    NextEntryCut(o, s, t, SequenceKind, b, e, other);
    ItemsStep(o, s);
    ItemsStep(o, t);
    ParseItemsSteps(o, s);
    ParseItemsSteps(o, t);
    var a, a' := NextEntryOf(o, s, SequenceKind), NextEntryOf(o, t, SequenceKind);
    if a.Ok? && a.value.entry.More? {
      hide ParseNode;
      NodeCut(o, a.value.st, a'.value.st, b, e, other);
      var i, i' := ParseNode(o, a.value.st), ParseNode(o, a'.value.st);
      if i.Ok? {
        var item := FinishItem(o, i.value.st, i.value.node, a.value.entry.comments);
        if i'.Err? {
          FinishAtBad(o, i.value, a.value.entry.comments, e);
          AfterItemReports(o, item, e);
        } else {
          FinishCut(o, i.value, i'.value, a.value.entry.comments, b, e, other);
          var item' := FinishItem(o, i'.value.st, i'.value.node, a.value.entry.comments);
          AfterItemCut(o, item, item', b, e, other);
        }
      }
    }
  }

  // ----- Documents -----

  lemma {:induction false} RootCut(o: Options, s: State, t: State, b: seq<Item>, e: ParseError, other: seq<Item>)
    requires Cut(s, t, b, other) && StartsWithBad(b, e)
    ensures NodeOutcome(e, b, other, ParseRoot(o, s), ParseRoot(o, t))
    ensures s.rest == b ==> ParseRoot(o, s) == Err(Reported(e))
  {
    hide ParseNode;
    hide ApplySchema;
    NodeCut(o, s, t, b, e, other);
    if s.rest == b {
      NodeReports(o, s, e);
    } else {
      LongerThanItsEnd(s, t, b, other);
      CutLooksAlike(s, t, b, other);
      hide Cut;
    }
  }

  ghost predicate DocumentOutcome(
    e: ParseError, b: seq<Item>, other: seq<Item>, r: LoadResult<LoadedDocument>, q: LoadResult<LoadedDocument>)
  {
    if r.Err? then r.error == Reported(e) || q == r
    else
      r.value.st.rest == b || (q.Ok? && q.value.document == r.value.document && Cut(r.value.st, q.value.st, b, other))
  }

  /** At the parse error, a document ends without an error. */
  lemma EndAtBad(
    o: Options, p: Parsed, start: Event, outside: seq<string>, comments: seq<string>, b: seq<Item>, e: ParseError)
    requires start.DocumentStart? && StartsWithBad(b, e)
    requires var root := FinishValue(o, p.st, p.node); root.st.rest[CommentRun(root.st.rest)..] == b
    ensures var r := EndDocument(o, p, start, outside, comments); r.Ok? && r.value.st.rest == b
  {
    hide FinishValue;
    hide CommentRun;
    hide RawComments;
    hide Texts;
  }

  /** The comments in front and the event behind them decide how a document ends. */
  lemma EndLooksAlike(
    o: Options, p: Parsed, q: Parsed, start: Event, outside: seq<string>, comments: seq<string>, k: nat)
    requires start.DocumentStart?
    requires var a, a' := FinishValue(o, p.st, p.node), FinishValue(o, q.st, q.node);
             && a.node == a'.node && a'.st == a.st.(rest := a'.st.rest)
             && k == CommentRun(a.st.rest) == CommentRun(a'.st.rest)
             && k < |a.st.rest| && k < |a'.st.rest| && a.st.rest[..k] == a'.st.rest[..k]
             && a.st.rest[k] == a'.st.rest[k] && a.st.rest[k].Good?
    ensures var a, a' := FinishValue(o, p.st, p.node), FinishValue(o, q.st, q.node);
            var r, r' := EndDocument(o, p, start, outside, comments), EndDocument(o, q, start, outside, comments);
            if r.Err? then r' == r
            else
              && r'.Ok? && r'.value.document == r.value.document
              && var j := if a.st.rest[k].event.DocumentEnd? then k + 1 else k;
                 r.value.st.rest == a.st.rest[j..] && r'.value.st == r.value.st.(rest := a'.st.rest[j..])
  {
    hide FinishValue;
    hide CommentRun;
    hide RawComments;
    hide Texts;
    var a, a' := FinishValue(o, p.st, p.node), FinishValue(o, q.st, q.node);
    assert a.st.rest[k..][0] == a.st.rest[k] && a'.st.rest[k..][0] == a.st.rest[k];
    assert a.st.rest[k..][1..] == a.st.rest[k + 1..] && a'.st.rest[k..][1..] == a'.st.rest[k + 1..];
  }

  lemma EndCut(
    o: Options, p: Parsed, q: Parsed, start: Event, outside: seq<string>, comments: seq<string>, b: seq<Item>,
    e: ParseError, other: seq<Item>)
    requires start.DocumentStart? && Alike(b, other, p, q) && StartsWithBad(b, e)
    ensures DocumentOutcome(e, b, other, EndDocument(o, p, start, outside, comments),
                            EndDocument(o, q, start, outside, comments))
  {
    FinishCut(o, p, q, None, b, e, other);
    hide EndDocument;
    hide FinishValue;
    hide CommentRun;
    var a, a' := FinishValue(o, p.st, p.node), FinishValue(o, q.st, q.node);
    if a.st.rest == b {
      NoRunAtBad(b, e);
      EndAtBad(o, p, start, outside, comments, b, e);
    } else {
      var k := CommentRun(a.st.rest);
      CutRuns(a.st, a'.st, b, e, other);
      if k == |a.st.rest| - |b| {
        EndAtBad(o, p, start, outside, comments, b, e);
      } else {
        EndInFront(o, p, q, start, outside, comments, b, other, k);
      }
    }
  }

  lemma NoRunAtBad(b: seq<Item>, e: ParseError)
    requires StartsWithBad(b, e)
    ensures CommentRun(b) == 0 && b[0..] == b
  {
  }

  lemma EndInFront(
    o: Options, p: Parsed, q: Parsed, start: Event, outside: seq<string>, comments: seq<string>, b: seq<Item>,
    other: seq<Item>, k: nat)
    requires start.DocumentStart?
    requires var a, a' := FinishValue(o, p.st, p.node), FinishValue(o, q.st, q.node);
             && a.node == a'.node && Cut(a.st, a'.st, b, other)
             && k == CommentRun(a.st.rest) == CommentRun(a'.st.rest) && k < |a.st.rest| - |b|
    ensures var r, r' := EndDocument(o, p, start, outside, comments), EndDocument(o, q, start, outside, comments);
            if r.Err? then r' == r
            else r'.Ok? && r'.value.document == r.value.document && Cut(r.value.st, r'.value.st, b, other)
  {
    hide EndDocument;
    hide FinishValue;
    hide CommentRun;
    hide Cut;
    var a, a' := FinishValue(o, p.st, p.node), FinishValue(o, q.st, q.node);
    CutDrops(a.st, a'.st, b, other, k);
    CutDrops(a.st, a'.st, b, other, k + 1);
    CutIsAlike(a.st, a'.st, b, other);
    CutLooksAlike(a.st.(rest := a.st.rest[k..]), a'.st.(rest := a'.st.rest[k..]), b, other);
    EndLooksAlike(o, p, q, start, outside, comments, k);
    var r := EndDocument(o, p, start, outside, comments);
    var r' := EndDocument(o, q, start, outside, comments);
    if r.Ok? {
      var j := if a.st.rest[k].event.DocumentEnd? then k + 1 else k;
      CutOtherwise(
        a.st.(rest := a.st.rest[j..]), a'.st.(rest := a'.st.rest[j..]), b, other, r.value.st, r'.value.st);
    }
  }

  lemma {:induction false} DocumentCut(
    o: Options, s: State, t: State, start: Event, outside: seq<string>, b: seq<Item>, e: ParseError,
    other: seq<Item>)
    requires Cut(s, t, b, other) && StartsWithBad(b, e) && start.DocumentStart?
    ensures DocumentOutcome(e, b, other, LoadDocument(o, s, start, outside), LoadDocument(o, t, start, outside))
  {
    hide ParseRoot;
    hide EndDocument;
    hide CommentRun;
    hide RawComments;
    hide Texts;
    hide Cut;
    var k := CommentRun(s.rest);
    CutRuns(s, t, b, e, other);
    var s1, t1 := Reset(s).(rest := s.rest[k..]), Reset(t).(rest := t.rest[CommentRun(t.rest)..]);
    if k == |s.rest| - |b| {
      RootAtBad(o, s1, e);
    } else {
      CutDrops(s, t, b, other, k);
      CutIsAlike(s, t, b, other);
      CutOtherwise(s.(rest := s.rest[k..]), t.(rest := t.rest[k..]), b, other, s1, t1);
      RootCut(o, s1, t1, b, e, other);
      var p, q := ParseRoot(o, s1), ParseRoot(o, t1);
      if p.Ok? {
        var comments := Texts(RawComments(s.rest[..k]));
        if p.value.st.rest == b {
          FinishAtBad(o, p.value, None, e);
          NoRunAtBad(b, e);
          EndAtBad(o, p.value, start, outside, comments, b, e);
        } else {
          EndCut(o, p.value, q.value, start, outside, comments, b, e, other);
        }
      }
    }
  }

  lemma RootAtBad(o: Options, st: State, e: ParseError)
    requires StartsWithBad(st.rest, e)
    ensures ParseRoot(o, st) == Err(Reported(e))
  {
    NodeReports(o, st, e);
    hide ParseNode;
  }

  ghost predicate DocumentsOutcome(
    e: ParseError, b: seq<Item>, other: seq<Item>, r: LoadResult<Loaded>, q: LoadResult<Loaded>)
  {
    if r.Err? then r.error == Reported(e) || q == r
    else
      && q.Ok? && q.value.documents == r.value.documents && q.value.outside == r.value.outside
      && Cut(r.value.st, q.value.st, b, other)
  }

  lemma {:induction false} DocumentsCut(
    o: Options, s: State, t: State, outside: seq<string>, b: seq<Item>, e: ParseError, other: seq<Item>)
    requires Cut(s, t, b, other) && StartsWithBad(b, e)
    ensures DocumentsOutcome(e, b, other, LoadDocuments(o, s, outside), LoadDocuments(o, t, outside))
    decreases |s.rest|
  {
    hide LoadDocument;
    if s.rest != b {
      LongerThanItsEnd(s, t, b, other);
      CutLooksAlike(s, t, b, other);
      CutDrops(s, t, b, other, 1);
      hide Cut;
      hide StartsWithBad;
      var event := s.rest[0].event;
      var s1, t1 := s.(rest := s.rest[1..]), t.(rest := t.rest[1..]);
      if event.DocumentStart? {
        DocumentCut(o, s1, t1, event, outside, b, e, other);
        var d, d' := LoadDocument(o, s1, event, outside), LoadDocument(o, t1, event, outside);
        if d.Ok? {
          if d.value.st.rest == b {
            DocumentsReport(o, d.value.st, e);
          } else {
            DocumentsCut(o, d.value.st, d'.value.st, [], b, e, other);
          }
        }
      } else if event.Comment? {
        DocumentsCut(o, s1, t1, outside + [WithHash(event.text)], b, e, other);
      } else if !event.StreamEnd? && !IsNodeEvent(event) {
        DocumentsCut(o, s1, t1, outside, b, e, other);
      }
    }
  }

  lemma DocumentsReport(o: Options, st: State, e: ParseError)
    requires StartsWithBad(st.rest, e)
    ensures LoadDocuments(o, st, []) == Err(Reported(e))
  {
  }

  /** The same error, or the same documents. */
  ghost predicate SameOutcome(r: LoadResult<Loaded>, q: LoadResult<Loaded>) {
    if r.Err? then q == r else q.Ok? && q.value.documents == r.value.documents
  }

  /** A stream end stands among the items. */
  predicate HasStreamEnd(items: seq<Item>) {
    exists i :: 0 <= i < |items| && items[i].Good? && items[i].event.StreamEnd?
  }

  lemma RunCut(o: Options, front: seq<Item>, e: ParseError, rest: seq<Item>, other: seq<Item>)
    requires AllGood(front) && front != []
    ensures var r, q := Run(o, front + [Bad(e)] + rest), Run(o, front + other);
            r == Err(Reported(e)) || (SameOutcome(r, q) && (r.Ok? ==> |r.value.st.rest| > |rest|))
  {
    hide LoadDocuments;
    var b := [Bad(e)] + rest;
    assert front + [Bad(e)] + rest == front + b;
    assert (front + b)[1..] == front[1..] + b && (front + other)[1..] == front[1..] + other;
    var s := InitialState(front[1..] + b);
    CutBegins(s, front[1..], b, other);
    DocumentsCut(o, s, InitialState(front[1..] + other), [], b, e, other);
  }

  /**
   For every stream with a parse error in it: the load reports that error, with
   its position and kind; or the outcome was decided in front of the error, and
   is the same error or the same documents whatever stands in its place.  If it
   was documents, the stream had ended before.
   */
  lemma RunReportsTheError(o: Options, front: seq<Item>, e: ParseError, rest: seq<Item>)
    requires AllGood(front)
    ensures var r := Run(o, front + [Bad(e)] + rest);
            || r == Err(Parse(e.pos, e.kind))
            || ((forall other :: SameOutcome(r, Run(o, front + other))) && (r.Ok? ==> HasStreamEnd(front)))
  {
    hide Run;
    var stream := front + [Bad(e)] + rest;
    var r := Run(o, stream);
    if front == [] {
      assert stream[0] == Bad(e);
      FirstItemFails(o, stream);
    } else if r != Err(Reported(e)) {
      forall other ensures SameOutcome(r, Run(o, front + other)) {
        RunCut(o, front, e, rest, other);
      }
      if r.Ok? {
        RunCut(o, front, e, rest, []);
        RunStopsAtTheEnd(o, stream);
        var i := |stream| - |r.value.st.rest| - 1;
        assert stream[i] == front[i];
      }
    }
  }

  lemma FirstItemFails(o: Options, stream: seq<Item>)
    requires stream != [] && stream[0].Bad?
    ensures Run(o, stream) == Err(Reported(stream[0].error))
  {
  }
}
