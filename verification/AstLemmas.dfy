/** What copying without comments and attaching comments do to a tree. */
module AstLemmas {
  import opened Wrappers
  import opened Events
  import opened Ast

  function TagLoc(n: Node): Option<Span> {
    if n.Alias? || n.meta.None? then None else n.meta.value.tagLoc
  }

  predicate SameProperties(n: Node, m: Node) {
    n.Anchor() == m.Anchor() && n.AnchorLoc() == m.AnchorLoc() && TagLoc(n) == TagLoc(m)
  }

  /** The same tree, whatever comments are on its nodes. */
  predicate SameTree(n: Node, m: Node) {
    && n.loc == m.loc && SameProperties(n, m)
    && match n
       case Scalar(value, style, tag, _, _) => m.Scalar? && m.value == value && m.style == style && m.tag == tag
       case Mapping(entries, style, tag, _, _) =>
         m.Mapping? && m.collectionStyle == style && m.tag == tag && SameEntries(entries, m.entries)
       case Sequence(items, style, tag, _, _) =>
         m.Sequence? && m.collectionStyle == style && m.tag == tag && SameItems(items, m.items)
       case Alias(name, _, _, _) => m.Alias? && m.name == name
  }

  predicate SameEntries(es: seq<Entry>, fs: seq<Entry>) {
    if es == [] then fs == []
    else
      assert es[0].key < es[0];
      fs != [] && SameTree(es[0].key, fs[0].key) && SameTree(es[0].value, fs[0].value) && SameEntries(es[1..], fs[1..])
  }

  predicate SameItems(xs: seq<Node>, ys: seq<Node>) {
    if xs == [] then ys == [] else ys != [] && SameTree(xs[0], ys[0]) && SameItems(xs[1..], ys[1..])
  }

  lemma CloneHasNoOwnComments(n: Node)
    ensures CloneWithoutComments(n).OwnComments() == multiset{}
  {
  }

  lemma {:induction false} CloneIsBare(n: Node)
    ensures Comments(CloneWithoutComments(n)) == multiset{}
    ensures AliasFree(CloneWithoutComments(n)) == AliasFree(n)
    ensures NodeCount(CloneWithoutComments(n)) == NodeCount(n)
    ensures CloneWithoutComments(CloneWithoutComments(n)) == CloneWithoutComments(n)
  {
    CloneHasNoOwnComments(n);
    match n
    case Mapping(entries, _, _, _, _) => CloneKeepsEntries(entries);
    case Sequence(items, _, _, _, _) => CloneKeepsItems(items);
    case _ =>
  }

  lemma {:induction false} CloneKeepsEntries(entries: seq<Entry>)
    ensures EntriesComments(CloneEntries(entries)) == multiset{}
    ensures EntriesAliasFree(CloneEntries(entries)) == EntriesAliasFree(entries)
    ensures EntriesCount(CloneEntries(entries)) == EntriesCount(entries)
    ensures CloneEntries(CloneEntries(entries)) == CloneEntries(entries)
  {
    if entries != [] {
      assert entries[0].key < entries[0];
      CloneIsBare(entries[0].key);
      CloneIsBare(entries[0].value);
      CloneKeepsEntries(entries[1..]);
      assert CloneEntries(entries)[1..] == CloneEntries(entries[1..]);
    }
  }

  lemma {:induction false} CloneKeepsItems(items: seq<Node>)
    ensures ItemsComments(CloneItems(items)) == multiset{}
    ensures ItemsAliasFree(CloneItems(items)) == ItemsAliasFree(items)
    ensures ItemsCount(CloneItems(items)) == ItemsCount(items)
    ensures CloneItems(CloneItems(items)) == CloneItems(items)
  {
    if items != [] {
      CloneIsBare(items[0]);
      CloneKeepsItems(items[1..]);
      assert CloneItems(items)[1..] == CloneItems(items[1..]);
    }
  }

  /** Two trees are the same but for comments if and only if their copies are equal. */
  lemma {:induction false} SameTreeIsSameClone(n: Node, m: Node)
    ensures SameTree(n, m) <==> CloneWithoutComments(n) == CloneWithoutComments(m)
    decreases n
  {
    SamePropertiesIsSameMeta(n, m);
    hide SameProperties;
    hide MetaWithoutComments;
    if n.Mapping? && m.Mapping? {
      SameEntriesIsSameClone(n.entries, m.entries);
    } else if n.Sequence? && m.Sequence? {
      SameItemsIsSameClone(n.items, m.items);
    }
  }

  lemma SamePropertiesIsSameMeta(n: Node, m: Node)
    ensures n.Alias? && m.Alias? ==> SameProperties(n, m)
    ensures !n.Alias? && !m.Alias? ==>
              (SameProperties(n, m) <==> MetaWithoutComments(n.meta) == MetaWithoutComments(m.meta))
  {
  }

  lemma {:induction false} SameEntriesIsSameClone(es: seq<Entry>, fs: seq<Entry>)
    ensures SameEntries(es, fs) <==> CloneEntries(es) == CloneEntries(fs)
    decreases es
  {
    hide CloneWithoutComments;
    hide SameTree;
    if es != [] && fs != [] {
      assert es[0].key < es[0];
      SameTreeIsSameClone(es[0].key, fs[0].key);
      SameTreeIsSameClone(es[0].value, fs[0].value);
      SameEntriesIsSameClone(es[1..], fs[1..]);
      var e := Entry(CloneWithoutComments(es[0].key), CloneWithoutComments(es[0].value));
      var f := Entry(CloneWithoutComments(fs[0].key), CloneWithoutComments(fs[0].value));
      SameHead(e, CloneEntries(es[1..]), f, CloneEntries(fs[1..]));
    }
  }

  lemma {:induction false} SameItemsIsSameClone(xs: seq<Node>, ys: seq<Node>)
    ensures SameItems(xs, ys) <==> CloneItems(xs) == CloneItems(ys)
    decreases xs
  {
    hide CloneWithoutComments;
    hide SameTree;
    if xs != [] && ys != [] {
      SameTreeIsSameClone(xs[0], ys[0]);
      SameItemsIsSameClone(xs[1..], ys[1..]);
      SameHead(CloneWithoutComments(xs[0]), CloneItems(xs[1..]), CloneWithoutComments(ys[0]), CloneItems(ys[1..]));
    }
  }

  lemma SameHead<T>(x: T, xs: seq<T>, y: T, ys: seq<T>)
    ensures [x] + xs == [y] + ys <==> x == y && xs == ys
  {
    if [x] + xs == [y] + ys {
      assert ([x] + xs)[0] == x && ([y] + ys)[0] == y;
      assert ([x] + xs)[1..] == xs && ([y] + ys)[1..] == ys;
    }
  }

  /** The copy has no comments; apart from them it is the same tree. */
  lemma {:induction false} CloneKeepsTheTree(n: Node)
    ensures SameTree(n, CloneWithoutComments(n))
    ensures Comments(CloneWithoutComments(n)) == multiset{}
    ensures AliasFree(CloneWithoutComments(n)) == AliasFree(n)
    ensures NodeCount(CloneWithoutComments(n)) == NodeCount(n)
    ensures CloneWithoutComments(CloneWithoutComments(n)) == CloneWithoutComments(n)
  {
    hide *;
    CloneIsBare(n);
    SameTreeIsSameClone(n, CloneWithoutComments(n));
  }

  /** A node without leading comments gains exactly those attached to it. */
  lemma AttachLeadingAddsComments(n: Node, comments: seq<string>)
    requires n.LeadingComments() == []
    ensures Comments(AttachLeading(n, comments)) == Comments(n) + multiset(comments)
    ensures AttachLeading(n, comments).TrailingComment() == n.TrailingComment()
  {
  }

  /** A node without a trailing comment gains exactly the one attached to it. */
  lemma AttachTrailingAddsComment(n: Node, comment: string)
    requires n.TrailingComment() == None
    ensures Comments(AttachTrailing(n, comment)) == Comments(n) + multiset{comment}
  {
  }

  /** Attaching comments changes nothing else. */
  lemma AttachKeepsTheRest(n: Node, comments: seq<string>, comment: string)
    ensures CloneWithoutComments(AttachLeading(n, comments)) == CloneWithoutComments(n)
    ensures CloneWithoutComments(AttachTrailing(n, comment)) == CloneWithoutComments(n)
  {
  }

  lemma CloneKeepsAnchor(n: Node)
    ensures CloneWithoutComments(n).Anchor() == n.Anchor()
    ensures CloneWithoutComments(n).AnchorLoc() == n.AnchorLoc()
    ensures CloneWithoutComments(n).loc == n.loc
  {
  }
}
