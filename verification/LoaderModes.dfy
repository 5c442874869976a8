/** Comments in the two loading modes: the same comments, not always in the same places. */
module LoaderModes {
  import opened Wrappers
  import opened Events
  import opened Ast
  import opened LoaderSpec
  import opened LoaderComments
  import opened LoaderResolved

  /** Whenever a stream loads in both modes, the documents hold the same comments, each as often. */
  lemma {:induction false} ModesHoldTheSameComments(o: Options, stream: seq<Item>)
    requires o.mode.Resolved? && stream != []
    ensures var l, r := Run(o.(mode := Lossless), stream), Run(o, stream);
            l.Ok? && r.Ok? ==>
              |l.value.documents| == |r.value.documents| && HeldBy(l.value.documents) == HeldBy(r.value.documents)
  {
    hide *;
    var lo := o.(mode := Lossless);
    ModesReadAlike(o, stream);
    RunAccountsForComments(lo, stream);
    RunAccountsForComments(o, stream);
    EmptyHoldsNothing();
    var l, r := Run(lo, stream), Run(o, stream);
    if l.Ok? && r.Ok? && |l.value.documents| > 0 {
      var all, first := multiset(CommentTexts(stream)), multiset(CommentTexts(stream[..1]));
      assert all == HeldBy(l.value.documents) + first + multiset(CommentTexts(l.value.st.rest)) + multiset{};
      assert all == HeldBy(r.value.documents) + first + multiset(CommentTexts(r.value.st.rest)) + multiset{};
      SameRemainder(HeldBy(l.value.documents), HeldBy(r.value.documents),
                    multiset(CommentTexts(stream[..1])), multiset(CommentTexts(l.value.st.rest)));
    }
  }

  /** Both modes find as many documents and leave the same events unread. */
  lemma ModesReadAlike(o: Options, stream: seq<Item>)
    requires o.mode.Resolved?
    ensures var l, r := Run(o.(mode := Lossless), stream), Run(o, stream);
            l.Ok? && r.Ok? ==> |l.value.documents| == |r.value.documents| && l.value.st.rest == r.value.st.rest
  {
    hide Run;
    hide SameDocument;
    ResolvedRefinesLossless(o, stream);
  }

  lemma SameRemainder(a: multiset<string>, b: multiset<string>, first: multiset<string>, unread: multiset<string>)
    requires a + first + unread + multiset{} == b + first + unread + multiset{}
    ensures a == b
  {
    assert a == a + first + unread + multiset{} - first - unread;
    assert b == b + first + unread + multiset{} - first - unread;
  }
}
