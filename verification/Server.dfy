/** The open documents: their texts and the trees loaded from them. */
module DocumentStores {
  import opened Wrappers

  type Uri = string

  datatype Stored<Tree> = Stored(text: string, documents: Option<seq<Tree>>)

  /** How a text loads at a nesting limit: the documents that did load. */
  type Loader<!Tree> = (string, nat) -> seq<Tree>

  function Load<Tree>(load: Loader<Tree>, text: string, limit: nat): Stored<Tree> {
    var documents := load(text, limit);
    Stored(text, if |documents| == 0 then None else Some(documents))
  }

  /** The text with its documents; a text that does not load has none. */
  ghost predicate Holds<Tree>(load: Loader<Tree>, stored: Stored<Tree>, text: string, limit: nat) {
    && stored.text == text
    && (stored.documents == None <==> load(text, limit) == [])
    && (stored.documents.Some? ==> stored.documents.value == load(text, limit))
  }

  lemma LoadHolds<Tree>(load: Loader<Tree>, stored: Stored<Tree>, text: string, limit: nat)
    ensures stored == Load(load, text, limit) <==> Holds(load, stored, text, limit)
  {
  }

  /** Every stored text, loaded again. */
  function Reloaded<Tree>(load: Loader<Tree>, documents: map<Uri, Stored<Tree>>, limit: nat): map<Uri, Stored<Tree>> {
    map uri | uri in documents :: Load(load, documents[uri].text, limit)
  }

  /** The URI and the text of every document, each once, in any order. */
  ghost predicate Lists<Tree>(listed: seq<(Uri, string)>, documents: map<Uri, Stored<Tree>>) {
    && (forall i :: 0 <= i < |listed| ==> listed[i].0 in documents && documents[listed[i].0].text == listed[i].1)
    && (forall i, j :: 0 <= i < j < |listed| ==> listed[i].0 != listed[j].0)
    && (forall uri :: uri in documents ==> (uri, documents[uri].text) in listed)
  }

  lemma TextStays<Tree>(load: Loader<Tree>, text: string, limit: nat)
    ensures Load(load, text, limit).text == text
  {
  }

  lemma ReloadedIs<Tree>(
    load: Loader<Tree>, before: map<Uri, Stored<Tree>>, after: map<Uri, Stored<Tree>>, limit: nat)
    requires after.Keys == before.Keys
    requires forall uri :: uri in after ==> after[uri] == Load(load, before[uri].text, limit)
    ensures after == Reloaded(load, before, limit)
  {
    hide Load;
  }

  lemma NothingListed<Tree>()
    ensures Lists<Tree>([], map[])
  {
  }

  lemma OneMoreListed<Tree>(
    listed: seq<(Uri, string)>, documents: map<Uri, Stored<Tree>>, uri: Uri, stored: Stored<Tree>, text: string)
    requires Lists(listed, documents) && uri !in documents && stored.text == text
    ensures Lists(listed + [(uri, text)], documents[uri := stored])
  {
    var more := listed + [(uri, text)];
    assert more[|listed|] == (uri, text);
    assert forall x :: x in listed ==> x in more;
  }

  class DocumentStore<Tree> {
    var documents: map<Uri, Stored<Tree>>
    const load: Loader<Tree>

    constructor (load: Loader<Tree>)
      ensures documents == map[] && this.load == load
    {
      documents := map[];
      this.load := load;
    }

    method Open(uri: Uri, text: string, limit: nat)
      modifies this
      ensures documents == old(documents)[uri := Load(load, text, limit)]
      ensures Holds(load, documents[uri], text, limit)
    {
      documents := documents[uri := Load(load, text, limit)];
    }

    /** A document that is not open stays so. */
    method Change(uri: Uri, text: string, limit: nat)
      modifies this
      ensures documents == if uri in old(documents) then old(documents)[uri := Load(load, text, limit)]
              else old(documents)
      ensures uri in old(documents) ==> Holds(load, documents[uri], text, limit)
    {
      if uri in documents {
        documents := documents[uri := Load(load, text, limit)];
      }
    }

    /** One document after the other, in no particular order. */
    method ReparseAll(limit: nat) returns (listed: seq<(Uri, string)>)
      modifies this
      ensures documents == Reloaded(load, old(documents), limit)
      ensures documents.Keys == old(documents).Keys
      ensures forall uri :: uri in documents ==> Holds(load, documents[uri], old(documents)[uri].text, limit)
      ensures Lists(listed, documents)
    {
      hide Load;
      hide Holds;
      hide Lists;
      hide Reloaded;
      ghost var before := documents;
      var left := documents.Keys;
      listed := [];
      NothingListed<Tree>();
      ghost var done: map<Uri, Stored<Tree>> := map[];
      while left != {}
        invariant left <= documents.Keys == before.Keys && done.Keys == before.Keys - left
        invariant forall uri :: uri in left ==> documents[uri] == before[uri]
        invariant forall uri :: uri in done ==> documents[uri] == done[uri] == Load(load, before[uri].text, limit)
        invariant Lists(listed, done)
        decreases |left|
      {
        var uri :| uri in left;
        var text := documents[uri].text;
        documents := documents[uri := Load(load, text, limit)];
        TextStays(load, text, limit);
        OneMoreListed(listed, done, uri, Load(load, text, limit), text);
        done := done[uri := Load(load, text, limit)];
        listed := listed + [(uri, text)];
        left := left - {uri};
      }
      assert done == documents;
      ReloadedIs(load, before, documents, limit);
      forall uri | uri in documents ensures Holds(load, documents[uri], before[uri].text, limit) {
        LoadHolds(load, documents[uri], before[uri].text, limit);
      }
    }

    method Close(uri: Uri)
      modifies this
      ensures documents == old(documents) - {uri}
    {
      documents := documents - {uri};
    }

    method Get(uri: Uri) returns (text: Option<string>)
      ensures text == if uri in documents then Some(documents[uri].text) else None
    {
      text := if uri in documents then Some(documents[uri].text) else None;
    }
  }
}

/**
 The nesting limit and the trees loaded at it.  Handlers run on one thread, so
 a step is what a handler does from one await to the next.
 */
module ServerProtocol {
  import opened Wrappers
  import opened DocumentStores

  /** `pending` holds the limit of every settings update that still has to load the documents again. */
  datatype State<Tree> = State(limit: nat, documents: map<Uri, Stored<Tree>>, pending: multiset<nat>)

  datatype Action =
    | Configure(limit: nat)
    | Reparse(limit: nat)
    | DidOpen(uri: Uri, text: string)
    | DidChange(uri: Uri, changes: seq<string>)
    | DidClose(uri: Uri)

  predicate Enabled<Tree>(s: State<Tree>, a: Action) {
    a.Reparse? ==> a.limit in s.pending
  }

  /** One step of one handler. */
  function Step<Tree>(load: Loader<Tree>, s: State<Tree>, a: Action): State<Tree>
    requires Enabled(s, a)
  {
    match a
    case Configure(limit) =>
      State(limit, s.documents, if limit != s.limit then s.pending + multiset{limit} else s.pending)
    case Reparse(limit) =>
      State(s.limit, if s.limit == limit then Reloaded(load, s.documents, limit)
      else s.documents, s.pending - multiset{limit})
    case DidOpen(uri, text) => State(s.limit, s.documents[uri := Load(load, text, s.limit)], s.pending)
    case DidChange(uri, changes) =>
      if changes == [] || uri !in s.documents then s
      else State(s.limit, s.documents[uri := Load(load, changes[|changes| - 1], s.limit)], s.pending)
    case DidClose(uri) => State(s.limit, s.documents - {uri}, s.pending)
  }

  /** The handlers themselves. */
  class Server<Tree> {
    var limit: nat
    var pending: multiset<nat>
    const store: DocumentStore<Tree>

    ghost function Abstract(): State<Tree>
      reads this, store
    {
      State(limit, store.documents, pending)
    }

    constructor (load: Loader<Tree>, limit: nat)
      ensures fresh(store) && store.load == load && Abstract() == State(limit, map[], multiset{})
    {
      this.limit := limit;
      pending := multiset{};
      store := new DocumentStore<Tree>(load);
    }

    /** Replaces the settings; a changed limit has to be loaded at. */
    method StoreSettings(newLimit: nat) returns (changed: Option<nat>)
      modifies this`limit
      ensures limit == newLimit
      ensures changed == if newLimit != old(limit) then Some(newLimit) else None
    {
      var oldLimit := limit;
      limit := newLimit;
      changed := if oldLimit != newLimit then Some(newLimit) else None;
    }

    /** The first half of a settings update, up to its first await. */
    method DidChangeConfiguration(newLimit: nat)
      modifies this
      ensures Abstract() == Step(store.load, old(Abstract()), Configure(newLimit))
    {
      var changed := StoreSettings(newLimit);
      if changed.Some? {
        pending := pending + multiset{changed.value};
      }
    }

    /** The second half; what it lists is what still has to be published. */
    method ReparseOpenDocuments(newLimit: nat) returns (listed: seq<(Uri, string)>)
      requires newLimit in pending
      modifies this, store
      ensures Abstract() == Step(store.load, old(Abstract()), Reparse(newLimit))
      ensures if old(limit) == newLimit then Lists(listed, store.documents) else listed == []
    {
      pending := pending - multiset{newLimit};
      if limit != newLimit {
        return [];
      }
      listed := store.ReparseAll(newLimit);
    }

    method LoadIsCurrent(uri: Uri, text: string, atLimit: nat) returns (current: bool)
      ensures current <==> limit == atLimit && uri in store.documents && store.documents[uri].text == text
    {
      var stored := store.Get(uri);
      current := limit == atLimit && stored == Some(text);
    }

    method Opened(uri: Uri, text: string)
      modifies store
      ensures Abstract() == Step(store.load, old(Abstract()), DidOpen(uri, text))
    {
      store.Open(uri, text, limit);
    }

    method Changed(uri: Uri, changes: seq<string>)
      modifies store
      ensures Abstract() == Step(store.load, old(Abstract()), DidChange(uri, changes))
    {
      if changes != [] {
        store.Change(uri, changes[|changes| - 1], limit);
      }
    }

    method Closed(uri: Uri)
      modifies store
      ensures Abstract() == Step(store.load, old(Abstract()), DidClose(uri))
    {
      store.Close(uri);
    }
  }

  // ----- Runs -----

  /** The steps of a run, each enabled when it is taken. */
  ghost predicate IsRun<Tree>(load: Loader<Tree>, s: State<Tree>, run: seq<Action>)
    decreases run
  {
    run == [] || (Enabled(s, run[0]) && IsRun(load, Step(load, s, run[0]), run[1..]))
  }

  ghost function After<Tree>(load: Loader<Tree>, s: State<Tree>, run: seq<Action>): State<Tree>
    requires IsRun(load, s, run)
    decreases run
  {
    if run == [] then s else After(load, Step(load, s, run[0]), run[1..])
  }

  function Initial<Tree>(limit: nat): State<Tree> {
    State(limit, map[], multiset{})
  }

  /** The texts the client has open, from what it sent alone. */
  function ClientTexts(texts: map<Uri, string>, run: seq<Action>): map<Uri, string>
    decreases run
  {
    if run == [] then texts else ClientTexts(ClientStep(texts, run[0]), run[1..])
  }

  function ClientStep(texts: map<Uri, string>, a: Action): map<Uri, string> {
    match a
    case Configure(_) => texts
    case Reparse(_) => texts
    case DidOpen(uri, text) => texts[uri := text]
    case DidChange(uri, changes) =>
      if changes != [] && uri in texts then texts[uri := changes[|changes| - 1]] else texts
    case DidClose(uri) => texts - {uri}
  }

  /** The limit the client set last. */
  function ClientLimit(limit: nat, run: seq<Action>): nat
    decreases run
  {
    if run == [] then limit else ClientLimit(if run[0].Configure? then run[0].limit else limit, run[1..])
  }

  lemma {:induction false} LimitIsTheClients<Tree>(load: Loader<Tree>, s: State<Tree>, run: seq<Action>)
    requires IsRun(load, s, run)
    ensures After(load, s, run).limit == ClientLimit(s.limit, run)
    decreases run
  {
    if run != [] {
      LimitIsTheClients(load, Step(load, s, run[0]), run[1..]);
    }
  }

  function Texts<Tree>(documents: map<Uri, Stored<Tree>>): map<Uri, string> {
    map uri | uri in documents :: documents[uri].text
  }

  lemma StepKeepsTexts<Tree>(load: Loader<Tree>, s: State<Tree>, a: Action)
    requires Enabled(s, a)
    ensures Texts(Step(load, s, a).documents) == ClientStep(Texts(s.documents), a)
  {
  }

  /** Whatever interleaves, the stored texts are the ones the client last sent. */
  lemma {:induction false} TextsAreTheClients<Tree>(load: Loader<Tree>, s: State<Tree>, run: seq<Action>)
    requires IsRun(load, s, run)
    ensures Texts(After(load, s, run).documents) == ClientTexts(Texts(s.documents), run)
    decreases run
  {
    if run != [] {
      StepKeepsTexts(load, s, run[0]);
      TextsAreTheClients(load, Step(load, s, run[0]), run[1..]);
    }
  }

  /** A document whose tree is what its text loads to at the current limit. */
  ghost predicate Current<Tree>(load: Loader<Tree>, s: State<Tree>, uri: Uri)
    requires uri in s.documents
  {
    Holds(load, s.documents[uri], s.documents[uri].text, s.limit)
  }

  ghost predicate AllCurrent<Tree>(load: Loader<Tree>, s: State<Tree>) {
    forall uri :: uri in s.documents ==> Current(load, s, uri)
  }

  /** Every tree is current unless a load at the current limit is still to come. */
  ghost predicate Safe<Tree>(load: Loader<Tree>, s: State<Tree>) {
    s.limit in s.pending || AllCurrent(load, s)
  }

  lemma StepIsSafe<Tree>(load: Loader<Tree>, s: State<Tree>, a: Action)
    requires Safe(load, s) && Enabled(s, a)
    ensures Safe(load, Step(load, s, a))
  {
    forall text, limit { LoadHolds(load, Load(load, text, limit), text, limit); }
  }

  lemma {:induction false} RunIsSafe<Tree>(load: Loader<Tree>, s: State<Tree>, run: seq<Action>)
    requires IsRun(load, s, run) && Safe(load, s)
    ensures Safe(load, After(load, s, run))
    decreases run
  {
    if run != [] {
      StepIsSafe(load, s, run[0]);
      RunIsSafe(load, Step(load, s, run[0]), run[1..]);
    }
  }

  /**
   The guarantee: after every interleaving that starts with no document open,
   once no settings update is pending, every stored tree is what the text the
   client last sent loads to at the limit it last set.
   */
  lemma QuiescentIsCurrent<Tree>(load: Loader<Tree>, limit: nat, run: seq<Action>)
    requires IsRun(load, Initial(limit), run)
    ensures var end := After(load, Initial(limit), run);
            && Safe(load, end)
            && Texts(end.documents) == ClientTexts(map[], run)
            && (end.pending == multiset{} ==>
                  forall uri :: uri in end.documents ==>
                    Holds(load, end.documents[uri], ClientTexts(map[], run)[uri], ClientLimit(limit, run)))
  {
    var start: State<Tree> := Initial(limit);
    RunIsSafe(load, start, run);
    TextsAreTheClients(load, start, run);
    LimitIsTheClients(load, start, run);
    assert Texts(start.documents) == map[];
    var end := After(load, start, run);
    forall uri | uri in end.documents && end.pending == multiset{}
      ensures Holds(load, end.documents[uri], ClientTexts(map[], run)[uri], end.limit)
    {
      assert Current(load, end, uri);
      assert uri in Texts(end.documents);
      LoadHolds(load, end.documents[uri], ClientTexts(map[], run)[uri], end.limit);
    }
  }

  /** Pending loads only ever finish: run in any order, they leave everything current. */
  lemma {:induction false} DrainingSettles<Tree>(load: Loader<Tree>, s: State<Tree>, order: seq<nat>)
    requires Safe(load, s) && multiset(order) == s.pending
    ensures IsRun(load, s, Reparses(order))
    ensures var end := After(load, s, Reparses(order)); end.pending == multiset{} && AllCurrent(load, end)
    decreases order
  {
    if order == [] {
      assert Reparses(order) == [];
    } else {
      FirstPending(s, order);
      StepIsSafe(load, s, Reparse(order[0]));
      hide Safe;
      hide AllCurrent;
      ReparseIsDone(load, s, order[0]);
      hide Step;
      DrainingSettles(load, Step(load, s, Reparse(order[0])), order[1..]);
      assert Reparses(order)[0] == Reparse(order[0]);
      assert Reparses(order)[1..] == Reparses(order[1..]);
    }
  }

  lemma ReparseIsDone<Tree>(load: Loader<Tree>, s: State<Tree>, limit: nat)
    requires limit in s.pending
    ensures Step(load, s, Reparse(limit)).pending == s.pending - multiset{limit}
  {
  }

  lemma FirstPending<Tree>(s: State<Tree>, order: seq<nat>)
    requires order != [] && multiset(order) == s.pending
    ensures order[0] in s.pending
    ensures multiset(order[1..]) == s.pending - multiset{order[0]}
  {
    assert order == [order[0]] + order[1..];
  }

  function Reparses(order: seq<nat>): seq<Action> {
    seq(|order|, i requires 0 <= i < |order| => Reparse(order[i]))
  }

  /**
   The guarantee rests on reading the limit and storing the tree in one step.
   Were another handler to run in between, a document opened with the limit read
   before a settings update could be stored after that update was done, and
   nothing would load it again.
   */
  lemma SplitOpenGoesStale<Tree>(load: Loader<Tree>, uri: Uri, text: string, before: nat, after: nat)
    requires Load(load, text, before) != Load(load, text, after)
    ensures var updates := [Configure(after), Reparse(after)];
            && IsRun(load, Initial(before), updates)
            && var end := After(load, Initial(before), updates);
               var stored := State(end.limit, end.documents[uri := Load(load, text, before)], end.pending);
               stored.pending == multiset{} && !Current(load, stored, uri)
  {
    var updates := [Configure(after), Reparse(after)];
    var start: State<Tree> := Initial(before);
    assert updates[1..] == [Reparse(after)] && updates[1..][1..] == [];
    var first := Step(load, start, updates[0]);
    assert IsRun(load, first, updates[1..]) by {
      assert IsRun(load, Step(load, first, Reparse(after)), []);
    }
    var end := Step(load, first, Reparse(after));
    assert After(load, start, updates) == After(load, first, updates[1..]) == end;
  }
}

/** The slot for the fetched schema catalog: concurrent misses all fetch, the first to finish wins. */
module CatalogSlot {
  import opened Wrappers

  /** What is fetched; only whether two catalogs are the same matters. */
  type Catalog = string

  /** `waiting` are the callers that missed and are fetching; `answers` what callers got. */
  datatype State = State(slot: Option<Catalog>, waiting: set<nat>, answers: map<nat, Option<Catalog>>)

  datatype Action =
    | Ask(caller: nat)
    | Fetched(caller: nat, catalog: Option<Catalog>)

  predicate Enabled(s: State, a: Action) {
    match a
    case Ask(caller) => caller !in s.waiting && caller !in s.answers
    case Fetched(caller, _) => caller in s.waiting
  }

  function Step(s: State, a: Action): State
    requires Enabled(s, a)
  {
    match a
    case Ask(caller) =>
      if s.slot.Some? then State(s.slot, s.waiting, s.answers[caller := s.slot])
      else State(None, s.waiting + {caller}, s.answers)
    case Fetched(caller, catalog) =>
      if catalog.None? then State(s.slot, s.waiting - {caller}, s.answers[caller := None])
      else
        var slot := if s.slot.Some? then s.slot else catalog;
        State(slot, s.waiting - {caller}, s.answers[caller := slot])
  }

  ghost predicate IsRun(s: State, run: seq<Action>)
    decreases run
  {
    run == [] || (Enabled(s, run[0]) && IsRun(Step(s, run[0]), run[1..]))
  }

  ghost function After(s: State, run: seq<Action>): State
    requires IsRun(s, run)
    decreases run
  {
    if run == [] then s else After(Step(s, run[0]), run[1..])
  }

  /** Every caller that got a catalog got the one in the slot, and no caller waits any more once answered. */
  ghost predicate Shared(s: State) {
    && (forall caller :: caller in s.answers && s.answers[caller].Some? ==> s.answers[caller] == s.slot)
    && s.waiting !! s.answers.Keys
  }

  /**
   A caller that asks a filled slot gets what is in it at once; one that asks an
   empty slot waits, and what it fetches goes into the slot if that is still
   empty.  Nobody else's answer is touched.
   */
  lemma StepAnswers(s: State, a: Action)
    requires Enabled(s, a)
    ensures var next := Step(s, a);
            match a
            case Ask(caller) =>
              && next.slot == s.slot
              && (if s.slot.Some? then next.waiting == s.waiting && Answered(s, next, caller, s.slot)
                  else next.waiting == s.waiting + {caller} && next.answers == s.answers)
            case Fetched(caller, catalog) =>
              && next.waiting == s.waiting - {caller}
              && next.slot == (if s.slot.None? then catalog else s.slot)
              && Answered(s, next, caller, if catalog.None? then None else next.slot)
  {
  }

  ghost predicate Answered(s: State, next: State, caller: nat, answer: Option<Catalog>) {
    && next.answers.Keys == s.answers.Keys + {caller} && next.answers[caller] == answer
    && forall other :: other in s.answers && other != caller ==> next.answers[other] == s.answers[other]
  }

  /** Once filled the slot never changes, so all callers share one catalog. */
  lemma {:induction false} OneCatalogForAll(s: State, run: seq<Action>)
    requires IsRun(s, run) && Shared(s)
    ensures Shared(After(s, run))
    ensures s.slot.Some? ==> After(s, run).slot == s.slot
    ensures forall caller :: caller in s.answers ==>
              caller in After(s, run).answers && After(s, run).answers[caller] == s.answers[caller]
    ensures s.slot.Some? && run != [] && run[0].Ask? ==>
              run[0].caller in After(s, run).answers && After(s, run).answers[run[0].caller] == s.slot
    decreases run
  {
    if run != [] {
      OneCatalogForAll(Step(s, run[0]), run[1..]);
    }
  }
}
