/**
 A run of one account, from nothing, after which a live page has lost its pictures: it was deleted, pruned
 of its references, and brought back by a push of the page alone.
 */
module Histories {
  import opened Outcomes
  import opened Tables
  import opened Changes
  import opened Notebooks
  import opened Engine
  import opened PushPull
  import opened BlobTables
  import opened AccountRuns
  import opened References
  import opened Sending

  /** A state some run of one account reaches, its clients sending documents under their pages' ids. */
  ghost predicate Reached(core: Core) {
    exists ops :: (forall op :: op in ops ==> SendsDocumentsByPage(op)) && After(FRESH_ACCOUNT, ops) == core
  }

  lemma FreshIsReached()
    ensures Reached(FRESH_ACCOUNT)
  {
    var ops: seq<Op> := [];
    assert After(FRESH_ACCOUNT, ops) == FRESH_ACCOUNT;
  }

  lemma ReachedByOneMore(core: Core, op: Op)
    requires Reached(core) && SendsDocumentsByPage(op)
    ensures Reached(Perform(core, op))
  {
    hide SendsDocumentsByPage, Perform;
    var ops :| (forall other :: other in ops ==> SendsDocumentsByPage(other)) && After(FRESH_ACCOUNT, ops) == core;
    assert (ops + [op])[..|ops|] == ops;
    assert After(FRESH_ACCOUNT, ops + [op]) == Perform(core, op);
    assert forall other :: other in ops + [op] ==> SendsDocumentsByPage(other);
  }

  lemma {:induction false} RawsAreSent(changes: seq<Change>)
    ensures forall raw :: raw in RawsOf(changes) ==> exists change :: change in changes && raw == RawOf(change)
  {
    if changes != [] {
      RawsAreSent(changes[..|changes| - 1]);
      assert changes[|changes| - 1] in changes;
    }
  }

  lemma SentByPage(changes: seq<Change>, writer: string)
    requires forall change :: change in changes ==>
               Sendable(change) && (change.fields.ContentFields? ==> change.fields.pageId == change.key.id)
    ensures SendsDocumentsByPage(Pushed(RawsOf(changes), writer))
  {
    RawsAreSent(changes);
    hide RawsOf;
  }

  // ------------------------------------------------------------------ a revived page

  const PAGE := Key(Page, "p")

  function PageSent(baseVersion: nat, deletedAt: Option<int>): Change {
    Sent(PAGE, baseVersion, deletedAt, ChildFields("", "s"))
  }

  /** The new page after it was deleted, and after it was brought back. */
  function TurnedPage(digest: Digest, version: nat, seqValue: nat, deletedAt: Option<int>): Rows {
    NewPageRows(1, digest, 4)[PAGE := RowOf(version, seqValue, deletedAt, ChildFields("", "s"))]
  }

  function WithPage(store: Store, version: nat, seqValue: nat, deletedAt: Option<int>): Store {
    Store(store.rows[PAGE := RowOf(version, seqValue, deletedAt, ChildFields("", "s"))], store.refs)
  }

  lemma PagePushed(core: Core, baseVersion: nat, deletedAt: Option<int>)
    requires Reached(core) && core.purges == map[]
    requires PAGE in core.store.rows && core.store.rows[PAGE].version == baseVersion
    requires ShelfOf(Some(core.store.rows[PAGE])).closedAt.None? && Key(Section, "s") in core.store.rows
    ensures Reached(core.(counter := core.counter + 1,
                          store := WithPage(core.store, baseVersion + 1, core.counter + 1, deletedAt)))
  {
    PlainIds();
    var change := PageSent(baseVersion, deletedAt);
    SentByPage([change], "phone");
    SentIsTaken(core, core.store, PAGE, baseVersion, deletedAt, ChildFields("", "s"));
    hide Takes, RawsOf, Perform, Reached;
    ASentChangeIsCommitted(core, change, "phone", WithPage(core.store, baseVersion + 1, core.counter + 1, deletedAt));
    ReachedByOneMore(core, Pushed(RawsOf([change]), "phone"));
  }

  lemma NewPageHolds(seqValue: nat, digest: Digest)
    ensures NewPageRows(seqValue, digest, 4) ==
            map[Key(Notebook, "n") := RowOf(1, seqValue, None, PLAIN),
                Key(Section, "s") := RowOf(1, seqValue, None, ChildFields("", "n")),
                PAGE := RowOf(1, seqValue, None, ChildFields("", "s")),
                Key(PageContent, "p") := RowOf(1, seqValue, None, ContentFields("", "p", [digest]))]
  {
    assert NewPageRows(seqValue, digest, 1) == map[Key(Notebook, "n") := RowOf(1, seqValue, None, PLAIN)];
    assert NewPageRows(seqValue, digest, 3) ==
           NewPageRows(seqValue, digest, 2)[PAGE := RowOf(1, seqValue, None, ChildFields("", "s"))];
  }

  lemma APageIsStored(digest: Digest)
    ensures Reached(Core(1, NewPageStore(1, digest), map[], map[digest := 3]))
  {
    FreshIsReached();
    ReachedByOneMore(FRESH_ACCOUNT, Uploaded(digest, 3));
    var uploaded := Core(0, Store(map[], {}), map[], map[digest := 3]);
    assert Perform(FRESH_ACCOUNT, Uploaded(digest, 3)) == uploaded;
    NewPageIsSendable(digest);
    SentByPage(NewPage(digest), "phone");
    hide Reached, RawsOf, Sendable, Perform, NewPageRows;
    NewPageIsCommitted(uploaded, digest);
    ReachedByOneMore(uploaded, Pushed(RawsOf(NewPage(digest)), "phone"));
  }

  /** A page and its picture, stored, then deleted, then pruned of its references. */
  lemma APageIsPruned(digest: Digest)
    ensures Reached(Core(2, Store(TurnedPage(digest, 2, 2, Some(0)), {}), map[], map[digest := 3]))
  {
    APageIsStored(digest);
    NewPageHolds(1, digest);
    hide Reached, NewPageRows;
    var stored := Core(1, NewPageStore(1, digest), map[], map[digest := 3]);
    PagePushed(stored, 1, Some(0));
    var deleted := Core(2, Store(TurnedPage(digest, 2, 2, Some(0)), {PageRef("p", digest)}), map[], map[digest := 3]);
    ReachedByOneMore(deleted, ReferencesPruned);
    assert Beside(deleted, ReferencesPruned).store.refs == {};
  }

  lemma APageIsRevived(digest: Digest)
    ensures Reached(Core(3, Store(TurnedPage(digest, 3, 3, None), {}), map[], map[digest := 3]))
  {
    APageIsPruned(digest);
    NewPageHolds(1, digest);
    hide Reached, NewPageRows;
    var pruned := Core(2, Store(TurnedPage(digest, 2, 2, Some(0)), {}), map[], map[digest := 3]);
    PagePushed(pruned, 2, None);
    assert WithPage(pruned.store, 3, 3, None).rows == TurnedPage(digest, 3, 3, None);
  }

  lemma ARevivedPageShows(digest: Digest)
    ensures var rows := TurnedPage(digest, 3, 3, None);
            LivePage(rows, "p") && DocumentNames(rows, "p", digest)
  {
    NewPageHolds(1, digest);
    hide NewPageRows;
  }

  /**
   Pruning parts a page from its references for good if it is brought back by a push of the page alone:
   a run in which every document is sent under its page's id ends with the page live, its document
   naming a picture, and the picture's claim swept.
   */
  lemma ARevivedPageLosesItsPictures(digest: Digest)
    ensures exists core ::
              && Reached(core) && LivePage(core.store.rows, "p") && DocumentNames(core.store.rows, "p", digest)
              && digest !in core.blobs
  {
    APageIsRevived(digest);
    ARevivedPageShows(digest);
    hide Reached, TurnedPage, DocumentNames, LivePage;
    var revived := Core(3, Store(TurnedPage(digest, 3, 3, None), {}), map[], map[digest := 3]);
    ReachedByOneMore(revived, Swept(digest));
    assert Perform(revived, Swept(digest)).blobs == map[];
    assert Perform(revived, Swept(digest)).store == revived.store;
  }
}
