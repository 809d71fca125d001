/**
 A batch as a client makes it: changes written out, in apply order, each entity once. It is read as it
 was written, and applied change by change when each finds what it needs.
 */
module Sending {
  import opened Outcomes
  import opened Tables
  import opened Changes
  import opened Notebooks
  import opened Engine
  import opened PushPull
  import opened AccountRuns

  /** A change some raw change is read as. */
  predicate Sendable(change: Change) {
    && change.Decoded? && IdFault(change.key.id).None? && FieldsFit(change.key.kind, change.fields)
    && (change.key.kind.Attachment? ==> ValidDigest(change.key.id))
    && change.required ==
       match change.key.kind
       case Attachment => [change.key.id]
       case PageContent => change.fields.blobRefs
       case _ => []
  }

  function RawOf(change: Change): RawChange {
    if change.Refused? then Unreadable
    else
      RawChange(KindName(change.key.kind), change.key.id, change.baseVersion, change.deletedAt, change.updatedAt,
                change.fields, None)
  }

  function RawsOf(changes: seq<Change>): (raws: seq<RawChange>)
    ensures |raws| == |changes|
  {
    if changes == [] then []
    else RawsOf(changes[..|changes| - 1]) + [RawOf(changes[|changes| - 1])]
  }

  lemma ASentChangeIsRead(change: Change)
    requires Sendable(change)
    ensures Addressed(RawOf(change)) == Ok(change.key)
    ensures DecodeFields(RawOf(change), change.key) == change
  {
    assert KindByName(KindName(change.key.kind)) == Some(change.key.kind);
  }

  lemma RawsOneMore(changes: seq<Change>)
    requires changes != []
    ensures var n := |changes| - 1;
            RawsOf(changes)[..n] == RawsOf(changes[..n]) && RawsOf(changes)[n] == RawOf(changes[n])
  {
    hide RawOf;
  }

  lemma ReadOneMore(raws: seq<RawChange>)
    requires raws != []
    ensures var n := |raws| - 1;
            DecodeEach(raws) == DecodeEach(raws[..n]) + [DecodeOne(raws[n], Seen(raws[..n]))]
  {
    hide DecodeOne, Seen;
  }

  /** The loop that reads a batch has seen no entity that was not sent. */
  lemma {:induction false} OnlyTheSentIsSeen(changes: seq<Change>, key: Key)
    requires forall change :: change in changes ==> Sendable(change)
    requires key in Seen(RawsOf(changes))
    ensures exists i :: 0 <= i < |changes| && changes[i].Decoded? && changes[i].key == key
  {
    if changes != [] {
      var n := |changes| - 1;
      RawsOneMore(changes);
      assert changes[n] in changes;
      ASentChangeIsRead(changes[n]);
      hide Sendable, Addressed, RawsOf, RawOf;
      if key in Seen(RawsOf(changes[..n])) {
        assert forall change :: change in changes[..n] ==> change in changes;
        OnlyTheSentIsSeen(changes[..n], key);
        var i :| 0 <= i < n && changes[..n][i].Decoded? && changes[..n][i].key == key;
        assert changes[i].key == key;
      } else {
        assert changes[n].key == key;
      }
    }
  }

  lemma TheLastIsNew(changes: seq<Change>)
    requires changes != [] && DistinctKeys(changes) && forall change :: change in changes ==> Sendable(change)
    ensures changes[|changes| - 1].Decoded? && changes[|changes| - 1].key !in Seen(RawsOf(changes[..|changes| - 1]))
  {
    var n := |changes| - 1;
    assert changes[n] in changes;
    assert changes[n].Decoded?;
    hide Seen, RawsOf, Sendable;
    if changes[n].key in Seen(RawsOf(changes[..n])) {
      assert forall change :: change in changes[..n] ==> change in changes;
      OnlyTheSentIsSeen(changes[..n], changes[n].key);
      var i :| 0 <= i < n && changes[..n][i].Decoded? && changes[..n][i].key == changes[n].key;
      assert false;
    }
  }

  lemma ANewChangeIsReadAsSent(change: Change, seen: set<Key>)
    requires Sendable(change) && change.key !in seen
    ensures DecodeOne(RawOf(change), seen) == change
  {
    ASentChangeIsRead(change);
    hide Sendable, Addressed, DecodeFields, RawOf;
  }

  lemma {:induction false} EachIsReadAsSent(changes: seq<Change>)
    requires DistinctKeys(changes) && forall change :: change in changes ==> Sendable(change)
    ensures DecodeEach(RawsOf(changes)) == changes
  {
    if changes != [] {
      var n := |changes| - 1;
      TheLastIsNew(changes);
      assert changes[n] in changes && DistinctKeys(changes[..n]);
      assert forall change :: change in changes[..n] ==> change in changes;
      hide *;
      EachIsReadAsSent(changes[..n]);
      ANewChangeIsReadAsSent(changes[n], Seen(RawsOf(changes[..n])));
      RawsOneMore(changes);
      ReadOneMore(RawsOf(changes));
      assert changes == changes[..n] + [changes[n]];
    }
  }

  lemma {:induction false} SortingLeavesOrder(changes: seq<Change>)
    requires RankOrdered(changes)
    ensures SortByRank(changes) == changes
  {
    if changes != [] {
      SortingLeavesOrder(changes[..|changes| - 1]);
      assert changes == changes[..|changes| - 1] + [changes[|changes| - 1]];
    }
  }

  /** A batch written in apply order, each entity once, is read back as it was written. */
  lemma ASentBatchIsReadAsSent(changes: seq<Change>)
    requires DistinctKeys(changes) && RankOrdered(changes)
    requires forall change :: change in changes ==> Sendable(change)
    ensures Decode(RawsOf(changes)) == changes
  {
    hide Sendable, RawsOf, DecodeEach, SortByRank;
    EachIsReadAsSent(changes);
    SortingLeavesOrder(changes);
  }

  /** One accepted change takes one store to the next. */
  ghost predicate Takes(core: Core, before: Store, change: Change, writer: string, after: Store) {
    var verdict := Judge(change, FactsIn(core, before.rows, change), writer);
    verdict.Accept? && WriteOne(before, verdict.write, core.counter + 1) == Ok(after)
  }

  ghost predicate TakesEach(core: Core, stores: seq<Store>, changes: seq<Change>, writer: string) {
    && |stores| == |changes| + 1 && stores[0] == core.store
    && forall i :: 0 <= i < |changes| ==> Takes(core, stores[i], changes[i], writer, stores[i + 1])
  }

  lemma {:induction false} AcceptedOneByOne(core: Core, stores: seq<Store>, changes: seq<Change>, writer: string)
    requires TakesEach(core, stores, changes, writer)
    ensures var stage := Sequential(core, changes, writer);
            && stage.failure.None? && stage.store == stores[|changes|] && |stage.outcomes| == |changes|
            && forall i :: 0 <= i < |changes| ==> stage.outcomes[i].Applied?
  {
    if changes != [] {
      var n := |changes| - 1;
      AcceptedOneByOne(core, stores[..n + 1], changes[..n], writer);
      assert Takes(core, stores[n], changes[n], writer, stores[n + 1]);
      hide Judge, WriteOne, FactsIn;
    }
  }

  /** A sent batch whose changes are each accepted is committed, all of it, under the next sequence value. */
  lemma ASentBatchIsCommitted(core: Core, stores: seq<Store>, changes: seq<Change>, writer: string)
    requires DistinctKeys(changes) && RankOrdered(changes) && changes != []
    requires forall change :: change in changes ==> Sendable(change)
    requires TakesEach(core, stores, changes, writer)
    ensures Perform(core, Pushed(RawsOf(changes), writer)) ==
            core.(counter := core.counter + 1, store := stores[|changes|])
  {
    ASentBatchIsReadAsSent(changes);
    AcceptedOneByOne(core, stores, changes, writer);
    assert Sequential(core, changes, writer).outcomes[0].Applied?;
    hide Sequential, Decode, RawsOf, TakesEach, Sendable, DistinctKeys, Perform;
    AppliedBatchesCommit(core, RawsOf(changes), writer);
  }

  lemma AppliedBatchesCommit(core: Core, raws: seq<RawChange>, writer: string)
    requires var stage := Sequential(core, Decode(raws), writer);
             stage.failure.None? && exists i :: 0 <= i < |stage.outcomes| && stage.outcomes[i].Applied?
    ensures Perform(core, Pushed(raws, writer)) ==
            core.(counter := core.counter + 1, store := Sequential(core, Decode(raws), writer).store)
  {
    SomethingApplied(Sequential(core, Decode(raws), writer).outcomes);
    hide Sequential, Decode, AppliedIn, RejectedIn;
  }

  /** One change on its own. */
  lemma ASentChangeIsCommitted(core: Core, change: Change, writer: string, after: Store)
    requires Sendable(change) && Takes(core, core.store, change, writer, after)
    ensures Perform(core, Pushed(RawsOf([change]), writer)) == core.(counter := core.counter + 1, store := after)
  {
    hide Sendable, Takes, Perform;
    var stores := [core.store, after];
    assert stores[1] == after;
    ASentBatchIsCommitted(core, stores, [change], writer);
  }

  // ------------------------------------------------------------------ what clients send

  const PLAIN := NotebookFields("", None, None)

  /** A new version of an entity that names no attachment. */
  function Sent(key: Key, baseVersion: nat, deletedAt: Option<int>, fields: Fields): Change {
    Decoded(key, baseVersion, deletedAt, 0, fields, [])
  }

  function SentDocument(pageId: string, digest: Digest): Change {
    Decoded(Key(PageContent, pageId), 0, None, 0, ContentFields("", pageId, [digest]), [digest])
  }

  /** The row a change leaves, written by one device. */
  function RowOf(version: nat, seqValue: nat, deletedAt: Option<int>, fields: Fields): Row {
    Row(version, seqValue, deletedAt, 0, Some("phone"), fields)
  }

  /** A notebook, a section, a page and its document, all new. */
  function NewPage(digest: Digest): seq<Change> {
    [Sent(Key(Notebook, "n"), 0, None, PLAIN), Sent(Key(Section, "s"), 0, None, ChildFields("", "n")),
     Sent(Key(Page, "p"), 0, None, ChildFields("", "s")), SentDocument("p", digest)]
  }

  function NewPageRows(seqValue: nat, digest: Digest, count: nat): Rows {
    if count == 0 then map[]
    else if count == 1 then map[Key(Notebook, "n") := RowOf(1, seqValue, None, PLAIN)]
    else if count == 2 then NewPageRows(seqValue, digest, 1)[Key(Section, "s") :=
                                                             RowOf(1, seqValue, None, ChildFields("", "n"))]
    else if count == 3 then NewPageRows(seqValue, digest, 2)[Key(Page, "p") :=
                                                             RowOf(1, seqValue, None, ChildFields("", "s"))]
    else NewPageRows(seqValue, digest, 3)[Key(PageContent, "p") :=
                                          RowOf(1, seqValue, None, ContentFields("", "p", [digest]))]
  }

  function NewPageStore(seqValue: nat, digest: Digest): Store {
    Store(NewPageRows(seqValue, digest, 4), {PageRef("p", digest)})
  }

  lemma PlainIds()
    ensures IdFault("n").None? && IdFault("s").None? && IdFault("p").None? && IdFault("m").None? && IdFault("k").None?
  {
    assert '\0' !in "n" && '\0' !in "s" && '\0' !in "p" && '\0' !in "m" && '\0' !in "k";
  }

  lemma NewPageIsSendable(digest: Digest)
    ensures forall change :: change in NewPage(digest) ==> Sendable(change)
    ensures DistinctKeys(NewPage(digest)) && RankOrdered(NewPage(digest))
  {
    PlainIds();
  }

  /** A change that names no attachment goes in when its parent is stored, its version is the stored one and
      its id is not retired; a deletion of a notebook that is not closed stands. */
  lemma SentIsTaken(core: Core, store: Store, key: Key, baseVersion: nat, deletedAt: Option<int>, fields: Fields)
    requires FieldsFit(key.kind, fields) && !key.kind.PageContent? && key !in core.purges
    requires ParentOf(key.kind, fields).Some? ==> ParentOf(key.kind, fields).value in store.rows
    requires BaseOf(if key in store.rows then Some(store.rows[key]) else None) == baseVersion
    requires key in store.rows ==> ShelfOf(Some(store.rows[key])).closedAt.None?
    requires fields.NotebookFields? ==> fields.closedAt.None?
    ensures Takes(core, store, Sent(key, baseVersion, deletedAt, fields), "phone",
                  Store(store.rows[key := RowOf(baseVersion + 1, core.counter + 1, deletedAt, fields)], store.refs))
  {
  }

  lemma DocumentIsTaken(core: Core, store: Store, pageId: string, digest: Digest)
    requires Key(Page, pageId) in store.rows && digest in core.blobs && Key(PageContent, pageId) !in core.purges
    requires forall key :: key in store.rows ==> !key.kind.PageContent?
    requires store.refs == {}
    ensures Takes(core, store, SentDocument(pageId, digest), "phone",
                  Store(store.rows[Key(PageContent, pageId) :=
                          RowOf(1, core.counter + 1, None, ContentFields("", pageId, [digest]))],
                        {PageRef(pageId, digest)}))
  {
    var change := SentDocument(pageId, digest);
    var verdict := Judge(change, FactsIn(core, store.rows, change), "phone");
    assert verdict.Accept? && verdict.write.fields.blobRefs == [digest];
    assert RefsAfter(store.refs, verdict.write) == {PageRef(pageId, digest)};
  }

  lemma NewPageIsTaken(core: Core, digest: Digest)
    requires core.store == Store(map[], {}) && core.purges == map[] && digest in core.blobs
    ensures var seqValue := core.counter + 1;
            && Takes(core, Store(map[], {}), NewPage(digest)[0], "phone", Store(NewPageRows(seqValue, digest, 1), {}))
            && Takes(core, Store(NewPageRows(seqValue, digest, 1), {}), NewPage(digest)[1], "phone",
                     Store(NewPageRows(seqValue, digest, 2), {}))
            && Takes(core, Store(NewPageRows(seqValue, digest, 2), {}), NewPage(digest)[2], "phone",
                     Store(NewPageRows(seqValue, digest, 3), {}))
            && Takes(core, Store(NewPageRows(seqValue, digest, 3), {}), NewPage(digest)[3], "phone",
                     NewPageStore(seqValue, digest))
  {
    hide Takes;
    var seqValue := core.counter + 1;
    var empty: Rows := map[];
    assert empty[Key(Notebook, "n") := RowOf(1, seqValue, None, PLAIN)] == NewPageRows(seqValue, digest, 1);
    SentIsTaken(core, Store(map[], {}), Key(Notebook, "n"), 0, None, PLAIN);
    SentIsTaken(core, Store(NewPageRows(seqValue, digest, 1), {}), Key(Section, "s"), 0, None, ChildFields("", "n"));
    SentIsTaken(core, Store(NewPageRows(seqValue, digest, 2), {}), Key(Page, "p"), 0, None, ChildFields("", "s"));
    DocumentIsTaken(core, Store(NewPageRows(seqValue, digest, 3), {}), "p", digest);
  }

  /** Pushed onto an empty account that holds the picture, it is stored with its reference. */
  lemma NewPageIsCommitted(core: Core, digest: Digest)
    requires core.store == Store(map[], {}) && core.purges == map[] && digest in core.blobs
    ensures Perform(core, Pushed(RawsOf(NewPage(digest)), "phone")) ==
            core.(counter := core.counter + 1, store := NewPageStore(core.counter + 1, digest))
  {
    var seqValue := core.counter + 1;
    var stores := [Store(map[], {}), Store(NewPageRows(seqValue, digest, 1), {}),
                   Store(NewPageRows(seqValue, digest, 2), {}),
                   Store(NewPageRows(seqValue, digest, 3), {}), NewPageStore(seqValue, digest)];
    NewPageIsSendable(digest);
    NewPageIsTaken(core, digest);
    hide Takes, Sendable, NewPageRows, NewPageStore, Perform, DistinctKeys, RankOrdered;
    assert TakesEach(core, stores, NewPage(digest), "phone");
    ASentBatchIsCommitted(core, stores, NewPage(digest), "phone");
  }
}
