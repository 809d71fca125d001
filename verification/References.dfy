/**
 A live page's references against its document, over pushes, prunes and erasures. They agree for as long
 as no push brings back a page whose references were pruned without sending its document along.
 */
module References {
  import opened Outcomes
  import opened Tables
  import opened Changes
  import opened Engine
  import opened PushLaws
  import opened PushPull
  import opened Admin
  import opened BlobTables
  import opened AccountRuns

  /** The reference rows of one page are what its stored, live document names. */
  ghost predicate PageMatches(store: Store, pageId: string) {
    forall digest :: PageRef(pageId, digest) in store.refs <==> DocumentNames(store.rows, pageId, digest)
  }

  ghost predicate Shaped(rows: Rows) {
    forall key :: key in rows ==> FieldsFit(key.kind, rows[key].fields) && IdIsPage(key, rows[key].fields)
  }

  /** Every live page's references are what its document names. Deleted pages' may be anything. */
  ghost predicate LiveRefsFollow(store: Store) {
    Shaped(store.rows) && forall pageId :: LivePage(store.rows, pageId) ==> PageMatches(store, pageId)
  }

  // ------------------------------------------------------------------ one statement

  /** The prune touches no live page. */
  lemma PruningKeepsLiveReferences(ledger: Ledger)
    ensures LiveRefsFollow(Pruned(ledger).store) <==> LiveRefsFollow(ledger.store)
  {
    var before, after := ledger.store, Pruned(ledger).store;
    forall pageId | LivePage(before.rows, pageId)
      ensures PageMatches(after, pageId) <==> PageMatches(before, pageId)
    {
      assert forall digest :: PageRef(pageId, digest) in after.refs <==> PageRef(pageId, digest) in before.refs;
    }
    hide PageMatches;
  }

  ghost predicate RevivesBare(store: Store, write: PendingWrite) {
    write.key.kind.Page? && write.deletedAt.None? && !PageMatches(store, write.key.id)
  }

  lemma OneWriteAndOnePage(store: Store, write: PendingWrite, seqValue: nat, pageId: string)
    requires FieldsFit(write.key.kind, write.fields) && IdIsPage(write.key, write.fields)
    requires WriteOne(store, write, seqValue).Ok?
    ensures var after := WriteOne(store, write, seqValue).value;
            && (write.key == Key(PageContent, pageId) ==> PageMatches(after, pageId))
            && (write.key != Key(PageContent, pageId) ==>
                  && (forall digest :: PageRef(pageId, digest) in after.refs <==> PageRef(pageId, digest) in store.refs)
                  && (PageMatches(after, pageId) <==> PageMatches(store, pageId)))
            && (LivePage(after.rows, pageId) <==>
                  if write.key == Key(Page, pageId) then write.deletedAt.None? else LivePage(store.rows, pageId))
  {
    hide PageTaken;
    var after := WriteOne(store, write, seqValue).value;
    if write.key != Key(PageContent, pageId) {
      assert forall digest :: DocumentNames(after.rows, pageId, digest) <==> DocumentNames(store.rows, pageId, digest);
      assert forall digest :: PageRef(pageId, digest) in after.refs <==> PageRef(pageId, digest) in store.refs;
    }
  }

  /** A write keeps live pages' references exactly when it does not bring back a page without them. */
  lemma AWriteKeepsReferencesUnlessItRevives(store: Store, write: PendingWrite, seqValue: nat)
    requires LiveRefsFollow(store) && FieldsFit(write.key.kind, write.fields) && IdIsPage(write.key, write.fields)
    requires WriteOne(store, write, seqValue).Ok?
    ensures LiveRefsFollow(WriteOne(store, write, seqValue).value) <==> !RevivesBare(store, write)
  {
    var after := WriteOne(store, write, seqValue).value;
    OneWriteStores(store, write, seqValue);
    assert Shaped(after.rows) by { hide WriteOne, IdIsPage; }
    forall pageId
      ensures LivePage(after.rows, pageId) ==>
                (PageMatches(after, pageId) <==>
                 write.key == Key(PageContent, pageId) || PageMatches(store, pageId))
      ensures LivePage(after.rows, pageId) <==>
                if write.key == Key(Page, pageId) then write.deletedAt.None? else LivePage(store.rows, pageId)
    {
      OneWriteAndOnePage(store, write, seqValue, pageId);
    }
    hide WriteOne, PageMatches, IdIsPage, LivePage;
  }

  // ------------------------------------------------------------------ one batch

  lemma AppliedKeyGrows(changes: seq<Change>, outcomes: seq<Outcome>, outcome: Outcome, key: Key)
    requires changes != [] && |outcomes| == |changes| - 1
    ensures AppliedKey(changes, outcomes + [outcome], key) <==>
            || AppliedKey(changes[..|changes| - 1], outcomes, key)
            || (outcome.Applied? && changes[|changes| - 1].Decoded? && changes[|changes| - 1].key == key)
  {
    var n := |changes| - 1;
    if i: nat :| AppliedAt(changes, outcomes + [outcome], i, key) {
      assert i < n ==> AppliedAt(changes[..n], outcomes, i, key);
    }
    if i: nat :| AppliedAt(changes[..n], outcomes, i, key) {
      assert AppliedAt(changes, outcomes + [outcome], i, key);
    }
    if outcome.Applied? && changes[n].Decoded? && changes[n].key == key {
      assert AppliedAt(changes, outcomes + [outcome], n, key);
    }
  }

  /** A batch replaces the references of the pages whose documents it stored, and no others. */
  ghost predicate Tracked(core: Core, changes: seq<Change>, stage: Stage, pageId: string) {
    if AppliedKey(changes, stage.outcomes, Key(PageContent, pageId)) then PageMatches(stage.store, pageId)
    else forall digest :: PageRef(pageId, digest) in stage.store.refs <==> PageRef(pageId, digest) in core.store.refs
  }

  ghost predicate WellMade(changes: seq<Change>) {
    forall change :: change in changes && change.Decoded? ==>
      FieldsFit(change.key.kind, change.fields) && IdIsPage(change.key, change.fields)
  }

  lemma ARefusalTracks(core: Core, changes: seq<Change>, before: Stage, outcome: Outcome, pageId: string)
    requires changes != [] && |before.outcomes| == |changes| - 1 && outcome.Rejected?
    requires Tracked(core, changes[..|changes| - 1], before, pageId)
    ensures Tracked(core, changes, before.(outcomes := before.outcomes + [outcome]), pageId)
  {
    hide PageMatches, AppliedKey;
    AppliedKeyGrows(changes, before.outcomes, outcome, Key(PageContent, pageId));
  }

  lemma AnAcceptanceTracks(core: Core, changes: seq<Change>, before: Stage, write: PendingWrite, outcome: Outcome,
                           pageId: string)
    requires changes != [] && |before.outcomes| == |changes| - 1 && outcome.Applied?
    requires changes[|changes| - 1].Decoded? && changes[|changes| - 1].key == write.key
    requires FieldsFit(write.key.kind, write.fields) && IdIsPage(write.key, write.fields)
    requires WriteOne(before.store, write, core.counter + 1).Ok?
    requires Tracked(core, changes[..|changes| - 1], before, pageId)
    ensures Tracked(core, changes,
                    Stage(WriteOne(before.store, write, core.counter + 1).value, before.outcomes + [outcome], None),
                        pageId)
  {
    hide PageMatches, AppliedKey, WriteOne, IdIsPage;
    AppliedKeyGrows(changes, before.outcomes, outcome, Key(PageContent, pageId));
    OneWriteAndOnePage(before.store, write, core.counter + 1, pageId);
  }

  lemma OneStepTracks(core: Core, changes: seq<Change>, before: Stage, writer: string, pageId: string)
    requires changes != [] && WellMade(changes)
    requires before.failure.None? && |before.outcomes| == |changes| - 1
    requires StepOne(core, before, changes[|changes| - 1], writer).failure.None?
    requires Tracked(core, changes[..|changes| - 1], before, pageId)
    ensures Tracked(core, changes, StepOne(core, before, changes[|changes| - 1], writer), pageId)
  {
    var change := changes[|changes| - 1];
    assert change in changes;
    hide Judge, WriteOne, FactsIn, Tracked;
    var facts := FactsIn(core, before.store.rows, change);
    var verdict := Judge(change, facts, writer);
    if verdict.Accept? {
      AcceptedKeepsPlace(change, facts, writer);
      AcceptedIsFresh(core, before.store, change, writer);
      hide WellMade, IdIsPage;
      AnAcceptanceTracks(core, changes, before, verdict.write, OutcomeOf(verdict), pageId);
    } else {
      hide WellMade, IdIsPage;
      ARefusalTracks(core, changes, before, OutcomeOf(verdict), pageId);
    }
  }

  lemma {:induction false} ABatchTracksReferences(core: Core, changes: seq<Change>, writer: string, pageId: string)
    requires WellMade(changes) && Sequential(core, changes, writer).failure.None?
    ensures Tracked(core, changes, Sequential(core, changes, writer), pageId)
  {
    if changes != [] {
      var prefix := changes[..|changes| - 1];
      assert forall other :: other in prefix ==> other in changes;
      assert WellMade(prefix);
      assert Sequential(core, prefix, writer).failure.None? by { hide Judge, WriteOne, FactsIn; }
      hide StepOne, Tracked, WellMade;
      ABatchTracksReferences(core, prefix, writer, pageId);
      OneOutcomeEach(core, prefix, writer);
      OneStepTracks(core, changes, Sequential(core, prefix, writer), writer, pageId);
    }
  }

  lemma {:induction false} OneOutcomeEach(core: Core, changes: seq<Change>, writer: string)
    requires Sequential(core, changes, writer).failure.None?
    ensures |Sequential(core, changes, writer).outcomes| == |changes|
  {
    if changes != [] {
      hide Judge, WriteOne, FactsIn;
      OneOutcomeEach(core, changes[..|changes| - 1], writer);
    }
  }

  lemma {:induction false} ABatchKeepsShape(core: Core, changes: seq<Change>, writer: string)
    requires Shaped(core.store.rows) && WellMade(changes)
    ensures Shaped(Sequential(core, changes, writer).store.rows)
  {
    if changes != [] {
      var prefix, change := changes[..|changes| - 1], changes[|changes| - 1];
      LastStep(core, changes, writer);
      hide Sequential, Judge, WriteOne, FactsIn, IdIsPage;
      assert forall other :: other in prefix ==> other in changes;
      ABatchKeepsShape(core, prefix, writer);
      var before := Sequential(core, prefix, writer);
      var facts := FactsIn(core, before.store.rows, change);
      var verdict := Judge(change, facts, writer);
      if verdict.Accept? {
        AcceptedKeepsPlace(change, facts, writer);
        OneWriteStores(before.store, verdict.write, core.counter + 1);
      }
    }
  }

  /** A page the batch left live, whose references were not its document's, and whose document it did not send. */
  ghost predicate RevivedBare(core: Core, changes: seq<Change>, outcomes: seq<Outcome>, pageId: string) {
    && (exists i: nat :: AppliedAt(changes, outcomes, i, Key(Page, pageId)) && changes[i].deletedAt.None?)
    && !PageMatches(core.store, pageId) && !AppliedKey(changes, outcomes, Key(PageContent, pageId))
  }

  /** One page, before and after a batch. */
  lemma OnePageAfterABatch(core: Core, changes: seq<Change>, writer: string, pageId: string)
    requires DistinctKeys(changes) && WellMade(changes) && Sequential(core, changes, writer).failure.None?
    requires LiveRefsFollow(core.store)
    ensures var stage := Sequential(core, changes, writer);
            (LivePage(stage.store.rows, pageId) ==> PageMatches(stage.store, pageId)) <==>
            !RevivedBare(core, changes, stage.outcomes, pageId)
  {
    var stage := Sequential(core, changes, writer);
    ABatchTracksReferences(core, changes, writer, pageId);
    AnswersMatchTheStore(core, changes, writer);
    hide Sequential, DistinctKeys;
    LiveAfterABatch(core, changes, writer, stage, pageId);
    if !AppliedKey(changes, stage.outcomes, Key(PageContent, pageId)) {
      assert forall digest :: DocumentNames(stage.store.rows, pageId, digest) <==>
          DocumentNames(core.store.rows, pageId, digest);
      assert PageMatches(stage.store, pageId) <==> PageMatches(core.store, pageId);
    }
    hide PageMatches, AppliedKey, AppliedAt, AnswersMatch, WellMade, Shaped;
  }

  lemma LiveAfterABatch(core: Core, changes: seq<Change>, writer: string, stage: Stage, pageId: string)
    requires AnswersMatch(core, changes, writer, stage) && WellMade(changes)
    ensures LivePage(stage.store.rows, pageId) <==>
            if AppliedKey(changes, stage.outcomes, Key(Page, pageId))
            then exists i: nat :: AppliedAt(changes, stage.outcomes, i, Key(Page, pageId)) && changes[i].deletedAt.None?
            else LivePage(core.store.rows, pageId)
  {
    var key := Key(Page, pageId);
    if AppliedKey(changes, stage.outcomes, key) {
      forall i: nat | AppliedAt(changes, stage.outcomes, i, key)
        ensures LivePage(stage.store.rows, pageId) <==> changes[i].deletedAt.None?
      {
        assert changes[i] in changes;
        assert StoredAs(core, changes[i], writer, stage.store.rows[key]);
      }
    }
    hide StoredAs;
  }

  /** The exact condition for one batch: it revives no page bare. */
  lemma ABatchKeepsReferencesUnlessItRevives(core: Core, changes: seq<Change>, writer: string)
    requires DistinctKeys(changes) && WellMade(changes) && Sequential(core, changes, writer).failure.None?
    requires LiveRefsFollow(core.store)
    ensures var stage := Sequential(core, changes, writer);
            LiveRefsFollow(stage.store) <==> forall pageId :: !RevivedBare(core, changes, stage.outcomes, pageId)
  {
    var stage := Sequential(core, changes, writer);
    ABatchKeepsShape(core, changes, writer);
    forall pageId
      ensures (LivePage(stage.store.rows, pageId) ==> PageMatches(stage.store, pageId)) <==>
              !RevivedBare(core, changes, stage.outcomes, pageId)
    {
      OnePageAfterABatch(core, changes, writer, pageId);
    }
    hide Sequential, RevivedBare, PageMatches, Shaped, LivePage;
  }

  // ------------------------------------------------------------------ every operation, every run

  /** Clients send a document under its page's id. */
  ghost predicate SendsDocumentsByPage(op: Op) {
    op.Pushed? ==>
      forall raw :: raw in op.raws && raw.RawChange? && raw.fields.ContentFields? ==> raw.fields.pageId == raw.id
  }

  lemma {:induction false} DecodedByPage(raws: seq<RawChange>)
    requires SendsDocumentsByPage(Pushed(raws, ""))
    ensures WellMade(DecodeEach(raws))
  {
    if raws != [] {
      assert forall raw :: raw in raws[..|raws| - 1] ==> raw in raws;
      DecodedByPage(raws[..|raws| - 1]);
    }
  }

  lemma DecodeIsWellMade(raws: seq<RawChange>)
    requires SendsDocumentsByPage(Pushed(raws, ""))
    ensures WellMade(Decode(raws))
  {
    DecodedByPage(raws);
    SortByRankIsStable(DecodeEach(raws));
    forall change | change in Decode(raws) && change.Decoded?
      ensures FieldsFit(change.key.kind, change.fields) && IdIsPage(change.key, change.fields)
    {
      assert change in multiset(Decode(raws));
      assert change in DecodeEach(raws);
    }
  }

  /** The one operation that parts a live page from its references. */
  ghost predicate OpRevivesBare(core: Core, op: Op) {
    && op.Pushed? && Commit(core, op).Some?
    && exists pageId ::
         RevivedBare(core, Decode(op.raws), Sequential(core, Decode(op.raws), op.writer).outcomes, pageId)
  }

  lemma PushKeepsReferences(core: Core, raws: seq<RawChange>, writer: string)
    requires LiveRefsFollow(core.store) && SendsDocumentsByPage(Pushed(raws, writer))
    ensures LiveRefsFollow(Perform(core, Pushed(raws, writer)).store) <==> !OpRevivesBare(core, Pushed(raws, writer))
  {
    DecodeIsWellMade(raws);
    DecodeIsOrderedAndDistinct(raws);
    if Sequential(core, Decode(raws), writer).failure.None? {
      ABatchKeepsReferencesUnlessItRevives(core, Decode(raws), writer);
    }
    hide Sequential, Decode, LiveRefsFollow, RevivedBare, AppliedIn, RejectedIn, WellMade, DistinctKeys;
  }

  /** Erasing takes a page's document and references with the page. */
  lemma ErasingKeepsReferences(core: Core, devices: Devices, id: string)
    requires LiveRefsFollow(core.store) && EraseNotebook(core, devices, id).Ok?
    ensures LiveRefsFollow(EraseNotebook(core, devices, id).value.store)
  {
    var before, after := core.store, EraseNotebook(core, devices, id).value.store;
    CascadeOfOne(before.rows, NotebookKey(id));
    var gone := Cascade(before.rows, {NotebookKey(id)});
    hide Cascade, IdFault, PrunePurges;
    forall pageId | LivePage(after.rows, pageId)
      ensures PageMatches(after, pageId)
    {
      assert LivePage(before.rows, pageId) && Key(Page, pageId) !in gone;
      DocumentStaysWithItsPage(before.rows, NotebookKey(id), pageId);
      assert PageMatches(before, pageId);
      assert forall digest :: PageRef(pageId, digest) in after.refs <==> PageRef(pageId, digest) in before.refs;
      assert forall digest :: DocumentNames(after.rows, pageId, digest) <==> DocumentNames(before.rows, pageId, digest);
    }
    hide PageMatches, LivePage;
  }

  lemma DocumentStaysWithItsPage(rows: Rows, root: Key, pageId: string)
    requires Shaped(rows) && root.kind.Notebook? && !Under(rows, Key(Page, pageId), root)
    ensures !Under(rows, Key(PageContent, pageId), root)
  {
  }

  lemma UnhostingKeepsReferences(core: Core, id: string, nowMillis: int)
    requires LiveRefsFollow(core.store) && UnhostNotebook(core, id, nowMillis).Ok?
    ensures LiveRefsFollow(UnhostNotebook(core, id, nowMillis).value.store)
  {
    var before, after := core.store, UnhostNotebook(core, id, nowMillis).value.store;
    forall pageId | LivePage(after.rows, pageId)
      ensures PageMatches(after, pageId)
    {
      assert LivePage(before.rows, pageId) && PageMatches(before, pageId);
      assert forall digest :: DocumentNames(after.rows, pageId, digest) <==> DocumentNames(before.rows, pageId, digest);
    }
  }

  lemma BesideKeepsReferences(core: Core, op: Op)
    requires LiveRefsFollow(core.store) && (op.Uploaded? || op.Swept? || op.ReferencesPruned?)
    ensures LiveRefsFollow(Perform(core, op).store)
  {
    PruningKeepsLiveReferences(Ledger(core.store, map[], 0));
    hide LiveRefsFollow, Named;
  }

  /** From a state in which live pages' references follow, an operation keeps them if and only if it
      revives no page bare. */
  lemma ReferencesAreLostExactlyByReviving(core: Core, op: Op)
    requires LiveRefsFollow(core.store) && SendsDocumentsByPage(op)
    ensures LiveRefsFollow(Perform(core, op).store) <==> !OpRevivesBare(core, op)
  {
    match op {
      case Pushed(raws, writer) => hide *; PushKeepsReferences(core, raws, writer);
      case Erased(id, devices) =>
        hide LiveRefsFollow, EraseNotebook;
        if EraseNotebook(core, devices, id).Ok? { ErasingKeepsReferences(core, devices, id); }
      case Unhosted(id, nowMillis) =>
        hide LiveRefsFollow, UnhostNotebook;
        if UnhostNotebook(core, id, nowMillis).Ok? { UnhostingKeepsReferences(core, id, nowMillis); }
      case _ =>
        hide LiveRefsFollow, Perform;
        BesideKeepsReferences(core, op);
    }
  }

  ghost predicate FollowThroughout(ops: seq<Op>) {
    forall k :: 0 <= k <= |ops| ==> LiveRefsFollow(After(FRESH_ACCOUNT, ops[..k]).store)
  }

  ghost predicate RevivesNothingBare(ops: seq<Op>) {
    forall k :: 0 <= k < |ops| ==> !OpRevivesBare(After(FRESH_ACCOUNT, ops[..k]), ops[k])
  }

  lemma OneMoreOp(ops: seq<Op>, k: nat)
    requires k < |ops|
    ensures After(FRESH_ACCOUNT, ops[..k + 1]) == Perform(After(FRESH_ACCOUNT, ops[..k]), ops[k])
  {
    hide Perform;
    assert ops[..k + 1][..k] == ops[..k];
  }

  lemma {:induction false} ReferencesReach(ops: seq<Op>, k: nat)
    requires k <= |ops| && RevivesNothingBare(ops) && forall op :: op in ops ==> SendsDocumentsByPage(op)
    ensures LiveRefsFollow(After(FRESH_ACCOUNT, ops[..k]).store)
  {
    if k > 0 {
      hide LiveRefsFollow, OpRevivesBare, Perform, After, SendsDocumentsByPage;
      ReferencesReach(ops, k - 1);
      OneMoreOp(ops, k - 1);
      assert ops[k - 1] in ops;
      ReferencesAreLostExactlyByReviving(After(FRESH_ACCOUNT, ops[..k - 1]), ops[k - 1]);
    }
  }

  /**
   Over whole runs of pushes, administrator actions, uploads, sweeps and prunes: every live page's
   references are its document's throughout, if and only if no push revives a page bare.
   */
  lemma ReferencesFollowUnlessRevivedBare(ops: seq<Op>)
    requires forall op :: op in ops ==> SendsDocumentsByPage(op)
    ensures FollowThroughout(ops) <==> RevivesNothingBare(ops)
  {
    hide LiveRefsFollow, OpRevivesBare, Perform, After, SendsDocumentsByPage;
    if RevivesNothingBare(ops) {
      forall k | 0 <= k <= |ops|
        ensures LiveRefsFollow(After(FRESH_ACCOUNT, ops[..k]).store)
      {
        ReferencesReach(ops, k);
      }
    } else if FollowThroughout(ops) {
      forall k | 0 <= k < |ops|
        ensures !OpRevivesBare(After(FRESH_ACCOUNT, ops[..k]), ops[k])
      {
        OneMoreOp(ops, k);
        assert ops[k] in ops;
        ReferencesAreLostExactlyByReviving(After(FRESH_ACCOUNT, ops[..k]), ops[k]);
      }
    }
  }

  /** What following buys: no sweep takes a picture that a live page's document names. */
  lemma AFollowedPictureIsKept(core: Core, pageId: string, digest: Digest)
    requires Sound(core) && LiveRefsFollow(core.store)
    requires LivePage(core.store.rows, pageId) && DocumentNames(core.store.rows, pageId, digest)
    ensures digest in core.blobs && Reachable(core.store, digest)
    ensures digest in Perform(core, Swept(digest)).blobs
  {
    assert PageMatches(core.store, pageId);
    assert PageRef(pageId, digest) in core.store.refs;
    hide Sequenced, Retired, Fitting, Closed, PageMatches, DocumentNames;
  }
}
