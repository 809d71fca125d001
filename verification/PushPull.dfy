/**
 What a push answers, against what is stored afterwards and what the next pull shows: applied changes are
 exactly what another device receives, nobody's write is silently overwritten, and a page's references
 are its document's.
 */
module PushPull {
  import opened Outcomes
  import opened Tables
  import opened Changes
  import opened Notebooks
  import opened Engine
  import opened PushLaws
  import opened BatchAnswers
  import opened Delta

  // ------------------------------------------------------------------ when a change is accepted

  /** The version a change has to name: what is stored, or nothing at all. */
  function BaseOf(current: Option<Row>): nat {
    if current.Some? then current.value.version else 0
  }

  /** Every digest it needs is held, and an attachment's own at the length it says; a deletion needs none. */
  predicate AttachmentsHeld(change: Change, facts: Facts)
    requires change.Decoded?
  {
    change.deletedAt.None? ==>
      && (forall digest :: digest in change.required ==> digest in facts.held)
      && (change.required != [] && change.fields.AttachmentFields? && change.key.id in facts.held ==>
            facts.held[change.key.id] == change.fields.byteCount)
  }

  /**
   Optimistic concurrency, exactly: a change goes in if and only if its parent is there, its attachments
   are held at their size, its id is not retired and it was made against the stored version. A conflict
   hands back the stored row, and a retired id is never reported as a conflict.
   */
  lemma AcceptanceIsExact(change: Change, facts: Facts, writer: string)
    requires change.Decoded?
    ensures var verdict := Judge(change, facts, writer);
            && (verdict.Accept? <==>
                  && (ParentKind(change.key.kind).Some? ==> facts.parentStored)
                  && AttachmentsHeld(change, facts) && !facts.retired
                  && BaseOf(facts.current) == change.baseVersion)
            && (verdict.Reject? && verdict.rejection.reason.VersionConflict? ==>
                  verdict.rejection.current == facts.current && !facts.retired &&
                      BaseOf(facts.current) != change.baseVersion)
            && (verdict.Reject? && !verdict.rejection.reason.VersionConflict? ==> verdict.rejection.current == None)
            && (verdict.Reject? && verdict.rejection.reason.MissingBlob? ==> change.deletedAt.None?)
            && (facts.retired && (ParentKind(change.key.kind).Some? ==> facts.parentStored) &&
                AttachmentsHeld(change, facts) ==>
                  verdict.Reject? && verdict.rejection.reason.Purged?)
  {
  }

  // ------------------------------------------------------------------ what an applied change leaves stored

  /** A tombstone of a notebook that is stored live and that either side calls closed. */
  ghost predicate IsKeptBack(before: Option<Row>, change: Change)
    requires change.Decoded?
  {
    && change.deletedAt.Some? && change.fields.NotebookFields?
    && before.Some? && before.value.deletedAt.None? && before.value.fields.NotebookFields?
    && (change.fields.closedAt.Some? || before.value.fields.closedAt.Some?)
  }

  /** The row an applied change is stored as: as sent, or retained when a tombstone met a shelved notebook. */
  ghost predicate StoredAs(core: Core, change: Change, writer: string, row: Row)
    requires change.Decoded?
  {
    var before := if change.key in core.store.rows then Some(core.store.rows[change.key]) else None;
    && row.version == change.baseVersion + 1 && row.changeSeq == core.counter + 1
    && row.writer == Some(writer) && row.updatedAt == change.updatedAt
    && if IsKeptBack(before, change) then
         var sent, stored := change.fields, before.value.fields;
         && row.deletedAt == None && row.fields.NotebookFields? && row.fields.body == sent.body
         && row.fields.closedAt == (if sent.closedAt.Some? then sent.closedAt else stored.closedAt)
         && row.fields.cloudOnlyAt == (if sent.cloudOnlyAt.Some? then sent.cloudOnlyAt
                                       else if stored.cloudOnlyAt.Some? then stored.cloudOnlyAt
                                       else change.deletedAt)
       else row.deletedAt == change.deletedAt && row.fields == change.fields
  }

  ghost predicate AppliedAt(changes: seq<Change>, outcomes: seq<Outcome>, i: nat, key: Key) {
    i < |changes| && i < |outcomes| && changes[i].Decoded? && changes[i].key == key && outcomes[i].Applied?
  }

  ghost predicate AppliedKey(changes: seq<Change>, outcomes: seq<Outcome>, key: Key) {
    exists i :: AppliedAt(changes, outcomes, i, key)
  }

  /** Row by row: what was answered applied is stored as it was sent, and nothing else moved. */
  ghost predicate AnswersMatch(core: Core, changes: seq<Change>, writer: string, stage: Stage) {
    && |stage.outcomes| == |changes|
    && (forall i: nat, key :: AppliedAt(changes, stage.outcomes, i, key) ==>
          key in stage.store.rows && StoredAs(core, changes[i], writer, stage.store.rows[key]))
    && (forall key :: !AppliedKey(changes, stage.outcomes, key) ==>
          && (key in stage.store.rows <==> key in core.store.rows)
          && (key in stage.store.rows ==> stage.store.rows[key] == core.store.rows[key]))
  }

  /** The last change, judged on facts that for its own entity are the batch's first facts. */
  lemma LastIsStored(core: Core, store: Store, change: Change, writer: string)
    requires change.Decoded?
    requires (change.key in store.rows <==> change.key in core.store.rows)
    requires change.key in store.rows ==> store.rows[change.key] == core.store.rows[change.key]
    ensures var verdict := Judge(change, FactsIn(core, store.rows, change), writer);
            verdict.Accept? ==>
              verdict.write.key == change.key && StoredAs(core, change, writer, Stamp(verdict.write, core.counter + 1))
  {
  }

  lemma RejectingKeepsMatch(core: Core, changes: seq<Change>, writer: string, before: Stage, outcome: Outcome)
    requires changes != [] && AnswersMatch(core, changes[..|changes| - 1], writer, before) && outcome.Rejected?
    ensures AnswersMatch(core, changes, writer, before.(outcomes := before.outcomes + [outcome]))
  {
    hide StoredAs;
    var prefix, outcomes := changes[..|changes| - 1], before.outcomes + [outcome];
    forall i: nat, key
      ensures AppliedAt(changes, outcomes, i, key) <==> AppliedAt(prefix, before.outcomes, i, key)
    {
    }
    forall key
      ensures AppliedKey(changes, outcomes, key) <==> AppliedKey(prefix, before.outcomes, key)
    {
      if i: nat :| AppliedAt(changes, outcomes, i, key) {
        assert AppliedAt(prefix, before.outcomes, i, key);
      }
      if i: nat :| AppliedAt(prefix, before.outcomes, i, key) {
        assert AppliedAt(changes, outcomes, i, key);
      }
    }
    hide AppliedAt, AppliedKey;
  }

  lemma ApplyingKeepsMatch(core: Core, changes: seq<Change>, writer: string, before: Stage, after: Stage)
    requires changes != [] && DistinctKeys(changes) && AnswersMatch(core, changes[..|changes| - 1], writer, before)
    requires var last := changes[|changes| - 1];
             && last.Decoded? && last.key in after.store.rows
             && StoredAs(core, last, writer, after.store.rows[last.key])
             && (forall key :: key != last.key ==>
                   (key in after.store.rows <==> key in before.store.rows) &&
                   (key in after.store.rows ==> after.store.rows[key] == before.store.rows[key]))
    requires |after.outcomes| == |before.outcomes| + 1 && after.outcomes[..|before.outcomes|] == before.outcomes
    requires after.outcomes[|before.outcomes|].Applied?
    ensures AnswersMatch(core, changes, writer, after)
  {
    hide StoredAs;
    var n := |changes| - 1;
    var prefix, last := changes[..n], changes[n];
    forall i: nat, key
      ensures AppliedAt(changes, after.outcomes, i, key) <==>
              if i < n then AppliedAt(prefix, before.outcomes, i, key) else i == n && key == last.key
      ensures AppliedAt(prefix, before.outcomes, i, key) ==> key != last.key
    {
      if i < n {
        assert prefix[i] == changes[i];
        assert after.outcomes[..n][i] == after.outcomes[i];
      }
    }
    forall key
      ensures AppliedKey(changes, after.outcomes, key) <==> AppliedKey(prefix, before.outcomes, key) || key == last.key
    {
      if i: nat :| AppliedAt(prefix, before.outcomes, i, key) {
        assert AppliedAt(changes, after.outcomes, i, key);
      }
      if key == last.key {
        assert AppliedAt(changes, after.outcomes, n, key);
      }
      if i: nat :| AppliedAt(changes, after.outcomes, i, key) {
        assert i < n ==> AppliedAt(prefix, before.outcomes, i, key);
      }
    }
    hide AppliedAt, AppliedKey, DistinctKeys;
  }

  lemma {:induction false} AnswersMatchTheStore(core: Core, changes: seq<Change>, writer: string)
    requires DistinctKeys(changes) && Sequential(core, changes, writer).failure.None?
    ensures AnswersMatch(core, changes, writer, Sequential(core, changes, writer))
  {
    if changes == [] {
      hide StoredAs;
    } else {
      hide Judge, WriteOne, StoredAs, FactsIn, AnswersMatch;
      var prefix, change := changes[..|changes| - 1], changes[|changes| - 1];
      var before, after := Sequential(core, prefix, writer), Sequential(core, changes, writer);
      AnswersMatchTheStore(core, prefix, writer);
      var verdict := Judge(change, FactsIn(core, before.store.rows, change), writer);
      if verdict.Reject? {
        RejectingKeepsMatch(core, changes, writer, before, OutcomeOf(verdict));
      } else {
        AcceptedIsFresh(core, before.store, change, writer);
        UntouchedSoFar(core, changes, writer);
        LastIsStored(core, before.store, change, writer);
        OneWriteStores(before.store, verdict.write, core.counter + 1);
        hide DistinctKeys;
        ApplyingKeepsMatch(core, changes, writer, before, after);
      }
    }
  }

  lemma OneWriteStores(store: Store, write: PendingWrite, seqValue: nat)
    ensures var written := WriteOne(store, write, seqValue);
            written.Ok? ==>
              && write.key in written.value.rows && written.value.rows[write.key] == Stamp(write, seqValue)
              && forall key :: key != write.key ==>
                   (key in written.value.rows <==> key in store.rows) &&
                   (key in written.value.rows ==> written.value.rows[key] == store.rows[key])
  {
  }

  // ------------------------------------------------------------------ what the next pull shows

  lemma {:induction false} SomethingApplied(outcomes: seq<Outcome>)
    ensures AppliedIn(outcomes) == [] <==> forall i :: 0 <= i < |outcomes| ==> outcomes[i].Rejected?
  {
    if outcomes != [] {
      var prefix := outcomes[..|outcomes| - 1];
      SomethingApplied(prefix);
      assert forall i :: 0 <= i < |prefix| ==> prefix[i] == outcomes[i];
    }
  }

  /** Rows that moved carry the new value, rows that did not carry an old one. */
  lemma TheWindowShowsTheApplied(core: Core, changes: seq<Change>, writer: string, stage: Stage, counter: nat, key: Key)
    requires Sequenced(core) && AnswersMatch(core, changes, writer, stage)
    requires counter == if AppliedIn(stage.outcomes) == [] then core.counter else core.counter + 1
    ensures key in Window(stage.store.rows, WHOLE, core.counter, counter) <==> AppliedKey(changes, stage.outcomes, key)
  {
    SomethingApplied(stage.outcomes);
    hide AppliedIn;
    if AppliedKey(changes, stage.outcomes, key) {
      var i: nat :| AppliedAt(changes, stage.outcomes, i, key);
      assert StoredAs(core, changes[i], writer, stage.store.rows[key]);
    } else {
      hide StoredAs;
    }
  }

  /**
   A pull that starts where the push found the counter shows the rows of exactly the changes the push
   answered as applied: nothing refused gets through, and nothing applied is missing.
   */
  lemma ThePullAfterAPush(core: Core, raws: seq<RawChange>, writer: string, key: Key)
    requires Sequenced(core) && ApplyEach(core, Decode(raws), writer).Ok?
    ensures var after := ApplyEach(core, Decode(raws), writer).value.core;
            key in Window(after.store.rows, WHOLE, core.counter, after.counter) <==>
            AppliedKey(Decode(raws), Sequential(core, Decode(raws), writer).outcomes, key)
  {
    var changes := Decode(raws);
    var stage := Sequential(core, changes, writer);
    DecodeIsOrderedAndDistinct(raws);
    AnswersMatchTheStore(core, changes, writer);
    hide Decode, Sequential, AppliedIn, RejectedIn, DistinctKeys, Sequenced, AnswersMatch, AppliedKey, Window;
    TheWindowShowsTheApplied(core, changes, writer, stage, ApplyEach(core, changes, writer).value.core.counter, key);
  }

  // ------------------------------------------------------------------ no lost update

  /**
   Two changes to one entity made against the same version cannot both go in, whoever makes them and in
   whatever batches: once the first is applied the second is refused, and if what refuses it is the
   version it is handed the row the first one left.
   */
  lemma NoLostUpdate(core: Core, first: seq<RawChange>, second: seq<RawChange>, writer: string, other: string, i: nat,
                     j: nat)
    requires ApplyEach(core, Decode(first), writer).Ok?
    requires i < |Decode(first)| && j < |Decode(second)| && Decode(second)[j].Decoded?
    requires AppliedAt(Decode(first), Sequential(core, Decode(first), writer).outcomes, i, Decode(second)[j].key)
    requires Decode(first)[i].baseVersion == Decode(second)[j].baseVersion
    ensures var after := ApplyEach(core, Decode(first), writer).value.core;
            var outcomes := PlanOf(after, Decode(second), other).outcomes;
            && |outcomes| == |Decode(second)| && outcomes[j].Rejected?
            && (outcomes[j].rejected.reason.VersionConflict? ==>
                  Decode(second)[j].key in after.store.rows &&
                  outcomes[j].rejected.current == Some(after.store.rows[Decode(second)[j].key]))
  {
    var after := ApplyEach(core, Decode(first), writer).value.core;
    var change := Decode(second)[j];
    DecodeIsOrderedAndDistinct(first);
    AnswersMatchTheStore(core, Decode(first), writer);
    assert StoredAs(core, Decode(first)[i], writer, after.store.rows[change.key]);
    OutcomeAt(after, Decode(second), other, j);
    var facts := PlannedFacts(after, PlanOf(after, Decode(second)[..j], other).accepted, change);
    AcceptanceIsExact(change, facts, other);
    hide Decode, Sequential, PlanOf, Judge, StoredAs, DistinctKeys, AppliedIn, RejectedIn;
    assert BaseOf(facts.current) == change.baseVersion + 1;
  }

  // ------------------------------------------------------------------ a page's references

  /** Clients send a document under its page's id. */
  predicate IdIsPage(key: Key, fields: Fields) {
    key.kind.PageContent? ==> fields.ContentFields? && fields.pageId == key.id
  }

  predicate DocumentNames(rows: Rows, pageId: string, digest: Digest) {
    var key := Key(PageContent, pageId);
    key in rows && rows[key].deletedAt.None? && rows[key].fields.ContentFields? && digest in rows[key].fields.blobRefs
  }

  /** The reference table says what the live documents say. */
  ghost predicate RefsFollow(store: Store) {
    && (forall key :: key in store.rows ==>
        FieldsFit(key.kind, store.rows[key].fields) && IdIsPage(key, store.rows[key].fields))
    && (forall ref :: ref in store.refs <==> DocumentNames(store.rows, ref.pageId, ref.digest))
  }

  lemma OneWriteFollows(store: Store, write: PendingWrite, seqValue: nat)
    requires RefsFollow(store) && FieldsFit(write.key.kind, write.fields) && IdIsPage(write.key, write.fields)
    ensures var written := WriteOne(store, write, seqValue);
            written.Ok? ==> RefsFollow(written.value)
  {
    hide PageTaken;
    var written := WriteOne(store, write, seqValue);
    if written.Ok? {
      var after := written.value;
      forall ref: PageRef
        ensures ref in after.refs <==> DocumentNames(after.rows, ref.pageId, ref.digest)
      {
        assert ref in store.refs <==> DocumentNames(store.rows, ref.pageId, ref.digest);
        assert ref == PageRef(ref.pageId, ref.digest);
      }
    }
  }

  /**
   After any push the references are exactly what the live documents name: a picture taken out of a
   document stops being referenced, a deleted document references nothing, and no other page is touched.
   */
  lemma {:induction false} ReferencesFollowTheDocuments(core: Core, changes: seq<Change>, writer: string)
    requires RefsFollow(core.store)
    requires forall change :: change in changes && change.Decoded? ==>
               FieldsFit(change.key.kind, change.fields) && IdIsPage(change.key, change.fields)
    ensures RefsFollow(Sequential(core, changes, writer).store)
  {
    if changes != [] {
      LastStep(core, changes, writer);
      var prefix, change := changes[..|changes| - 1], changes[|changes| - 1];
      hide Sequential, Judge, WriteOne, RefsFollow, FactsIn;
      assert forall other :: other in prefix ==> other in changes;
      ReferencesFollowTheDocuments(core, prefix, writer);
      var before := Sequential(core, prefix, writer);
      var verdict := Judge(change, FactsIn(core, before.store.rows, change), writer);
      if verdict.Accept? {
        AcceptedKeepsPlace(change, FactsIn(core, before.store.rows, change), writer);
        OneWriteFollows(before.store, verdict.write, core.counter + 1);
      }
    }
  }

  lemma AcceptedKeepsPlace(change: Change, facts: Facts, writer: string)
    requires Judge(change, facts, writer).Accept?
    requires change.Decoded? ==> FieldsFit(change.key.kind, change.fields) && IdIsPage(change.key, change.fields)
    ensures var write := Judge(change, facts, writer).write;
            FieldsFit(write.key.kind, write.fields) && IdIsPage(write.key, write.fields)
  {
  }
}
