/**
 What every push keeps, whatever it is handed: the tree stays closed, retired ids stay retired, the
 counter bounds every sequence, versions move by one, and each change gets exactly one outcome.
 */
module PushLaws {
  import opened Outcomes
  import opened Tables
  import opened Changes
  import opened Engine

  // ------------------------------------------------------------------ the account invariant

  /** Every row and gravestone was stamped by a sequence value the counter has already reached. */
  ghost predicate Sequenced(core: Core) {
    && (forall key :: key in core.store.rows ==>
          0 < core.store.rows[key].changeSeq <= core.counter && 0 < core.store.rows[key].version)
    && (forall key :: key in core.purges ==> 0 < core.purges[key] <= core.counter)
  }

  /** No id is both stored and retired. */
  ghost predicate Retired(core: Core) {
    core.store.rows.Keys !! core.purges.Keys
  }

  ghost predicate Fitting(rows: Rows) {
    forall key :: key in rows ==> FieldsFit(key.kind, rows[key].fields)
  }

  /** page_blob_refs: the page is stored and the account holds the digest. */
  ghost predicate RefsHold(core: Core) {
    forall ref :: ref in core.store.refs ==> Key(Page, ref.pageId) in core.store.rows && ref.digest in core.blobs
  }

  ghost predicate Sound(core: Core) {
    Sequenced(core) && Retired(core) && Fitting(core.store.rows) && Closed(core.store.rows) && RefsHold(core)
  }

  // ------------------------------------------------------------------ what a push does to the rows

  /** Nothing leaves; what changed carries the new sequence value and one more version. */
  ghost predicate Wrote(core: Core, rows: Rows) {
    && core.store.rows.Keys <= rows.Keys
    && (forall key :: key in rows && key in core.store.rows ==>
          || rows[key] == core.store.rows[key]
          || (rows[key].changeSeq == core.counter + 1 && rows[key].version == core.store.rows[key].version + 1))
    && (forall key :: key in rows && key !in core.store.rows ==>
          rows[key].changeSeq == core.counter + 1 && rows[key].version == 1 && key !in core.purges)
  }

  lemma OneWriteWrites(core: Core, store: Store, write: PendingWrite)
    requires Wrote(core, store.rows)
    requires write.key in store.rows ==>
               && write.key in core.store.rows
               && store.rows[write.key] == core.store.rows[write.key]
               && store.rows[write.key].version == write.baseVersion
    requires write.key !in store.rows ==>
               write.key !in core.store.rows && write.key !in core.purges && write.baseVersion == 0
    ensures var written := WriteOne(store, write, core.counter + 1);
            written.Ok? ==> Wrote(core, written.value.rows)
  {
  }

  /** The last change either leaves the store alone or is one accepted write into it. */
  lemma LastStep(core: Core, changes: seq<Change>, writer: string)
    requires changes != []
    ensures var before := Sequential(core, changes[..|changes| - 1], writer);
            var after := Sequential(core, changes, writer);
            var verdict := Judge(changes[|changes| - 1], FactsIn(core, before.store.rows, changes[|changes| - 1]),
                                 writer);
            || after.store == before.store
            || (before.failure.None? && verdict.Accept? &&
                WriteOne(before.store, verdict.write, core.counter + 1) == Ok(after.store))
  {
    hide Judge, WriteOne, FactsIn;
  }

  lemma {:induction false} SequentialWrites(core: Core, changes: seq<Change>, writer: string)
    requires DistinctKeys(changes)
    ensures Wrote(core, Sequential(core, changes, writer).store.rows)
  {
    if changes != [] {
      hide *;
      LastStep(core, changes, writer);
      var prefix, change := changes[..|changes| - 1], changes[|changes| - 1];
      SequentialWrites(core, prefix, writer);
      var stage := Sequential(core, prefix, writer);
      var facts := FactsIn(core, stage.store.rows, change);
      if stage.failure.None? && Judge(change, facts, writer).Accept? {
        AcceptedIsFresh(core, stage.store, change, writer);
        UntouchedSoFar(core, changes, writer);
        OneWriteWrites(core, stage.store, Judge(change, facts, writer).write);
      }
    } else {
      assert Wrote(core, core.store.rows);
    }
  }

  lemma AcceptedIsFresh(core: Core, store: Store, change: Change, writer: string)
    requires Judge(change, FactsIn(core, store.rows, change), writer).Accept?
    ensures var write := Judge(change, FactsIn(core, store.rows, change), writer).write;
            && change.Decoded? && write.key == change.key && write.key !in core.purges
            && (write.key in store.rows ==> store.rows[write.key].version == write.baseVersion)
            && (write.key !in store.rows ==> write.baseVersion == 0)
  {
    AcceptedWriteFits(change, FactsIn(core, store.rows, change), writer);
  }

  /** The last change of a batch finds its own entity as the batch found it. */
  lemma UntouchedSoFar(core: Core, changes: seq<Change>, writer: string)
    requires changes != [] && DistinctKeys(changes) && changes[|changes| - 1].Decoded?
    requires Sequential(core, changes[..|changes| - 1], writer).failure.None?
    ensures var key := changes[|changes| - 1].key;
            var rows := Sequential(core, changes[..|changes| - 1], writer).store.rows;
            && (key in rows <==> key in core.store.rows)
            && (key in rows ==> rows[key] == core.store.rows[key])
  {
    hide Judge, WriteAll, PlanOf, Sequential;
    DeferredIsSequential(core, changes[..|changes| - 1], writer);
    LastKeyIsNew(core, changes, writer);
  }

  lemma {:induction false} SequentialKeepsShape(core: Core, changes: seq<Change>, writer: string)
    requires Fitting(core.store.rows) && Closed(core.store.rows) && RefsHold(core)
    requires forall change :: change in changes && change.Decoded? ==> FieldsFit(change.key.kind, change.fields)
    requires forall change :: change in changes && change.Decoded? && change.fields.ContentFields? ==>
               change.required == change.fields.blobRefs
    ensures var store := Sequential(core, changes, writer).store;
            Fitting(store.rows) && Closed(store.rows) && RefsHold(core.(store := store))
  {
    if changes != [] {
      hide *;
      LastStep(core, changes, writer);
      var prefix, change := changes[..|changes| - 1], changes[|changes| - 1];
      SequentialKeepsShape(core, prefix, writer);
      var stage := Sequential(core, prefix, writer);
      if Judge(change, FactsIn(core, stage.store.rows, change), writer).Accept? {
        AcceptedKeepsShape(core, stage.store, change, writer);
      }
    }
  }

  lemma AcceptedKeepsShape(core: Core, store: Store, change: Change, writer: string)
    requires Fitting(store.rows) && Closed(store.rows) && RefsHold(core.(store := store))
    requires Judge(change, FactsIn(core, store.rows, change), writer).Accept?
    requires FieldsFit(change.key.kind, change.fields)
    requires change.fields.ContentFields? ==> change.required == change.fields.blobRefs
    ensures var write := Judge(change, FactsIn(core, store.rows, change), writer).write;
            var written := WriteOne(store, write, core.counter + 1);
            written.Ok? ==>
              && Fitting(written.value.rows)
              && Closed(written.value.rows)
              && RefsHold(core.(store := written.value))
  {
    var facts := FactsIn(core, store.rows, change);
    var write := Judge(change, facts, writer).write;
    AcceptedWriteFits(change, facts, writer);
    var written := WriteOne(store, write, core.counter + 1);
    if written.Ok? {
      var rows := written.value.rows;
      forall key | key in rows && RowParent(rows, key).Some?
        ensures RowParent(rows, key).value in rows
      {
        if key != write.key {
          assert RowParent(store.rows, key) == RowParent(rows, key);
        }
      }
      AcceptedRefsHold(core, store, change, writer);
    }
  }

  lemma AcceptedRefsHold(core: Core, store: Store, change: Change, writer: string)
    requires RefsHold(core.(store := store))
    requires Judge(change, FactsIn(core, store.rows, change), writer).Accept?
    requires FieldsFit(change.key.kind, change.fields)
    requires change.fields.ContentFields? ==> change.required == change.fields.blobRefs
    ensures var write := Judge(change, FactsIn(core, store.rows, change), writer).write;
            var written := WriteOne(store, write, core.counter + 1);
            written.Ok? ==> RefsHold(core.(store := written.value))
  {
    var write := Judge(change, FactsIn(core, store.rows, change), writer).write;
    var written := WriteOne(store, write, core.counter + 1);
    if written.Ok? {
      forall ref | ref in written.value.refs
        ensures Key(Page, ref.pageId) in written.value.rows && ref.digest in core.blobs
      {
        if ref !in store.refs {
          assert change.fields.ContentFields? && ref.pageId == ParentId(change.fields);
          assert ref.digest in change.required;
        }
      }
    }
  }

  lemma {:induction false} DecodeEachIsFitting(raws: seq<RawChange>)
    ensures forall change :: change in DecodeEach(raws) && change.Decoded? ==>
              && FieldsFit(change.key.kind, change.fields)
              && (change.fields.ContentFields? ==> change.required == change.fields.blobRefs)
  {
    if raws != [] {
      DecodeEachIsFitting(raws[..|raws| - 1]);
    }
  }

  lemma DecodeIsFitting(raws: seq<RawChange>)
    ensures forall change :: change in Decode(raws) && change.Decoded? ==>
              && FieldsFit(change.key.kind, change.fields)
              && (change.fields.ContentFields? ==> change.required == change.fields.blobRefs)
  {
    DecodeEachIsFitting(raws);
    SortByRankIsStable(DecodeEach(raws));
    forall change | change in Decode(raws) && change.Decoded?
      ensures FieldsFit(change.key.kind, change.fields)
      ensures change.fields.ContentFields? ==> change.required == change.fields.blobRefs
    {
      assert change in multiset(Decode(raws));
      assert change in DecodeEach(raws);
    }
  }

  /** One committed push, as the rest of the system sees it. */
  ghost predicate Advanced(before: Core, after: Core) {
    && after.purges == before.purges && after.blobs == before.blobs
    && Wrote(before, after.store.rows)
    && (after.counter == before.counter + 1 || after == before)
  }

  lemma {:induction false} NothingAppliedNothingWritten(core: Core, changes: seq<Change>, writer: string)
    requires AppliedIn(Sequential(core, changes, writer).outcomes) == []
    ensures Sequential(core, changes, writer).store == core.store
  {
    if changes != [] {
      var prefix := changes[..|changes| - 1];
      hide Judge, WriteOne;
      var before, after := Sequential(core, prefix, writer), Sequential(core, changes, writer);
      if after.outcomes != before.outcomes {
        assert after.outcomes[..|before.outcomes|] == before.outcomes;
      }
      NothingAppliedNothingWritten(core, prefix, writer);
    }
  }

  /** A push moves the counter by one and stamps what it wrote, or it changes nothing at all. */
  lemma PushAdvances(core: Core, raws: seq<RawChange>, writer: string)
    ensures var result := ApplyEach(core, Decode(raws), writer);
            result.Ok? ==>
              && Advanced(core, result.value.core)
              && (result.value.core == core <==> result.value.answer.applied == [])
              && result.value.answer.cursor == result.value.core.counter
  {
    hide Judge, Sequential, Decode;
    DecodeIsOrderedAndDistinct(raws);
    SequentialWrites(core, Decode(raws), writer);
    if AppliedIn(Sequential(core, Decode(raws), writer).outcomes) == [] {
      NothingAppliedNothingWritten(core, Decode(raws), writer);
    }
  }

  /** Tree closure, retirement, sequence discipline and held references survive every push. */
  lemma PushKeepsSound(core: Core, raws: seq<RawChange>, writer: string)
    requires Sound(core)
    ensures var result := ApplyEach(core, Decode(raws), writer);
            result.Ok? ==> Sound(result.value.core)
  {
    hide Judge, Sequential, Decode, AppliedIn, RejectedIn;
    PushAdvances(core, raws, writer);
    DecodeIsFitting(raws);
    SequentialKeepsShape(core, Decode(raws), writer);
  }

  /** The one way the database can refuse a push: two documents for one page. */
  lemma OnlyASecondBodyFailsAPush(core: Core, raws: seq<RawChange>, writer: string)
    ensures var result := ApplyEach(core, Decode(raws), writer);
            result.Err? ==> result.error.SecondBodyForPage?
  {
    hide Judge, Sequential, Decode, AppliedIn, RejectedIn, PlanOf, WriteAll;
    DecodeIsOrderedAndDistinct(raws);
    DeferredIsSequential(core, Decode(raws), writer);
  }
}
