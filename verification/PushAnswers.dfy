/**
 What one push answers and stores, said of the elements as they were sent and of the tables as they were
 found; and the one way the tables can refuse it, exactly.
 */
module PushAnswers {
  import opened Outcomes
  import opened Tables
  import opened Changes
  import opened Engine
  import opened PushLaws
  import opened BatchAnswers
  import opened PushPull
  import opened PushPath
  import opened Admin
  import opened AccountRuns
  import opened Reading

  // ------------------------------------------------------------------ how each change is decided

  /** The entity a decoded change hangs from. */
  ghost function ParentNamed(change: Change): Option<Key>
    requires change.Decoded?
  {
    match change.key.kind
    case Section => if change.fields.ChildFields? then Some(Key(Notebook, change.fields.parentId)) else None
    case Page => if change.fields.ChildFields? then Some(Key(Section, change.fields.parentId)) else None
    case PageContent => if change.fields.ContentFields? then Some(Key(Page, change.fields.pageId)) else None
    case InkStroke => if change.fields.ChildFields? then Some(Key(Page, change.fields.parentId)) else None
    case InkErase => if change.fields.ChildFields? then Some(Key(Page, change.fields.parentId)) else None
    case InkMove => if change.fields.ChildFields? then Some(Key(Page, change.fields.parentId)) else None
    case Notebook => None
    case Attachment => None
  }

  /** It hangs from something neither stored nor accepted by this push. */
  ghost predicate LacksItsParent(core: Core, accepted: set<Key>, change: Change)
    requires change.Decoded?
  {
    ParentNamed(change).Some? && ParentNamed(change).value !in core.store.rows &&
    ParentNamed(change).value !in accepted
  }

  /** It is not a deletion, and some bytes it names are not held. */
  ghost predicate LacksBytes(core: Core, change: Change)
    requires change.Decoded?
  {
    change.deletedAt.None? && exists digest :: digest in change.required && digest !in core.blobs
  }

  /** It is not a deletion, and the bytes it is about have another length. */
  ghost predicate HasAnotherLength(core: Core, change: Change)
    requires change.Decoded?
  {
    && change.deletedAt.None? && change.key.kind.Attachment? && change.fields.AttachmentFields?
    && change.key.id in core.blobs && core.blobs[change.key.id] != change.fields.byteCount
  }

  /** It was made against the version now stored, or against none if nothing is. */
  ghost predicate IsCurrent(core: Core, change: Change)
    requires change.Decoded?
  {
    if change.key in core.store.rows then core.store.rows[change.key].version == change.baseVersion
    else change.baseVersion == 0
  }

  ghost predicate RefusedFor(change: Change, outcome: Outcome, reason: Reason, current: Option<Row>)
    requires change.Decoded?
  {
    outcome == Rejected(RejectedChange(KindName(change.key.kind), change.key.id, reason, current))
  }

  /** The first of the checks that fails is the answer; with none, the next version is. */
  ghost predicate DecidedAs(core: Core, accepted: set<Key>, change: Change, outcome: Outcome) {
    if change.Refused? then outcome == Rejected(change.rejection)
    else if LacksItsParent(core, accepted, change) then RefusedFor(change, outcome, MissingParent, None)
    else if LacksBytes(core, change) then RefusedFor(change, outcome, MissingBlob, None)
    else if HasAnotherLength(core, change) then RefusedFor(change, outcome, Malformed, None)
    else if change.key in core.purges then RefusedFor(change, outcome, Purged, None)
    else if !IsCurrent(core, change) then
      RefusedFor(change, outcome, VersionConflict,
                 if change.key in core.store.rows then Some(core.store.rows[change.key]) else None)
    else outcome == Applied(AppliedChange(KindName(change.key.kind), change.key.id, change.baseVersion + 1))
  }

  /** What a decoded change of a push is known to be. */
  ghost predicate WellRead(change: Change) {
    change.Decoded? ==> FieldsFit(change.key.kind, change.fields) &&
                        (change.key.kind.Attachment? ==> change.required == [change.key.id])
  }

  lemma DecodedIsWellRead(raws: seq<RawChange>, change: Change)
    requires change in Decode(raws)
    ensures WellRead(change)
  {
    EveryDecodedWasSent(raws, change);
    hide Decode, Names, NamedBefore;
    var i :| 0 <= i < |raws| && ReadAs(raws, i, change);
    if change.Decoded? {
      FieldsAreItsOwn(raws[i], change.key.kind);
    }
    hide HasItsFields, KindName, FieldsFit;
  }

  lemma ParentsAreNamed(change: Change)
    requires change.Decoded? && FieldsFit(change.key.kind, change.fields)
    ensures ParentOf(change.key.kind, change.fields) == ParentNamed(change)
    ensures ParentKind(change.key.kind).Some? <==> ParentNamed(change).Some?
  {
  }

  lemma JudgedAs(core: Core, accepted: set<Key>, change: Change, writer: string)
    requires WellRead(change)
    ensures DecidedAs(core, accepted, change, OutcomeOf(Judge(change, PlannedFacts(core, accepted, change), writer)))
  {
    if change.Decoded? {
      ParentsAreNamed(change);
    }
    hide KindName, ParentNamed, FieldsFit, ParentOf;
  }

  /**
   Every change of a push is decided by the tables as they were found and by what the same push accepts, in
   whatever order: its parent, its bytes, their length, its gravestone and its version, in that order.
   */
  lemma DecidedExactly(core: Core, raws: seq<RawChange>, writer: string, i: nat)
    requires i < |Decode(raws)|
    ensures var plan := PlanOf(core, Decode(raws), writer);
            |plan.outcomes| == |Decode(raws)| && DecidedAs(core, plan.accepted, Decode(raws)[i], plan.outcomes[i])
  {
    var changes := Decode(raws);
    var change := changes[i];
    DecodeIsOrderedAndDistinct(raws);
    DecodedIsWellRead(raws, change);
    hide Decode;
    OutcomeAt(core, changes, writer, i);
    var before := PlanOf(core, changes[..i], writer).accepted;
    JudgedAs(core, before, change, writer);
    if change.Decoded? {
      ParentsAreNamed(change);
      MissingParentIsExact(core, changes, writer, i);
      hide PlanOf, Judge, PlannedFacts, OutcomeOf, FieldsFit, ParentNamed, ParentOf, KindName, LacksBytes,
           HasAnotherLength, IsCurrent;
    }
    hide PlanOf, Judge, PlannedFacts, OutcomeOf;
  }

  // ------------------------------------------------------------------ what is applied, and what is stored

  lemma OutcomesAreThePlans(core: Core, changes: seq<Change>, writer: string)
    requires DistinctKeys(changes) && Sequential(core, changes, writer).failure.None?
    ensures Sequential(core, changes, writer).outcomes == PlanOf(core, changes, writer).outcomes
  {
    DeferredIsSequential(core, changes, writer);
    hide Sequential, PlanOf, DistinctKeys;
  }

  lemma {:induction false} AppliedInHolds(outcomes: seq<Outcome>, applied: AppliedChange)
    ensures applied in AppliedIn(outcomes) <==> Applied(applied) in outcomes
  {
    if outcomes != [] {
      AppliedInHolds(outcomes[..|outcomes| - 1], applied);
      assert outcomes == outcomes[..|outcomes| - 1] + [outcomes[|outcomes| - 1]];
    }
  }

  lemma {:induction false} RejectedInHolds(outcomes: seq<Outcome>, rejected: RejectedChange)
    ensures rejected in RejectedIn(outcomes) <==> Rejected(rejected) in outcomes
  {
    if outcomes != [] {
      RejectedInHolds(outcomes[..|outcomes| - 1], rejected);
      assert outcomes == outcomes[..|outcomes| - 1] + [outcomes[|outcomes| - 1]];
    }
  }

  /** An element of the push that reads as a change of this entity, stored as it was sent. */
  ghost predicate SentAndStored(core: Core, raws: seq<RawChange>, writer: string, after: Rows, key: Key, i: nat,
                                change: Change)
  {
    && i < |raws| && CanBeDecoded(raws, i) && ReadAs(raws, i, change) && change.key == key
    && key in after && StoredAs(core, change, writer, after[key])
  }

  /** And answered for, under its own names and at the version it is stored at. */
  ghost predicate AnsweredFor(core: Core, raws: seq<RawChange>, writer: string, after: Rows, applied: AppliedChange,
                              key: Key, i: nat, change: Change)
  {
    && SentAndStored(core, raws, writer, after, key, i, change)
    && applied == AppliedChange(raws[i].kindName, raws[i].id, after[key].version)
  }

  lemma WhatApplyingGives(core: Core, raws: seq<RawChange>, writer: string)
    requires ApplyEach(core, Decode(raws), writer).Ok?
    ensures var effect, stage := ApplyEach(core, Decode(raws), writer).value, Sequential(core, Decode(raws), writer);
            && stage.failure.None? && effect.core.store == stage.store && effect.core.purges == core.purges
            && effect.answer.applied == AppliedIn(stage.outcomes)
            && stage.outcomes == PlanOf(core, Decode(raws), writer).outcomes
            && AnswersMatch(core, Decode(raws), writer, stage)
  {
    DecodeIsOrderedAndDistinct(raws);
    hide Decode, Sequential, PlanOf, AnswersMatch, AppliedIn, RejectedIn, DistinctKeys, RankOrdered;
    OutcomesAreThePlans(core, Decode(raws), writer);
    AnswersMatchTheStore(core, Decode(raws), writer);
  }

  lemma AppliedMeans(core: Core, accepted: set<Key>, change: Change, outcome: Outcome)
    requires DecidedAs(core, accepted, change, outcome) && outcome.Applied?
    ensures change.Decoded?
    ensures outcome.applied == AppliedChange(KindName(change.key.kind), change.key.id, change.baseVersion + 1)
  {
    hide LacksItsParent, LacksBytes, HasAnotherLength, IsCurrent, KindName;
  }

  lemma AnAppliedChangeIsStored(core: Core, raws: seq<RawChange>, writer: string, k: nat)
    requires ApplyEach(core, Decode(raws), writer).Ok?
    requires k < |Decode(raws)| && k < |Sequential(core, Decode(raws), writer).outcomes|
    requires Sequential(core, Decode(raws), writer).outcomes[k].Applied?
    ensures Decode(raws)[k].Decoded?
    ensures var after, change := ApplyEach(core, Decode(raws), writer).value.core.store.rows, Decode(raws)[k];
            && Sequential(core, Decode(raws), writer).outcomes[k].applied ==
               AppliedChange(KindName(change.key.kind), change.key.id, change.baseVersion + 1)
            && exists i: nat :: SentAndStored(core, raws, writer, after, change.key, i, change)
  {
    hide Decode, Sequential, PlanOf, ReadAs, StoredAs, CanBeDecoded, ApplyEach, DecidedAs, KindName, AppliedIn;
    var change, stage := Decode(raws)[k], Sequential(core, Decode(raws), writer);
    WhatApplyingGives(core, raws, writer);
    DecidedExactly(core, raws, writer, k);
    AppliedMeans(core, PlanOf(core, Decode(raws), writer).accepted, change, stage.outcomes[k]);
    EveryDecodedWasSent(raws, change);
    assert AppliedAt(Decode(raws), stage.outcomes, k, change.key);
    var i: nat :| i < |raws| && ReadAs(raws, i, change);
    DecodedCanBe(raws, i, change);
    assert SentAndStored(core, raws, writer, stage.store.rows, change.key, i, change);
  }

  lemma DecodedCanBe(raws: seq<RawChange>, i: nat, change: Change)
    requires i < |raws| && ReadAs(raws, i, change) && change.Decoded?
    ensures CanBeDecoded(raws, i)
  {
  }

  /**
   Every change a push answers as applied is an element of it that passed its own checks, at the version
   after the one it was made against; and every row that was not there before, or is not as it was, is such
   an element, stored as it was sent. Nothing is taken away.
   */
  lemma WhatIsAppliedWasSent(core: Core, raws: seq<RawChange>, writer: string)
    requires ApplyEach(core, Decode(raws), writer).Ok?
    ensures var effect := ApplyEach(core, Decode(raws), writer).value;
            var after := effect.core.store.rows;
            && (forall applied :: applied in effect.answer.applied ==>
                  exists key, i: nat, change :: AnsweredFor(core, raws, writer, after, applied, key, i, change))
            && (forall key :: key in after ==>
                  || (key in core.store.rows && after[key] == core.store.rows[key])
                  || exists i: nat, change :: SentAndStored(core, raws, writer, after, key, i, change))
            && (forall key :: key in core.store.rows ==> key in after)
  {
    hide Decode, Sequential, PlanOf, SentAndStored, StoredAs, ApplyEach, KindName, AppliedIn;
    WhatApplyingGives(core, raws, writer);
    var changes := Decode(raws);
    var stage := Sequential(core, changes, writer);
    var after := stage.store.rows;
    forall applied | applied in AppliedIn(stage.outcomes)
      ensures exists key, i: nat, change :: AnsweredFor(core, raws, writer, after, applied, key, i, change)
    {
      AppliedInHolds(stage.outcomes, applied);
      var k :| 0 <= k < |stage.outcomes| && stage.outcomes[k] == Applied(applied);
      AnAppliedChangeIsStored(core, raws, writer, k);
      var change := changes[k];
      var i: nat :| SentAndStored(core, raws, writer, after, change.key, i, change);
      SentAndStoredSays(core, raws, writer, after, change.key, i, change);
      assert AnsweredFor(core, raws, writer, after, applied, change.key, i, change);
    }
    forall key | key in after && !(key in core.store.rows && after[key] == core.store.rows[key])
      ensures exists i: nat, change :: SentAndStored(core, raws, writer, after, key, i, change)
    {
      assert AppliedKey(changes, stage.outcomes, key);
      var k: nat :| AppliedAt(changes, stage.outcomes, k, key);
      AnAppliedChangeIsStored(core, raws, writer, k);
    }
  }

  lemma SentAndStoredSays(core: Core, raws: seq<RawChange>, writer: string, after: Rows, key: Key, i: nat,
                          change: Change)
    requires SentAndStored(core, raws, writer, after, key, i, change)
    ensures i < |raws| && raws[i].RawChange? && key in after
    ensures raws[i].kindName == KindName(key.kind) && raws[i].id == key.id
    ensures change.Decoded? && after[key].version == change.baseVersion + 1
  {
    hide Names, NamedBefore, HasItsFields, KindName;
  }

  // ------------------------------------------------------------------ the request as a whole

  /** The answer a device was given to this batch, inside the window. */
  ghost predicate WasAnswered(account: Account, request: PushRequest, now: int, window: nat) {
    var key := BatchKey(request.device, request.batchId);
    key in account.batches && now - window < account.batches[key].createdAt
  }

  /**
   One request: answered before, it gets that answer and nothing happens; refused by the tables, nothing
   happens either; else the work is done and its answer logged, with no other device's answers touched and
   only expired ones of its own dropped. Other streams hear of it exactly when some row was written.
   */
  lemma WhatARequestDoes(account: Account, request: PushRequest, now: int, window: nat, prune: bool)
    ensures var result, key := Push(account, request, now, window, prune), BatchKey(request.device, request.batchId);
            var work := ApplyEach(account.core, Decode(request.changes), request.device);
            if WasAnswered(account, request, now, window) then
              result.account == account && result.answer == Ok(account.batches[key].answer) && !result.committed
            else if work.Err? then
              result.account == account && result.answer == Err(work.error) && !result.committed
            else
              && result.account.core == work.value.core && result.answer == Ok(work.value.answer)
              && (result.committed <==> result.account.core.counter == account.core.counter + 1)
              && (!result.committed ==> result.account.core == account.core)
              && key in result.account.batches && result.account.batches[key] == StoredAnswer(work.value.answer, now)
              && (forall other :: other in result.account.batches && other != key ==>
                    other in account.batches && result.account.batches[other] == account.batches[other])
              && (forall other :: other in account.batches && other != key ==>
                    (other !in result.account.batches <==>
                       prune && other.device == request.device && account.batches[other].createdAt < now - window))
  {
    PushAdvances(account.core, request.changes, request.device);
    hide Decode, Sequential, Advanced;
  }

  /**
   One guarded upsert: it goes through for a row that is not there or is at the version it was made against,
   whose parent is stored and whose page has no other body; it then stores that row and replaces the
   references of its page, if it is a document, by what it names.
   */
  lemma AWriteIsExact(store: Store, write: PendingWrite, seqValue: nat)
    ensures var result, parent := WriteOne(store, write, seqValue), ParentOf(write.key.kind, write.fields);
            && (result.Ok? <==>
                  && (write.key in store.rows ==> store.rows[write.key].version == write.baseVersion)
                  && (parent.Some? ==> parent.value in store.rows)
                  && !(write.key.kind.PageContent? &&
                       exists other :: other in store.rows && other.kind.PageContent? && other != write.key &&
                                       ParentId(store.rows[other].fields) == ParentId(write.fields)))
            && (result.Ok? ==>
                  && result.value.rows ==
                     store.rows[write.key := Row(write.baseVersion + 1, seqValue, write.deletedAt, write.updatedAt,
                                                 Some(write.writer), write.fields)]
                  && forall ref :: ref in result.value.refs <==>
                       if write.fields.ContentFields? && ref.pageId == write.fields.pageId
                       then write.deletedAt == None && ref.digest in write.fields.blobRefs
                       else ref in store.refs)
  {
    hide ParentOf;
    if WriteOne(store, write, seqValue).Ok? && write.fields.ContentFields? {
      forall ref: PageRef
        ensures ref in RefsAfter(store.refs, write) <==>
                if ref.pageId == write.fields.pageId
                then write.deletedAt == None && ref.digest in write.fields.blobRefs else ref in store.refs
      {
        assert ref == PageRef(ref.pageId, ref.digest);
      }
    }
  }

  // ------------------------------------------------------------------ the one way it can fail

  /** A document under another id already stands for the page this one is of. */
  ghost predicate HasAnotherBody(rows: Rows, change: Change)
    requires change.Decoded?
  {
    && change.key.kind.PageContent?
    && exists other :: other in rows && other.kind.PageContent? && other != change.key &&
                       ParentId(rows[other].fields) == ParentId(change.fields)
  }

  /** At its turn an accepted document finds another body at its page. */
  ghost predicate Collides(core: Core, changes: seq<Change>, writer: string, i: nat) {
    && i < |changes| && changes[i].Decoded?
    && i < |PlanOf(core, changes, writer).outcomes| && PlanOf(core, changes, writer).outcomes[i].Applied?
    && Sequential(core, changes[..i], writer).failure.None?
    && HasAnotherBody(Sequential(core, changes[..i], writer).store.rows, changes[i])
  }

  lemma RefusedAsAnotherBody(core: Core, store: Store, change: Change, writer: string)
    requires change.Decoded?
    requires var verdict := Judge(change, FactsIn(core, store.rows, change), writer);
             verdict.Accept? && (WriteOne(store, verdict.write, core.counter + 1).Err? ==>
                                   WriteOne(store, verdict.write, core.counter + 1).error.SecondBodyForPage?)
    ensures var write := Judge(change, FactsIn(core, store.rows, change), writer).write;
            WriteOne(store, write, core.counter + 1).Err? <==> HasAnotherBody(store.rows, change)
  {
  }

  lemma LastPlanned(core: Core, changes: seq<Change>, writer: string)
    requires changes != [] && DistinctKeys(changes)
    requires Sequential(core, changes[..|changes| - 1], writer).failure.None?
    ensures var n := |changes| - 1;
            var plan, before := PlanOf(core, changes, writer), Sequential(core, changes[..n], writer);
            && |plan.outcomes| == |changes|
            && plan.outcomes[n] == OutcomeOf(Judge(changes[n], FactsIn(core, before.store.rows, changes[n]), writer))
  {
    var n := |changes| - 1;
    DeferredIsSequential(core, changes[..n], writer);
    OutcomeAt(core, changes, writer, n);
    if changes[n].Decoded? {
      UntouchedSoFar(core, changes, writer);
    }
    hide Judge, PlanOf, Sequential, WriteAll, OutcomeOf, DistinctKeys;
  }

  lemma EarlierCollides(core: Core, changes: seq<Change>, writer: string, i: nat)
    requires changes != [] && i < |changes| - 1
    ensures Collides(core, changes[..|changes| - 1], writer, i) <==> Collides(core, changes, writer, i)
  {
    var prefix := changes[..|changes| - 1];
    OutcomeAt(core, changes, writer, i);
    OutcomeAt(core, prefix, writer, i);
    assert prefix[..i] == changes[..i];
    hide PlanOf, Sequential, HasAnotherBody;
  }

  lemma {:induction false} FailsAtACollision(core: Core, changes: seq<Change>, writer: string)
    requires DistinctKeys(changes)
    ensures Sequential(core, changes, writer).failure.Some? <==> exists i: nat :: Collides(core, changes, writer, i)
  {
    if changes != [] {
      var n := |changes| - 1;
      var before := Sequential(core, changes[..n], writer);
      FailsAtACollision(core, changes[..n], writer);
      DeferredIsSequential(core, changes, writer);
      if before.failure.None? {
        LastPlanned(core, changes, writer);
        LastCollides(core, changes, writer);
      }
      forall i: nat | i < n
        ensures Collides(core, changes[..n], writer, i) <==> Collides(core, changes, writer, i)
      {
        EarlierCollides(core, changes, writer, i);
      }
      hide Judge, PlanOf, WriteAll, WriteOne, FactsIn, HasAnotherBody, DistinctKeys;
      if before.failure.Some? {
        var i: nat :| Collides(core, changes[..n], writer, i);
        assert Collides(core, changes, writer, i);
      } else {
        assert Sequential(core, changes, writer).failure.Some? <==> Collides(core, changes, writer, n);
        if i: nat :| Collides(core, changes, writer, i) {
          assert i < n ==> Collides(core, changes[..n], writer, i);
        }
      }
    }
  }

  lemma LastFails(core: Core, changes: seq<Change>, writer: string)
    requires changes != [] && Sequential(core, changes[..|changes| - 1], writer).failure.None?
    ensures var change, before := changes[|changes| - 1], Sequential(core, changes[..|changes| - 1], writer);
            var verdict := Judge(change, FactsIn(core, before.store.rows, change), writer);
            && (Sequential(core, changes, writer).failure.Some? <==>
                  verdict.Accept? && WriteOne(before.store, verdict.write, core.counter + 1).Err?)
            && (verdict.Accept? && WriteOne(before.store, verdict.write, core.counter + 1).Err? ==>
                  Sequential(core, changes, writer).failure.value ==
                  WriteOne(before.store, verdict.write, core.counter + 1).error)
            && (OutcomeOf(verdict).Applied? <==> verdict.Accept?)
  {
    hide Judge, FactsIn, WriteOne;
  }

  lemma LastCollides(core: Core, changes: seq<Change>, writer: string)
    requires changes != [] && DistinctKeys(changes)
    requires Sequential(core, changes[..|changes| - 1], writer).failure.None?
    ensures Sequential(core, changes, writer).failure.Some? <==> Collides(core, changes, writer, |changes| - 1)
  {
    hide Judge, PlanOf, WriteAll, WriteOne, FactsIn, HasAnotherBody, DistinctKeys, Agrees, Sequential, OutcomeOf;
    var n := |changes| - 1;
    var before, change := Sequential(core, changes[..n], writer), changes[n];
    LastPlanned(core, changes, writer);
    LastFails(core, changes, writer);
    ItIsAnotherBody(core, changes, writer);
    if Judge(change, FactsIn(core, before.store.rows, change), writer).Accept? {
      AcceptedIsFresh(core, before.store, change, writer);
      RefusedAsAnotherBody(core, before.store, change, writer);
    }
  }

  lemma ItIsAnotherBody(core: Core, changes: seq<Change>, writer: string)
    requires DistinctKeys(changes)
    ensures Sequential(core, changes, writer).failure.Some? ==>
              Sequential(core, changes, writer).failure.value.SecondBodyForPage?
  {
    DeferredIsSequential(core, changes, writer);
    hide Sequential, PlanOf, WriteAll, DistinctKeys;
  }

  /** The tables refuse a push exactly when one of its accepted documents, at its turn, finds another body at
      its page. */
  lemma APushIsRefusedExactlyForABody(core: Core, raws: seq<RawChange>, writer: string)
    ensures ApplyEach(core, Decode(raws), writer).Err? <==> exists i: nat :: Collides(core, Decode(raws), writer, i)
  {
    DecodeIsOrderedAndDistinct(raws);
    hide Decode, Sequential, DistinctKeys, Collides, AppliedIn, RejectedIn;
    FailsAtACollision(core, Decode(raws), writer);
  }

  /** No page has two bodies. */
  ghost predicate OneBodyEach(rows: Rows) {
    forall a, b :: a in rows && b in rows && a.kind.PageContent? && b.kind.PageContent? && a != b ==>
      ParentId(rows[a].fields) != ParentId(rows[b].fields)
  }

  lemma WritingKeepsOneBody(store: Store, write: PendingWrite, seqValue: nat)
    requires OneBodyEach(store.rows) && WriteOne(store, write, seqValue).Ok?
    ensures OneBodyEach(WriteOne(store, write, seqValue).value.rows)
  {
  }

  lemma {:induction false} PushingKeepsOneBody(core: Core, changes: seq<Change>, writer: string)
    requires OneBodyEach(core.store.rows)
    ensures OneBodyEach(Sequential(core, changes, writer).store.rows)
  {
    if changes != [] {
      PushingKeepsOneBody(core, changes[..|changes| - 1], writer);
      LastStep(core, changes, writer);
      var before, change := Sequential(core, changes[..|changes| - 1], writer), changes[|changes| - 1];
      var verdict := Judge(change, FactsIn(core, before.store.rows, change), writer);
      hide Sequential, Judge, FactsIn, WriteOne, OneBodyEach;
      if verdict.Accept? && WriteOne(before.store, verdict.write, core.counter + 1).Ok? {
        WritingKeepsOneBody(before.store, verdict.write, core.counter + 1);
      }
    }
  }

  lemma PerformKeepsOneBody(core: Core, op: Op)
    requires OneBodyEach(core.store.rows)
    ensures OneBodyEach(Perform(core, op).store.rows)
  {
    match op {
      case Pushed(raws, writer) =>
        PushingKeepsOneBody(core, Decode(raws), writer);
        hide Decode, Sequential, AppliedIn, RejectedIn, OneBodyEach;
      case Erased(id, devices) =>
        ErasingOnlyRemoves(core, devices, id);
        hide EraseNotebook;
      case Unhosted(id, nowMillis) =>
        hide IdFault;
      case _ =>
    }
  }

  /** In every state of every run a page has at most one body. */
  lemma {:induction false} EveryRunKeepsOneBody(ops: seq<Op>)
    ensures OneBodyEach(After(FRESH_ACCOUNT, ops).store.rows)
  {
    if ops != [] {
      hide OneBodyEach, Perform;
      EveryRunKeepsOneBody(ops[..|ops| - 1]);
      PerformKeepsOneBody(After(FRESH_ACCOUNT, ops[..|ops| - 1]), ops[|ops| - 1]);
    }
  }
}
