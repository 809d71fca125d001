/**
 The push path as it runs: the log of answered batches, one bulk read per kind, the loop over runs
 of one kind, the deferred pipeline and the commit. Proved against `Push`, which judges and writes
 one change at a time.
 */
module PushPath {
  import opened Outcomes
  import opened Tables
  import opened Changes
  import opened Engine

  datatype BatchKey = BatchKey(device: string, batchId: string)

  datatype StoredAnswer = StoredAnswer(answer: PushAnswer, createdAt: int)

  type BatchLog = map<BatchKey, StoredAnswer>

  datatype Account = Account(core: Core, batches: BatchLog)

  datatype PushRequest = PushRequest(device: string, batchId: string, changes: seq<RawChange>)

  datatype PushResult = PushResult(account: Account, answer: Result<PushAnswer, WriteError>, committed: bool)

  /** The answer still replayable for a batch. */
  function FindAnswer(batches: BatchLog, key: BatchKey, now: int, window: nat): Option<PushAnswer> {
    if key in batches && batches[key].createdAt > now - window then Some(batches[key].answer) else None
  }

  /** Recording an answer, and on a sampled push dropping the device's expired ones. */
  function RecordAnswer(batches: BatchLog, key: BatchKey, answer: PushAnswer, now: int, window: nat,
                        prune: bool): BatchLog {
    var recorded := batches[key := StoredAnswer(answer, now)];
    if !prune then recorded
    else map other | other in recorded && !(other.device == key.device && recorded[other].createdAt < now - window)
           :: recorded[other]
  }

  function Push(account: Account, request: PushRequest, now: int, window: nat, prune: bool): PushResult {
    var key := BatchKey(request.device, request.batchId);
    match FindAnswer(account.batches, key, now, window)
    case Some(answer) => PushResult(account, Ok(answer), false)
    case None =>
      match ApplyEach(account.core, Decode(request.changes), request.device)
      case Err(error) => PushResult(account, Err(error), false)
      case Ok(effect) =>
        PushResult(Account(effect.core, RecordAnswer(account.batches, key, effect.answer, now, window, prune)),
                   Ok(effect.answer),
                   effect.answer.applied != [])
  }

  // ------------------------------------------------------------------ what a loop has built so far

  /** What one kind's run needs from the database, read at once. */
  datatype Context = Context(currentById: map<string, Row>, existingParents: set<string>,
                             storedBlobs: map<Digest, nat>, purgedIds: set<string>)

  type AcceptedIds = map<Kind, set<string>>

  predicate AcceptedHere(ids: AcceptedIds, kind: Kind, id: string) {
    kind in ids && id in ids[kind]
  }

  ghost predicate SameAccepted(ids: AcceptedIds, accepted: set<Key>) {
    forall key: Key :: key in accepted <==> AcceptedHere(ids, key.kind, key.id)
  }

  /** The facts the loop assembles for one change out of its run's context. */
  function ContextFacts(context: Context, ids: AcceptedIds, change: Change): Facts {
    if change.Refused? then Facts(None, false, map[], false)
    else
      var parentKind := ParentKind(change.key.kind);
      var parentId := ParentId(change.fields);
      Facts(if change.key.id in context.currentById then Some(context.currentById[change.key.id]) else None,
            parentKind.Some? && (parentId in context.existingParents || AcceptedHere(ids, parentKind.value, parentId)),
            context.storedBlobs,
            change.key.id in context.purgedIds)
  }

  /** A context that answers every question one change of its run asks. */
  ghost predicate Answers(context: Context, core: Core, change: Change) {
    change.Decoded? ==>
      && (change.key.id in context.currentById <==> change.key in core.store.rows)
      && (change.key in core.store.rows ==> context.currentById[change.key.id] == core.store.rows[change.key])
      && (change.key.id in context.purgedIds <==> change.key in core.purges)
      && (ParentKind(change.key.kind).Some? ==>
            (ParentId(change.fields) in context.existingParents <==>
             Key(ParentKind(change.key.kind).value, ParentId(change.fields)) in core.store.rows))
      && (change.deletedAt.None? ==>
            forall digest :: digest in change.required ==>
              (digest in context.storedBlobs <==> digest in core.blobs) &&
              (digest in core.blobs ==> context.storedBlobs[digest] == core.blobs[digest]))
  }

  /** An attachment requires the blob its own id names; nothing else has a size to compare. */
  ghost predicate NamesItsBlob(change: Change) {
    change.Decoded? && change.fields.AttachmentFields? ==> change.required == [change.key.id]
  }

  lemma DecodedNamesItsBlob(raw: RawChange, seen: set<Key>)
    ensures NamesItsBlob(DecodeOne(raw, seen))
  {
  }

  lemma {:induction false} DecodeEachNamesBlobs(raws: seq<RawChange>)
    ensures forall change :: change in DecodeEach(raws) ==> NamesItsBlob(change)
  {
    if raws != [] {
      DecodeEachNamesBlobs(raws[..|raws| - 1]);
      DecodedNamesItsBlob(raws[|raws| - 1], Seen(raws[..|raws| - 1]));
    }
  }

  lemma DecodeNamesBlobs(raws: seq<RawChange>)
    ensures forall change :: change in Decode(raws) ==> NamesItsBlob(change)
  {
    DecodeEachNamesBlobs(raws);
    SortByRankIsStable(DecodeEach(raws));
    forall change | change in Decode(raws)
      ensures NamesItsBlob(change)
    {
      assert change in multiset(Decode(raws));
      assert change in DecodeEach(raws);
    }
  }

  /** Reading only what a run asks about decides every change of it the same way. */
  lemma ContextJudgesTheSame(context: Context, core: Core, ids: AcceptedIds, accepted: set<Key>, change: Change,
                             writer: string)
    requires Answers(context, core, change) && SameAccepted(ids, accepted) && NamesItsBlob(change)
    ensures Judge(change, ContextFacts(context, ids, change), writer) ==
            Judge(change, PlannedFacts(core, accepted, change), writer)
  {
    if change.Decoded? {
      var facts, planned := ContextFacts(context, ids, change), PlannedFacts(core, accepted, change);
      assert facts.current == planned.current && facts.retired == planned.retired;
      if change.deletedAt.None? {
        assert (exists digest :: digest in change.required && digest !in facts.held) <==>
               (exists digest :: digest in change.required && digest !in planned.held);
        if change.fields.AttachmentFields? {
          assert change.key.id in change.required;
        }
      }
    }
  }

  /** The lists and the accepted-id sets the loop over runs grows. */
  datatype Decided = Decided(applied: seq<AppliedChange>, rejected: seq<RejectedChange>,
                             writes: seq<PendingWrite>, acceptedIds: AcceptedIds)

  ghost predicate Tracks(decided: Decided, plan: Plan) {
    && decided.applied == AppliedIn(plan.outcomes)
    && decided.rejected == RejectedIn(plan.outcomes)
    && decided.writes == plan.writes
    && SameAccepted(decided.acceptedIds, plan.accepted)
  }

  function Remember(ids: AcceptedIds, key: Key): AcceptedIds {
    ids[key.kind := (if key.kind in ids then ids[key.kind] else {}) + {key.id}]
  }

  lemma ListsGrow(outcomes: seq<Outcome>, next: Outcome)
    ensures AppliedIn(outcomes + [next]) == AppliedIn(outcomes) + (if next.Applied? then [next.applied] else [])
    ensures RejectedIn(outcomes + [next]) == RejectedIn(outcomes) + (if next.Rejected? then [next.rejected] else [])
  {
    assert (outcomes + [next])[..|outcomes|] == outcomes;
  }

  lemma DecisionTracks(decided: Decided, plan: Plan, verdict: Verdict)
    requires Tracks(decided, plan)
    ensures verdict.Reject? ==>
              Tracks(decided.(rejected := decided.rejected + [verdict.rejection]), PlanOne(plan, verdict))
    ensures verdict.Accept? ==>
              var write := verdict.write;
              var applied := AppliedChange(KindName(write.key.kind), write.key.id, write.baseVersion + 1);
              Tracks(Decided(decided.applied + [applied], decided.rejected, decided.writes + [write],
                             Remember(decided.acceptedIds, write.key)),
                     PlanOne(plan, verdict))
  {
    ListsGrow(plan.outcomes, OutcomeOf(verdict));
  }

  lemma RunStep(core: Core, before: seq<Change>, run: seq<Change>, i: nat, context: Context, decided: Decided,
                writer: string)
    requires i < |run| && Answers(context, core, run[i]) && NamesItsBlob(run[i])
    requires Tracks(decided, PlanOf(core, before + run[..i], writer))
    ensures var verdict := Judge(run[i], ContextFacts(context, decided.acceptedIds, run[i]), writer);
            && (verdict.Reject? ==>
                  Tracks(decided.(rejected := decided.rejected + [verdict.rejection]),
                         PlanOf(core, before + run[..i + 1], writer)))
            && (verdict.Accept? ==>
                  var write := verdict.write;
                  var applied := AppliedChange(KindName(write.key.kind), write.key.id, write.baseVersion + 1);
                  Tracks(Decided(decided.applied + [applied], decided.rejected, decided.writes + [write],
                                 Remember(decided.acceptedIds, write.key)),
                         PlanOf(core, before + run[..i + 1], writer)))
  {
    hide Judge, AppliedIn, RejectedIn, ContextFacts, PlannedFacts;
    var change, plan := run[i], PlanOf(core, before + run[..i], writer);
    assert (before + run[..i + 1])[..|before| + i] == before + run[..i];
    ContextJudgesTheSame(context, core, decided.acceptedIds, plan.accepted, change, writer);
    DecisionTracks(decided, plan, Judge(change, PlannedFacts(core, plan.accepted, change), writer));
  }

  lemma ReplayedPush(account: Account, request: PushRequest, now: int, window: nat, prune: bool)
    ensures var found := FindAnswer(account.batches, BatchKey(request.device, request.batchId), now, window);
            found.Some? ==>
              Push(account, request, now, window, prune) == PushResult(account, Ok(found.value), false)
  {
  }

  /** A push that is not a replay, in terms of the engine's plan. */
  lemma FreshPush(account: Account, request: PushRequest, now: int, window: nat, prune: bool)
    requires FindAnswer(account.batches, BatchKey(request.device, request.batchId), now, window).None?
    ensures var core, changes := account.core, Decode(request.changes);
            var plan := PlanOf(core, changes, request.device);
            var cursor := if plan.writes == [] then core.counter else core.counter + 1;
            var answer := PushAnswer(AppliedIn(plan.outcomes), RejectedIn(plan.outcomes), cursor);
            var batches := RecordAnswer(account.batches, BatchKey(request.device, request.batchId), answer, now,
                                        window, prune);
            match WriteAll(core.store, plan.writes, core.counter + 1)
            case Err(error) => Push(account, request, now, window, prune) == PushResult(account, Err(error), false)
            case Ok(store) =>
              Push(account, request, now, window, prune) ==
              PushResult(Account(core.(counter := cursor, store := store), batches), Ok(answer), plan.writes != [])
  {
    DecodeIsOrderedAndDistinct(request.changes);
    PlanIsApplied(account.core, Decode(request.changes), request.device);
  }

  /** The changes of one run, decided against its context; nothing is written. */
  method DecideRun(ghost core: Core, ghost before: seq<Change>, run: seq<Change>, context: Context,
                   soFar: Decided, writer: string)
    returns (decided: Decided)
    requires forall change :: change in run ==> NamesItsBlob(change)
    requires forall change :: change in run ==> Answers(context, core, change)
    requires Tracks(soFar, PlanOf(core, before, writer))
    ensures Tracks(decided, PlanOf(core, before + run, writer))
  {
    hide *;
    decided := soFar;
    assert before + run[..0] == before;
    for i := 0 to |run|
      invariant Tracks(decided, PlanOf(core, before + run[..i], writer))
    {
      var change := run[i];
      RunStep(core, before, run, i, context, decided, writer);
      var verdict := Judge(change, ContextFacts(context, decided.acceptedIds, change), writer);
      match verdict
      case Reject(rejection) =>
        decided := decided.(rejected := decided.rejected + [rejection]);
      case Accept(write) =>
        var applied := AppliedChange(KindName(write.key.kind), write.key.id, write.baseVersion + 1);
        decided := Decided(decided.applied + [applied], decided.rejected, decided.writes + [write],
                           Remember(decided.acceptedIds, write.key));
    }
    assert run[..|run|] == run;
  }

  // ------------------------------------------------------------------ the account's tables

  class AccountDatabase {
    var changeSeq: nat
    var rows: Rows
    var refs: set<PageRef>
    var purges: map<Key, nat>
    var blobs: map<Digest, nat>
    var batches: BatchLog

    ghost function CoreView(): Core
      reads this
    {
      Core(changeSeq, Store(rows, refs), purges, blobs)
    }

    ghost function View(): Account
      reads this
    {
      Account(CoreView(), batches)
    }

    constructor (account: Account)
      ensures View() == account
    {
      changeSeq := account.core.counter;
      rows, refs := account.core.store.rows, account.core.store.refs;
      purges, blobs := account.core.purges, account.core.blobs;
      batches := account.batches;
    }

    /** The four questions of one run, each filled row by row. */
    method ReadChangeContext(kind: Kind, entityIds: seq<string>, parentIds: seq<string>, digests: seq<Digest>)
      returns (context: Context)
      ensures forall id :: id in entityIds ==>
                && (id in context.currentById <==> Key(kind, id) in rows)
                && (Key(kind, id) in rows ==> context.currentById[id] == rows[Key(kind, id)])
                && (id in context.purgedIds <==> Key(kind, id) in purges)
      ensures ParentKind(kind).Some? && entityIds != [] ==>
                forall id :: id in parentIds ==>
                  (id in context.existingParents <==> Key(ParentKind(kind).value, id) in rows)
      ensures entityIds != [] ==>
                forall digest :: digest in digests ==>
                  && (digest in context.storedBlobs <==> digest in blobs)
                  && (digest in blobs ==> context.storedBlobs[digest] == blobs[digest])
    {
      var current: map<string, Row>, parents: set<string> := map[], {};
      var stored: map<Digest, nat>, purged: set<string> := map[], {};
      if |entityIds| == 0 {
        return Context(current, parents, stored, purged);
      }

      for i := 0 to |entityIds|
        invariant forall id :: id in current ==> Key(kind, id) in rows && current[id] == rows[Key(kind, id)]
        invariant forall id :: id in purged ==> Key(kind, id) in purges
        invariant forall id :: id in entityIds[..i] && Key(kind, id) in rows ==> id in current
        invariant forall id :: id in entityIds[..i] && Key(kind, id) in purges ==> id in purged
      {
        var id := entityIds[i];
        if Key(kind, id) in rows {
          current := current[id := rows[Key(kind, id)]];
        }
        if Key(kind, id) in purges {
          purged := purged + {id};
        }
      }

      if ParentKind(kind).Some? {
        var parentKind := ParentKind(kind).value;
        for i := 0 to |parentIds|
          invariant forall id :: id in parents ==> Key(parentKind, id) in rows
          invariant forall id :: id in parentIds[..i] && Key(parentKind, id) in rows ==> id in parents
        {
          if Key(parentKind, parentIds[i]) in rows {
            parents := parents + {parentIds[i]};
          }
        }
      }

      for i := 0 to |digests|
        invariant forall digest :: digest in stored ==> digest in blobs && stored[digest] == blobs[digest]
        invariant forall digest :: digest in digests[..i] && digest in blobs ==> digest in stored
      {
        if digests[i] in blobs {
          stored := stored[digests[i] := blobs[digests[i]]];
        }
      }

      return Context(current, parents, stored, purged);
    }

    /** Gathers a run's ids, parents and digests, each digest once, and asks for all of it together. */
    method ReadBatchContext(kind: Kind, run: seq<Change>) returns (context: Context)
      requires forall change :: change in run && change.Decoded? ==> change.key.kind == kind
      ensures forall change :: change in run ==> Answers(context, CoreView(), change)
    {
      var entityIds: seq<string>, parentIds: seq<string> := [], [];
      var digests: seq<Digest>, seenDigests: set<Digest> := [], {};
      for i := 0 to |run|
        invariant forall digest :: digest in seenDigests <==> digest in digests
        invariant forall change :: change in run[..i] && change.Decoded? ==>
                    && change.key.id in entityIds
                    && (ParentKind(kind).Some? ==> ParentId(change.fields) in parentIds)
                    && (change.deletedAt.None? ==> forall digest :: digest in change.required ==> digest in digests)
      {
        var change := run[i];
        if change.Refused? {
          continue;
        }
        entityIds := entityIds + [change.key.id];
        if ParentKind(kind).Some? {
          parentIds := parentIds + [ParentId(change.fields)];
        }
        if change.deletedAt.Some? {
          continue;
        }
        ghost var gathered := digests;
        for j := 0 to |change.required|
          invariant forall digest :: digest in seenDigests <==> digest in digests
          invariant forall digest :: digest in change.required[..j] ==> digest in digests
          invariant forall digest :: digest in gathered ==> digest in digests
        {
          var digest := change.required[j];
          if digest in seenDigests {
            continue;
          }
          seenDigests := seenDigests + {digest};
          digests := digests + [digest];
        }
      }
      context := ReadChangeContext(kind, entityIds, parentIds, digests);
    }

    /** Rows leave the pipeline in order; the first refused one fails the transaction. */
    method WriteChanges(writes: seq<PendingWrite>, allocatedSeq: nat) returns (result: Result<Store, WriteError>)
      ensures result == WriteAll(Store(rows, refs), writes, allocatedSeq)
    {
      result := Ok(Store(rows, refs));
      for i := 0 to |writes|
        invariant result == WriteAll(Store(rows, refs), writes[..i], allocatedSeq)
      {
        assert writes[..i + 1][..i] == writes[..i];
        match result
        case Ok(store) => result := WriteOne(store, writes[i], allocatedSeq);
        case Err(_) => // already failed; the remaining results still have to be drained
      }
      assert writes[..|writes|] == writes;
    }

    /** The loop over runs of one kind: each run's reads happen once, for the whole run. */
    method DecideBatch(changes: seq<Change>, writer: string) returns (decided: Decided)
      requires forall change :: change in changes ==> NamesItsBlob(change)
      ensures Tracks(decided, PlanOf(CoreView(), changes, writer))
    {
      hide Judge, PlannedFacts;
      decided := Decided([], [], [], map[]);
      var runStart := 0;
      while runStart < |changes|
        invariant 0 <= runStart <= |changes|
        invariant Tracks(decided, PlanOf(CoreView(), changes[..runStart], writer))
      {
        var runEnd := runStart + 1;
        while runEnd < |changes| && ChangeKind(changes[runEnd]) == ChangeKind(changes[runStart])
          invariant runStart < runEnd <= |changes|
          invariant forall i :: runStart <= i < runEnd ==> ChangeKind(changes[i]) == ChangeKind(changes[runStart])
        {
          runEnd := runEnd + 1;
        }
        var run := changes[runStart..runEnd];
        var kind := ChangeKind(changes[runStart]);
        // A run whose kind could not be resolved was refused while being read and asks nothing.
        var context := Context(map[], {}, map[], {});
        if kind.Some? {
          context := ReadBatchContext(kind.value, run);
        }
        assert changes[..runEnd] == changes[..runStart] + run;
        decided := DecideRun(CoreView(), changes[..runStart], run, context, decided, writer);
        runStart := runEnd;
      }
      assert changes[..|changes|] == changes;
    }

    /**
     One push, in one transaction under the account's lock. A refused transaction leaves every table
     as it was, which here is simply not assigning to them.
     */
    method ApplyChangeBatch(request: PushRequest, now: int, window: nat, prune: bool)
      returns (answer: Result<PushAnswer, WriteError>, committed: bool)
      modifies this
      ensures PushResult(View(), answer, committed) == Push(old(View()), request, now, window, prune)
    {
      hide Push, ApplyEach, Decode, PlanOf, RecordAnswer, AppliedIn, RejectedIn, FindAnswer;
      ghost var expected := Push(View(), request, now, window, prune);
      var batchKey := BatchKey(request.device, request.batchId);
      var replayed := FindAnswer(batches, batchKey, now, window);
      if replayed.Some? {
        ReplayedPush(View(), request, now, window, prune);
        assert expected == PushResult(View(), Ok(replayed.value), false);
        return Ok(replayed.value), false;
      }

      var decoded := DecodeChanges(request.changes);
      DecodeNamesBlobs(request.changes);
      var decided := DecideBatch(decoded, request.device);
      FreshPush(View(), request, now, window, prune);

      var cursor := changeSeq;
      var store := Store(rows, refs);
      if |decided.writes| > 0 {
        cursor := changeSeq + 1;
        var written := WriteChanges(decided.writes, cursor);
        if written.Err? {
          assert expected == PushResult(View(), Err(written.error), false);
          return Err(written.error), false;
        }
        store := written.value;
      }

      var response := PushAnswer(decided.applied, decided.rejected, cursor);
      batches := RecordAnswer(batches, batchKey, response, now, window, prune);
      changeSeq := cursor;
      rows, refs := store.rows, store.refs;
      assert expected == PushResult(View(), Ok(response), |decided.writes| > 0);
      return Ok(response), |decided.writes| > 0;
    }
  }
}
