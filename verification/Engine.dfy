/**
 One push, decided and stored. The engine judges a whole batch against facts read once per kind and
 writes everything at the end; the specification judges and writes one change at a time. The two
 agree, and `ApplyChangeBatch` is proved against the second.
 */
module Engine {
  import opened Outcomes
  import opened Tables
  import opened Changes
  import opened Notebooks

  datatype AppliedChange = AppliedChange(kind: string, id: string, version: nat)

  datatype Outcome = Applied(applied: AppliedChange) | Rejected(rejected: RejectedChange)

  datatype PushAnswer = PushAnswer(applied: seq<AppliedChange>, rejected: seq<RejectedChange>, cursor: nat)

  /** What a push reads and writes of one account, apart from its log of answered batches. */
  datatype Core = Core(counter: nat, store: Store, purges: map<Key, nat>, blobs: map<Digest, nat>)

  // ------------------------------------------------------------------ one change

  /** What the checks guarding one change need to know. */
  datatype Facts = Facts(current: Option<Row>, parentStored: bool, held: map<Digest, nat>, retired: bool)

  datatype Verdict = Reject(rejection: RejectedChange) | Accept(write: PendingWrite)

  function Rejection(change: Change, reason: Reason, current: Option<Row>): Verdict
    requires change.Decoded?
  {
    Reject(RejectedChange(KindName(change.key.kind), change.key.id, reason, current))
  }

  predicate SizeDisagrees(change: Change, held: map<Digest, nat>)
    requires change.Decoded?
  {
    change.fields.AttachmentFields? && change.key.id in held && held[change.key.id] != change.fields.byteCount
  }

  function Accepted(change: Change, current: Option<Row>, writer: string): PendingWrite
    requires change.Decoded?
  {
    var retained := if change.deletedAt.Some? then RetainedFields(change.fields, current, change.deletedAt.value)
                    else None;
    if retained.Some?
    then PendingWrite(change.key, change.baseVersion, None, change.updatedAt, writer, retained.value)
    else PendingWrite(change.key, change.baseVersion, change.deletedAt, change.updatedAt, writer, change.fields)
  }

  /** The checks in the engine's order: parent, blobs, gravestone, version. */
  function Judge(change: Change, facts: Facts, writer: string): Verdict {
    if change.Refused? then Reject(change.rejection)
    else if ParentKind(change.key.kind).Some? && !facts.parentStored then Rejection(change, MissingParent, None)
    else if change.deletedAt.None? && exists digest :: digest in change.required && digest !in facts.held then
      Rejection(change, MissingBlob, None)
    else if change.deletedAt.None? && change.required != [] && SizeDisagrees(change, facts.held) then
      Rejection(change, Malformed, None)
    else if facts.retired then Rejection(change, Purged, None)
    else if facts.current.Some? && facts.current.value.version != change.baseVersion then
      Rejection(change, VersionConflict, facts.current)
    else if facts.current.None? && change.baseVersion != 0 then Rejection(change, VersionConflict, None)
    else Accept(Accepted(change, facts.current, writer))
  }

  function FactsIn(core: Core, rows: Rows, change: Change): Facts {
    if change.Refused? then Facts(None, false, map[], false)
    else
      var parent := ParentOf(change.key.kind, change.fields);
      Facts(if change.key in rows then Some(rows[change.key]) else None,
            parent.Some? && parent.value in rows,
            core.blobs,
            change.key in core.purges)
  }

  function OutcomeOf(verdict: Verdict): Outcome {
    match verdict
    case Reject(rejection) => Rejected(rejection)
    case Accept(write) =>
      Applied(AppliedChange(KindName(write.key.kind), write.key.id, write.baseVersion + 1))
  }

  // ------------------------------------------------------------------ the specification

  /** Where a push stands after a prefix of its changes, each judged and written before the next. */
  datatype Stage = Stage(store: Store, outcomes: seq<Outcome>, failure: Option<WriteError>)

  function StepOne(core: Core, before: Stage, change: Change, writer: string): Stage {
    if before.failure.Some? then before
    else
      var verdict := Judge(change, FactsIn(core, before.store.rows, change), writer);
      match verdict
      case Reject(_) => before.(outcomes := before.outcomes + [OutcomeOf(verdict)])
      case Accept(write) =>
        match WriteOne(before.store, write, core.counter + 1)
        case Err(error) => before.(failure := Some(error))
        case Ok(store) => Stage(store, before.outcomes + [OutcomeOf(verdict)], None)
  }

  function Sequential(core: Core, changes: seq<Change>, writer: string): Stage {
    if changes == [] then Stage(core.store, [], None)
    else StepOne(core, Sequential(core, changes[..|changes| - 1], writer), changes[|changes| - 1], writer)
  }

  function AppliedIn(outcomes: seq<Outcome>): seq<AppliedChange> {
    if outcomes == [] then []
    else
      var last := outcomes[|outcomes| - 1];
      AppliedIn(outcomes[..|outcomes| - 1]) + (if last.Applied? then [last.applied] else [])
  }

  function RejectedIn(outcomes: seq<Outcome>): seq<RejectedChange> {
    if outcomes == [] then []
    else
      var last := outcomes[|outcomes| - 1];
      RejectedIn(outcomes[..|outcomes| - 1]) + (if last.Rejected? then [last.rejected] else [])
  }

  datatype Effect = Effect(core: Core, answer: PushAnswer)

  /** The sequence value moves only when something was applied. */
  function ApplyEach(core: Core, changes: seq<Change>, writer: string): Result<Effect, WriteError> {
    var stage := Sequential(core, changes, writer);
    if stage.failure.Some? then Err(stage.failure.value)
    else
      var applied := AppliedIn(stage.outcomes);
      var counter := if applied == [] then core.counter else core.counter + 1;
      Ok(Effect(core.(counter := counter, store := stage.store),
                PushAnswer(applied, RejectedIn(stage.outcomes), counter)))
  }

  // ------------------------------------------------------------------ the engine's own order of work

  /** What the engine has after a prefix: nothing written yet, only a list of writes. */
  datatype Plan = Plan(outcomes: seq<Outcome>, writes: seq<PendingWrite>, accepted: set<Key>)

  /** Facts as the engine has them: stored rows as they were, plus what this batch accepted so far. */
  function PlannedFacts(core: Core, accepted: set<Key>, change: Change): Facts {
    if change.Refused? then Facts(None, false, map[], false)
    else
      var parent := ParentOf(change.key.kind, change.fields);
      Facts(if change.key in core.store.rows then Some(core.store.rows[change.key]) else None,
            parent.Some? && (parent.value in core.store.rows || parent.value in accepted),
            core.blobs,
            change.key in core.purges)
  }

  function PlanOne(before: Plan, verdict: Verdict): Plan {
    match verdict
    case Reject(_) => before.(outcomes := before.outcomes + [OutcomeOf(verdict)])
    case Accept(write) =>
      Plan(before.outcomes + [OutcomeOf(verdict)], before.writes + [write], before.accepted + {write.key})
  }

  function PlanOf(core: Core, changes: seq<Change>, writer: string): Plan {
    if changes == [] then Plan([], [], {})
    else
      var before := PlanOf(core, changes[..|changes| - 1], writer);
      var change := changes[|changes| - 1];
      PlanOne(before, Judge(change, PlannedFacts(core, before.accepted, change), writer))
  }

  /** The only write the database can refuse is a second document body for one page. */
  ghost predicate Agrees(core: Core, plan: Plan, stage: Stage) {
    match WriteAll(core.store, plan.writes, core.counter + 1)
    case Err(error) => stage.failure == Some(error) && error.SecondBodyForPage?
    case Ok(store) =>
      && stage == Stage(store, plan.outcomes, None)
      && store.rows.Keys == core.store.rows.Keys + plan.accepted
      && (forall key :: key in core.store.rows && key !in plan.accepted ==>
            key in store.rows && store.rows[key] == core.store.rows[key])
  }

  lemma {:induction false} PlannedKeysComeFromChanges(core: Core, changes: seq<Change>, writer: string)
    ensures forall key :: key in PlanOf(core, changes, writer).accepted ==>
              exists i :: 0 <= i < |changes| && changes[i].Decoded? && changes[i].key == key
  {
    if changes != [] {
      var prefix, last := changes[..|changes| - 1], changes[|changes| - 1];
      PlannedKeysComeFromChanges(core, prefix, writer);
      forall key | key in PlanOf(core, changes, writer).accepted
        ensures exists i :: 0 <= i < |changes| && changes[i].Decoded? && changes[i].key == key
      {
        if key in PlanOf(core, prefix, writer).accepted {
          var i :| 0 <= i < |prefix| && prefix[i].Decoded? && prefix[i].key == key;
          assert changes[i].key == key;
        } else {
          assert last.Decoded? && last.key == key;
        }
      }
    }
  }

  lemma LastKeyIsNew(core: Core, changes: seq<Change>, writer: string)
    requires changes != [] && DistinctKeys(changes) && changes[|changes| - 1].Decoded?
    ensures changes[|changes| - 1].key !in PlanOf(core, changes[..|changes| - 1], writer).accepted
  {
    var prefix := changes[..|changes| - 1];
    PlannedKeysComeFromChanges(core, prefix, writer);
    assert forall i :: 0 <= i < |prefix| ==> prefix[i] == changes[i];
  }

  /**
   Judging everything against the facts read first and writing at the end is the same as judging and
   writing one change at a time, because no entity appears twice and a parent is either stored or
   already accepted. ErrConcurrentWrite and a failed foreign key are out of reach.
   */
  lemma {:induction false} DeferredIsSequential(core: Core, changes: seq<Change>, writer: string)
    requires DistinctKeys(changes)
    ensures Agrees(core, PlanOf(core, changes, writer), Sequential(core, changes, writer))
  {
    if changes != [] {
      var prefix, change := changes[..|changes| - 1], changes[|changes| - 1];
      DeferredIsSequential(core, prefix, writer);
      var plan, stage := PlanOf(core, prefix, writer), Sequential(core, prefix, writer);
      if change.Decoded? {
        LastKeyIsNew(core, changes, writer);
      }
      var verdict := Judge(change, PlannedFacts(core, plan.accepted, change), writer);
      if stage.failure.None? {
        assert PlannedFacts(core, plan.accepted, change) == FactsIn(core, stage.store.rows, change);
      }
      if verdict.Accept? {
        assert (plan.writes + [verdict.write])[..|plan.writes|] == plan.writes;
        AcceptedWriteFits(change, PlannedFacts(core, plan.accepted, change), writer);
      }
    }
  }

  /** An accepted write names the change's own entity and parent, at the version it was judged against. */
  lemma AcceptedWriteFits(change: Change, facts: Facts, writer: string)
    requires Judge(change, facts, writer).Accept?
    ensures var write := Judge(change, facts, writer).write;
            && change.Decoded?
            && write.key == change.key
            && write.baseVersion == change.baseVersion
            && ParentOf(write.key.kind, write.fields) == ParentOf(change.key.kind, change.fields)
            && (facts.current.Some? ==> facts.current.value.version == write.baseVersion)
            && (facts.current.None? ==> write.baseVersion == 0)
            && !facts.retired
            && (ParentOf(write.key.kind, write.fields).Some? ==> facts.parentStored)
  {
  }

  lemma {:induction false} AppliedMatchesWrites(core: Core, changes: seq<Change>, writer: string)
    ensures var plan := PlanOf(core, changes, writer);
            |AppliedIn(plan.outcomes)| == |plan.writes| && |plan.outcomes| == |changes|
  {
    if changes != [] {
      AppliedMatchesWrites(core, changes[..|changes| - 1], writer);
      var before := PlanOf(core, changes[..|changes| - 1], writer);
      var plan := PlanOf(core, changes, writer);
      assert plan.outcomes[..|before.outcomes|] == before.outcomes;
    }
  }

  /** The refinement as a push sees it: the plan's lists and its pipeline are the answer and the store. */
  lemma {:induction false} PlanIsApplied(core: Core, changes: seq<Change>, writer: string)
    requires DistinctKeys(changes)
    ensures var plan := PlanOf(core, changes, writer);
            var counter := if plan.writes == [] then core.counter else core.counter + 1;
            var applied := AppliedIn(plan.outcomes);
            && (applied == [] <==> plan.writes == [])
            && match WriteAll(core.store, plan.writes, core.counter + 1)
               case Err(error) => ApplyEach(core, changes, writer) == Err(error)
               case Ok(store) =>
                 ApplyEach(core, changes, writer) ==
                 Ok(Effect(core.(counter := counter, store := store),
                           PushAnswer(applied, RejectedIn(plan.outcomes), counter)))
  {
    hide Judge, PlanOf, Sequential, WriteAll, WriteOne, AppliedIn, RejectedIn;
    DeferredIsSequential(core, changes, writer);
    AppliedMatchesWrites(core, changes, writer);
  }
}
