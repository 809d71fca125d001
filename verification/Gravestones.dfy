/**
 How long the purge log remembers, over whole runs and whatever the devices push: a gravestone stands until
 an erasure finds every active device past it, and for exactly as long no push can store the erased again.
 */
module Gravestones {
  import opened Tables
  import opened Changes
  import opened Engine
  import opened PushLaws
  import opened BatchAnswers
  import opened PushPull
  import opened PushAnswers
  import opened Admin
  import opened AccountRuns
  import opened Pull
  import opened Replica
  import opened Agreement

  // ------------------------------------------------------------------ what a step does to the log

  ghost predicate Erases(system: System, step: Step) {
    step.Erase? && EraseNotebook(system.core, system.devices, step.id).Ok?
  }

  /** Every active device has presented a cursor at or past this value. */
  ghost predicate EveryonePast(system: System, seqValue: nat) {
    forall device :: Active(system, device) ==> seqValue <= system.devices[device].lastPulledSeq
  }

  lemma OnlyErasingTouchesTheLog(core: Core, op: Op)
    requires !op.Erased?
    ensures Perform(core, op).purges == core.purges
  {
    hide Sequential, Decode, AppliedIn, RejectedIn, IdFault;
  }

  lemma ErasingPrunesTheLog(core: Core, devices: Devices, id: string)
    requires Retired(core) && EraseNotebook(core, devices, id).Ok?
    ensures var after := EraseNotebook(core, devices, id).value;
            && after.purges == PrunePurges(core.purges, devices)[NotebookKey(id) := after.counter]
            && after.counter == core.counter + 1 && NotebookKey(id) !in core.purges
  {
    NoGravestoneStandsTwice(core, devices, id);
    hide DeleteSubtree, PrunePurges, IdFault;
    assert NotebookKey(id) in core.store.rows.Keys;
  }

  lemma AGravestoneByOneErasure(system: System, erased: string, sizes: Sizes, id: string, seqValue: nat)
    requires Retired(system.core) && seqValue <= system.core.counter && Erases(system, Erase(erased))
    ensures var after := Advance(system, Erase(erased), sizes);
            && (Standing(after.core, id, seqValue) <==>
                  Standing(system.core, id, seqValue) && !EveryonePast(system, seqValue))
            && (NotebookKey(id) in after.core.purges && erased != id ==>
                  NotebookKey(id) in system.core.purges &&
                  after.core.purges[NotebookKey(id)] == system.core.purges[NotebookKey(id)])
  {
    ErasingPrunesTheLog(system.core, system.devices, erased);
    PruningAdds(system, id);
    if NotebookKey(id) in system.core.purges {
      PruningWaitsForEveryone(system.core.purges, system.devices, NotebookKey(id));
    }
    hide EraseNotebook, PrunePurges;
  }

  lemma OnlyFourStepsCommit(system: System, step: Step, sizes: Sizes)
    requires !step.Push? && !step.Erase? && !step.Unhost? && !step.Attach?
    ensures Advance(system, step, sizes).core == system.core
  {
    hide Perform, EraseNotebook, Proceed, NotebookKey;
  }

  lemma OtherStepsKeepTheLog(system: System, step: Step, sizes: Sizes)
    requires !Erases(system, step)
    ensures Advance(system, step, sizes).core.purges == system.core.purges
  {
    if step.Push? {
      OnlyErasingTouchesTheLog(system.core, Pushed(step.raws, step.device));
      hide Perform, EraseNotebook, Proceed;
    } else if step.Unhost? {
      OnlyErasingTouchesTheLog(system.core, Unhosted(step.id, step.nowMillis));
      hide Perform, EraseNotebook, Proceed;
    } else if step.Attach? {
      if OnAttachments(step.op) { OnlyErasingTouchesTheLog(system.core, step.op); }
      hide Perform, EraseNotebook, Proceed;
    } else if step.Erase? {
      hide Perform, EraseNotebook, Proceed;
    } else {
      OnlyFourStepsCommit(system, step, sizes);
      hide Advance;
    }
  }

  /** One step, and one gravestone: it goes exactly when an erasure finds every active device past it. */
  lemma AGravestoneByOneStep(system: System, step: Step, sizes: Sizes, id: string, seqValue: nat)
    requires Sound(system.core) && seqValue <= system.core.counter
    ensures var after := Advance(system, step, sizes);
            Standing(after.core, id, seqValue) <==>
            Standing(system.core, id, seqValue) && !(Erases(system, step) && EveryonePast(system, seqValue))
    ensures var after := Advance(system, step, sizes);
            NotebookKey(id) in after.core.purges && !(Erases(system, step) && step.id == id) ==>
              NotebookKey(id) in system.core.purges &&
              after.core.purges[NotebookKey(id)] == system.core.purges[NotebookKey(id)]
  {
    if Erases(system, step) {
      AGravestoneByOneErasure(system, step.id, sizes, id, seqValue);
    } else {
      OtherStepsKeepTheLog(system, step, sizes);
    }
    hide Advance, EraseNotebook, EveryonePast;
  }

  lemma PruningAdds(system: System, id: string)
    ensures NotebookKey(id) in PrunePurges(system.core.purges, system.devices) ==>
              NotebookKey(id) in system.core.purges
  {
  }

  // ------------------------------------------------------------------ over whole runs

  ghost function At(steps: seq<Step>, sizes: Sizes, k: nat): System
    requires k <= |steps|
  {
    Run(EMPTY_SYSTEM, steps[..k], sizes)
  }

  /** The administrator erased this notebook at this step. */
  ghost predicate ErasedAt(steps: seq<Step>, sizes: Sizes, k: nat, id: string) {
    k < |steps| && Erases(At(steps, sizes, k), steps[k]) && steps[k].id == id
  }

  /** A later erasure, before the state looked at, found every active device past this value. */
  ghost predicate LetGo(steps: seq<Step>, sizes: Sizes, k: nat, n: nat, seqValue: nat) {
    exists j :: k < j < n <= |steps| && Erases(At(steps, sizes, j), steps[j]) &&
                EveryonePast(At(steps, sizes, j), seqValue)
  }

  lemma AtNext(steps: seq<Step>, sizes: Sizes, k: nat)
    requires k < |steps|
    ensures At(steps, sizes, k + 1) == Advance(At(steps, sizes, k), steps[k], sizes)
    ensures Sound(At(steps, sizes, k).core)
    ensures At(steps, sizes, k).core.counter <= At(steps, sizes, k + 1).core.counter
  {
    OneMoreStep(steps, sizes, k);
    EveryRunReads(steps[..k], sizes);
    hide Advance, Run, Sound;
    AdvanceStamps(At(steps, sizes, k), steps[k], sizes);
  }

  /** Right after its erasure the gravestone stands, at the counter the erasure took. */
  lemma TheErasureIsRecorded(steps: seq<Step>, sizes: Sizes, k: nat, id: string)
    requires ErasedAt(steps, sizes, k, id)
    ensures Standing(At(steps, sizes, k + 1).core, id, At(steps, sizes, k + 1).core.counter)
  {
    AtNext(steps, sizes, k);
    var system := At(steps, sizes, k);
    hide Run, EraseNotebook, At, Closed, RefsHold, Sequenced, Fitting, PrunePurges;
    ErasingPrunesTheLog(system.core, system.devices, id);
  }

  lemma LetGoGrows(steps: seq<Step>, sizes: Sizes, k: nat, n: nat, seqValue: nat)
    requires k < n < |steps|
    ensures LetGo(steps, sizes, k, n + 1, seqValue) <==>
            || LetGo(steps, sizes, k, n, seqValue)
            || (Erases(At(steps, sizes, n), steps[n]) && EveryonePast(At(steps, sizes, n), seqValue))
  {
    hide At, Erases, EveryonePast;
  }

  /**
   Over every run, whatever the devices push: the gravestone of an erasure stands in a later state if and
   only if no erasure in between found every active device past it.
   */
  lemma {:induction false} AGravestoneStandsUntilEveryoneIsPast(steps: seq<Step>, sizes: Sizes, k: nat, n: nat,
                                                                id: string)
    requires ErasedAt(steps, sizes, k, id) && k < n <= |steps|
    ensures var seqValue := At(steps, sizes, k + 1).core.counter;
            && seqValue <= At(steps, sizes, n).core.counter
            && (Standing(At(steps, sizes, n).core, id, seqValue) <==> !LetGo(steps, sizes, k, n, seqValue))
  {
    hide Standing, At, Advance, Sound, Erases, EveryonePast, ErasedAt;
    var seqValue := At(steps, sizes, k + 1).core.counter;
    if n == k + 1 {
      TheErasureIsRecorded(steps, sizes, k, id);
    } else {
      AGravestoneStandsUntilEveryoneIsPast(steps, sizes, k, n - 1, id);
      AtNext(steps, sizes, n - 1);
      AGravestoneByOneStep(At(steps, sizes, n - 1), steps[n - 1], sizes, id, seqValue);
      LetGoGrows(steps, sizes, k, n - 1, seqValue);
    }
  }

  // ------------------------------------------------------------------ what a device may count on

  /** Active at every state from one to another, and never signed in afresh in between. */
  ghost predicate ActiveSince(steps: seq<Step>, sizes: Sizes, k: nat, n: nat, device: string) {
    && n <= |steps| && (forall j :: k <= j <= n ==> Active(At(steps, sizes, j), device))
    && (forall j :: k <= j < n ==> !(steps[j].SignIn? && steps[j].device == device))
  }

  lemma PresentedOnlyGrows(system: System, step: Step, sizes: Sizes, device: string)
    requires Active(system, device) && Active(Advance(system, step, sizes), device)
    requires !(step.SignIn? && step.device == device)
    ensures system.devices[device].lastPulledSeq <= Advance(system, step, sizes).devices[device].lastPulledSeq
  {
    hide Perform, EraseNotebook, Proceed;
  }

  lemma {:induction false} PresentedBefore(steps: seq<Step>, sizes: Sizes, j: nat, n: nat, device: string)
    requires j <= n && ActiveSince(steps, sizes, j, n, device)
    ensures Active(At(steps, sizes, j), device) && Active(At(steps, sizes, n), device)
    ensures At(steps, sizes, j).devices[device].lastPulledSeq <= At(steps, sizes, n).devices[device].lastPulledSeq
  {
    hide At, Advance, Sound, Active;
    if j < n {
      PresentedBefore(steps, sizes, j, n - 1, device);
      AtNext(steps, sizes, n - 1);
      PresentedOnlyGrows(At(steps, sizes, n - 1), steps[n - 1], sizes, device);
    }
  }

  /**
   A device that was registered when a notebook was erased, and has been active since, finds the gravestone
   standing for as long as it has not presented a cursor at or past it, whatever it carries.
   */
  lemma AGravestoneWaitsForEveryDevice(steps: seq<Step>, sizes: Sizes, k: nat, n: nat, id: string, device: string)
    requires ErasedAt(steps, sizes, k, id) && k < n && ActiveSince(steps, sizes, k, n, device)
    requires At(steps, sizes, n).devices[device].lastPulledSeq < At(steps, sizes, k + 1).core.counter
    ensures Standing(At(steps, sizes, n).core, id, At(steps, sizes, k + 1).core.counter)
  {
    var seqValue := At(steps, sizes, k + 1).core.counter;
    AGravestoneStandsUntilEveryoneIsPast(steps, sizes, k, n, id);
    hide At, Standing, ErasedAt, Erases;
    if LetGo(steps, sizes, k, n, seqValue) {
      var j :| k < j < n <= |steps| && Erases(At(steps, sizes, j), steps[j]) &&
               EveryonePast(At(steps, sizes, j), seqValue);
      PresentedBefore(steps, sizes, j, n, device);
      assert false;
    }
  }

  // ------------------------------------------------------------------ what a push can bring back

  lemma {:induction false} NotebooksNameNoAttachments(raws: seq<RawChange>)
    ensures forall change :: change in DecodeEach(raws) && change.Decoded? && change.key.kind.Notebook? ==>
              change.required == []
  {
    if raws != [] {
      NotebooksNameNoAttachments(raws[..|raws| - 1]);
      hide Seen, Addressed;
    }
  }

  lemma DecodedNotebooksNameNoAttachments(raws: seq<RawChange>, change: Change)
    requires change in Decode(raws) && change.Decoded? && change.key.kind.Notebook?
    ensures change.required == []
  {
    NotebooksNameNoAttachments(raws);
    SortByRankIsStable(DecodeEach(raws));
    hide DecodeEach, SortByRank;
    assert change in multiset(Decode(raws));
    assert change in DecodeEach(raws);
  }

  /** A change to a notebook that is not stored is accepted if and only if it is a new one and no gravestone
      stands for it. */
  lemma AnUnstoredNotebookIsJudged(core: Core, raws: seq<RawChange>, writer: string, i: nat)
    requires i < |Decode(raws)| && Decode(raws)[i].Decoded? && Decode(raws)[i].key.kind.Notebook?
    requires Decode(raws)[i].key !in core.store.rows
    ensures |PlanOf(core, Decode(raws), writer).outcomes| == |Decode(raws)|
    ensures PlanOf(core, Decode(raws), writer).outcomes[i].Applied? <==>
            Decode(raws)[i].baseVersion == 0 && Decode(raws)[i].key !in core.purges
  {
    var change := Decode(raws)[i];
    DecodedNotebooksNameNoAttachments(raws, change);
    OutcomeAt(core, Decode(raws), writer, i);
    var facts := PlannedFacts(core, PlanOf(core, Decode(raws)[..i], writer).accepted, change);
    AcceptanceIsExact(change, facts, writer);
    hide Decode, PlanOf, Judge;
  }

  /** What a push that goes through leaves stored of a notebook that was not. */
  lemma AnUnstoredNotebookIsStored(core: Core, raws: seq<RawChange>, writer: string, i: nat)
    requires ApplyEach(core, Decode(raws), writer).Ok?
    requires i < |Decode(raws)| && Decode(raws)[i].Decoded? && Decode(raws)[i].key.kind.Notebook?
    requires Decode(raws)[i].key !in core.store.rows
    ensures Decode(raws)[i].key in Perform(core, Pushed(raws, writer)).store.rows <==>
            Decode(raws)[i].baseVersion == 0 && Decode(raws)[i].key !in core.purges
  {
    var changes, key := Decode(raws), Decode(raws)[i].key;
    var stage := Sequential(core, changes, writer);
    AnUnstoredNotebookIsJudged(core, raws, writer, i);
    DecodeIsOrderedAndDistinct(raws);
    OutcomesAreThePlans(core, changes, writer);
    AnswersMatchTheStore(core, changes, writer);
    PushAdvances(core, raws, writer);
    assert Perform(core, Pushed(raws, writer)).store == stage.store by {
      hide Sequential, Decode, AppliedIn, RejectedIn, AnswersMatch, DistinctKeys, PlanOf, Advanced;
    }
    hide Sequential, Decode, PlanOf, Perform, ApplyEach, RankOrdered, StoredAs;
    assert stage.outcomes[i].Applied? ==> AppliedAt(changes, stage.outcomes, i, key);
    if j: nat :| AppliedAt(changes, stage.outcomes, j, key) {
      assert j == i;
    }
  }

  lemma {:induction false} OnlyItsOwnGravestone(steps: seq<Step>, sizes: Sizes, k: nat, n: nat, id: string)
    requires ErasedAt(steps, sizes, k, id) && k < n <= |steps|
    requires forall j :: k < j < n ==> !ErasedAt(steps, sizes, j, id)
    ensures NotebookKey(id) in At(steps, sizes, n).core.purges <==>
            Standing(At(steps, sizes, n).core, id, At(steps, sizes, k + 1).core.counter)
  {
    hide At, Advance, Sound, EraseNotebook, EveryonePast;
    var seqValue := At(steps, sizes, k + 1).core.counter;
    if n == k + 1 {
      TheErasureIsRecorded(steps, sizes, k, id);
    } else {
      OnlyItsOwnGravestone(steps, sizes, k, n - 1, id);
      AtNext(steps, sizes, n - 1);
      AGravestoneStandsUntilEveryoneIsPast(steps, sizes, k, n - 1, id);
      AGravestoneByOneStep(At(steps, sizes, n - 1), steps[n - 1], sizes, id, seqValue);
      assert !ErasedAt(steps, sizes, n - 1, id);
    }
  }

  /**
   The gravestone is all that remembers. In every run, whatever the devices push: a push that goes through
   stores an erased notebook anew, under a change that names no version, if and only if some erasure since
   found every active device past the gravestone.
   */
  lemma TheErasedReturnExactlyOnceForgotten(steps: seq<Step>, sizes: Sizes, k: nat, device: string,
                                            raws: seq<RawChange>, i: nat)
    requires var system := At(steps, sizes, |steps|);
             && Active(system, device) && ApplyEach(system.core, Decode(raws), device).Ok?
             && i < |Decode(raws)| && Decode(raws)[i].Decoded? && Decode(raws)[i].key.kind.Notebook?
             && Decode(raws)[i].baseVersion == 0 && Decode(raws)[i].key !in system.core.store.rows
    requires ErasedAt(steps, sizes, k, Decode(raws)[i].key.id)
    requires forall j :: k < j < |steps| ==> !ErasedAt(steps, sizes, j, Decode(raws)[i].key.id)
    ensures Decode(raws)[i].key in Advance(At(steps, sizes, |steps|), Push(device, raws), sizes).core.store.rows <==>
            LetGo(steps, sizes, k, |steps|, At(steps, sizes, k + 1).core.counter)
  {
    var system, id := At(steps, sizes, |steps|), Decode(raws)[i].key.id;
    assert Decode(raws)[i].key == NotebookKey(id);
    hide At, Decode, ApplyEach, Standing, LetGo, ErasedAt, Perform;
    AnUnstoredNotebookIsStored(system.core, raws, device, i);
    OnlyItsOwnGravestone(steps, sizes, k, |steps|, id);
    AGravestoneStandsUntilEveryoneIsPast(steps, sizes, k, |steps|, id);
  }
}
