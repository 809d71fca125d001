/**
 What a client may rely on over any run of the whole protocol: nothing committed is ever stepped over,
 an erased notebook cannot come back through a device that keeps to the protocol, and a replica agrees
 with the server except where deleting beneath a purged notebook took what had been moved out of it.
 */
module Agreement {
  import opened Outcomes
  import opened Tables
  import opened Engine
  import opened PushLaws
  import opened Admin
  import opened AccountRuns
  import opened Delta
  import opened Pull
  import opened Replica

  /** Every row now stored at or below the bound is held, at that version. */
  ghost predicate Agrees(rows: Rows, local: Rows, bound: nat) {
    forall key :: key in rows && rows[key].changeSeq <= bound ==> key in local && local[key] == rows[key]
  }

  // ------------------------------------------------------------------ the pieces

  lemma CommitKeepsAgreement(before: Core, after: Core, local: Rows, bound: nat)
    requires Stamped(before, after) && bound <= before.counter
    requires Agrees(before.store.rows, local, bound)
    ensures Agrees(after.store.rows, local, bound)
  {
  }

  lemma MergingAgrees(rows: Rows, local: Rows, cursor: nat, pageEnd: nat, page: Rows)
    requires Agrees(rows, local, cursor) && PageCovers(rows, cursor, pageEnd, page)
    ensures Agrees(rows, local + page, pageEnd)
  {
  }

  /**
   A row that was beneath a root when the client last heard of it, has been moved since, and will only
   be delivered past the bound; while something still hanging from it was delivered before and will
   not be again.
   */
  ghost predicate Stranded(rows: Rows, local: Rows, roots: set<Key>, bound: nat) {
    exists moved, child ::
      && moved in rows && bound < rows[moved].changeSeq && BeneathAny(local, moved, roots)
      && child in rows && rows[child].changeSeq <= bound && RowParent(rows, child) == Some(moved)
  }

  /** From a taken row, walk up to the first ancestor the client has yet to hear about. */
  lemma {:induction false} ATakenRowIsStranded(rows: Rows, local: Rows, roots: set<Key>, bound: nat, key: Key)
    requires Closed(rows) && Agrees(rows, local, bound)
    requires forall root :: root in roots ==> root !in rows
    requires key in rows && rows[key].changeSeq <= bound && BeneathAny(local, key, roots)
    ensures Stranded(rows, local, roots, bound)
    decreases Rank(key.kind)
  {
    var root :| root in roots && Under(local, key, root);
    assert key != root;
    var parent := RowParent(local, key).value;
    assert RowParent(rows, key) == Some(parent);
    assert Under(local, parent, root);
    if rows[parent].changeSeq <= bound {
      ATakenRowIsStranded(rows, local, roots, bound, parent);
    }
  }

  /**
   Dropping roots that no longer exist, with everything beneath them, keeps agreement exactly when
   nothing is stranded.
   */
  lemma DroppingAgreesUnlessStranded(rows: Rows, local: Rows, roots: set<Key>, bound: nat)
    requires Closed(rows) && Agrees(rows, local, bound)
    requires forall root :: root in roots ==> root !in rows
    ensures Agrees(rows, local - Cascade(local, roots), bound) <==> !Stranded(rows, local, roots, bound)
  {
    CascadeIsTheSubtree(local, roots);
    hide Cascade, Closed;
    if Stranded(rows, local, roots, bound) {
      var moved, child :|
        && moved in rows && bound < rows[moved].changeSeq && BeneathAny(local, moved, roots)
        && child in rows && rows[child].changeSeq <= bound && RowParent(rows, child) == Some(moved);
      assert RowParent(local, child) == Some(moved);
      assert child in Beneath(local, Cascade(local, roots));
    } else {
      forall key | key in rows && rows[key].changeSeq <= bound
        ensures key !in Cascade(local, roots)
      {
        if BeneathAny(local, key, roots) {
          ATakenRowIsStranded(rows, local, roots, bound, key);
        }
      }
    }
  }

  // ------------------------------------------------------------------ one step of the whole system

  /** Every client has been told of everything at or below its cursor. */
  ghost predicate AllTold(system: System) {
    forall device :: device in system.clients ==>
      Agrees(system.core.store.rows, system.clients[device].told, system.clients[device].cursor)
  }

  /** Every client's replica holds everything at or below its cursor. */
  ghost predicate AllAgree(system: System) {
    forall device :: device in system.clients ==>
      Agrees(system.core.store.rows, system.clients[device].replica, system.clients[device].cursor)
  }

  ghost predicate Strands(system: System, step: Step) {
    match step
    case Apply(device) =>
      && device in system.clients && system.clients[device].phase.Answered?
      && Stranded(system.core.store.rows, Merged(system.clients[device]), system.clients[device].phase.purged,
                  system.clients[device].phase.pageEnd)
    case HearPurged(device, id) =>
      && device in system.clients && id in system.erased
      && Stranded(system.core.store.rows, system.clients[device].replica, {NotebookKey(id)},
                  system.clients[device].cursor)
    case _ => false
  }

  /** What every step keeps, with no assumption on what the devices push. */
  ghost predicate Readable(system: System) {
    Sound(system.core) && forall device :: device in system.clients ==> ReadSoFar(system.core, system.clients[device])
  }

  lemma AdvanceStamps(system: System, step: Step, sizes: Sizes)
    requires Sound(system.core)
    ensures Stamped(system.core, Advance(system, step, sizes).core)
    ensures Sound(Advance(system, step, sizes).core)
  {
    hide Proceed, Perform, EraseNotebook, Sound;
    match step {
      case Push(device, raws) =>
        PerformStamps(system.core, Pushed(raws, device));
        PerformKeepsSound(system.core, Pushed(raws, device));
      case Erase(id) =>
        ErasingOnlyRemoves(system.core, system.devices, id);
        ErasingKeepsSound(system.core, system.devices, id);
      case Unhost(id, nowMillis) =>
        PerformStamps(system.core, Unhosted(id, nowMillis));
        PerformKeepsSound(system.core, Unhosted(id, nowMillis));
      case Attach(op) =>
        PerformStamps(system.core, op);
        PerformKeepsSound(system.core, op);
      case _ =>
    }
  }

  /** One installation after a step: proceeding with its request, as it was, or asking for nothing. */
  lemma ClientStepShape(system: System, step: Step, sizes: Sizes, device: string)
    requires device in Advance(system, step, sizes).clients
    ensures var after := Advance(system, step, sizes);
            var next := after.clients[device];
            || (device in system.clients && after.core == system.core &&
                next == Proceed(system.core, system.clients[device], step, sizes))
            || (device in system.clients && next.cursor == system.clients[device].cursor &&
                next.phase == system.clients[device].phase)
            || (next.phase.Idle? && next.cursor == 0)
            || (next.phase.Idle? && device in system.clients && next.cursor == system.clients[device].cursor)
  {
    hide Perform, EraseNotebook, Proceed;
  }

  lemma ClientStepKeepsReads(system: System, step: Step, sizes: Sizes, device: string)
    requires Readable(system) && device in Advance(system, step, sizes).clients
    ensures ReadSoFar(Advance(system, step, sizes).core, Advance(system, step, sizes).clients[device])
  {
    AdvanceStamps(system, step, sizes);
    ClientStepShape(system, step, sizes, device);
    hide Advance, Proceed, Sound, Stamped, ReadSoFar;
    var after := Advance(system, step, sizes);
    var next := after.clients[device];
    if device in system.clients {
      var client := system.clients[device];
      assert ReadSoFar(system.core, client);
      ProceedingKeepsReads(system.core, client, step, sizes);
      CommitKeepsReads(system.core, after.core, client);
      ReadsByCursorAndPhase(after.core, client, next);
    } else {
      ReadsByCursorAndPhase(after.core, next, next);
    }
  }

  /** What has been read depends on where the client stands, not on what it has. */
  lemma ReadsByCursorAndPhase(core: Core, client: Client, next: Client)
    ensures ReadSoFar(core, client) && next.cursor == client.cursor && next.phase == client.phase ==>
              ReadSoFar(core, next)
    ensures ReadSoFar(core, client) && next.cursor == client.cursor && next.phase.Idle? ==> ReadSoFar(core, next)
    ensures next.cursor == 0 && next.phase.Idle? ==> ReadSoFar(core, next)
  {
    hide PageCovers;
  }

  lemma AdvanceKeepsReadable(system: System, step: Step, sizes: Sizes)
    requires Readable(system)
    ensures Readable(Advance(system, step, sizes))
  {
    forall device | device in Advance(system, step, sizes).clients
      ensures ReadSoFar(Advance(system, step, sizes).core, Advance(system, step, sizes).clients[device])
    {
      hide ReadSoFar, Advance;
      ClientStepKeepsReads(system, step, sizes, device);
    }
    AdvanceStamps(system, step, sizes);
    hide ReadSoFar, Advance, Sound;
  }

  lemma HoldsIsReadable(system: System)
    requires Holds(system)
    ensures Readable(system)
  {
    hide Sound, WillHear, PhaseReads;
    forall device | device in system.clients
      ensures ReadSoFar(system.core, system.clients[device])
    {
      assert ClientHolds(system, device);
    }
  }

  /** What a step does to one installation, apart from answering it. */
  ghost predicate ClientKept(system: System, after: System, device: string)
    requires device in after.clients
  {
    var client := after.clients[device];
    || client.cursor == 0
    || (device in system.clients && client.cursor <= system.clients[device].cursor &&
        client.told == system.clients[device].told && client.replica == system.clients[device].replica)
  }

  lemma ProceedingKeepsReplica(core: Core, client: Client, step: Step, sizes: Sizes)
    requires !step.Apply? && !step.HearPurged?
    ensures var next := Proceed(core, client, step, sizes);
            next.cursor <= client.cursor && next.told == client.told && next.replica == client.replica
  {
    hide BoundaryOf, Window, PurgeWindow, NotebooksIn;
  }

  lemma OtherStepsKeepClients(system: System, step: Step, sizes: Sizes, device: string)
    requires device in Advance(system, step, sizes).clients
    requires (!step.Apply? && !step.HearPurged?) || step.device != device
    ensures ClientKept(system, Advance(system, step, sizes), device)
  {
    hide Perform, EraseNotebook, KeepsToTheProtocol, Proceed;
    if device in system.clients && !step.Apply? && !step.HearPurged? {
      ProceedingKeepsReplica(system.core, system.clients[device], step, sizes);
    }
  }

  lemma StampsArePositive(system: System)
    requires Sound(system.core)
    ensures forall key :: key in system.core.store.rows ==> 0 < system.core.store.rows[key].changeSeq
  {
    hide Closed;
  }

  lemma KeptClientsAgree(system: System, step: Step, sizes: Sizes, device: string)
    requires Readable(system) && device in Advance(system, step, sizes).clients
    requires ClientKept(system, Advance(system, step, sizes), device)
    ensures AllTold(system) ==>
              Agrees(Advance(system, step, sizes).core.store.rows, Advance(system, step, sizes).clients[device].told,
                     Advance(system, step, sizes).clients[device].cursor)
    ensures AllAgree(system) ==>
              Agrees(Advance(system, step, sizes).core.store.rows, Advance(system, step, sizes).clients[device].replica,
                     Advance(system, step, sizes).clients[device].cursor)
  {
    var after := Advance(system, step, sizes);
    AdvanceStamps(system, step, sizes);
    StampsArePositive(after);
    hide Advance, Sound, PhaseReads, Stamped, Agrees;
    if after.clients[device].cursor == 0 {
      NothingIsAtZero(after, after.clients[device].told);
      NothingIsAtZero(after, after.clients[device].replica);
    } else {
      var before := system.clients[device];
      if AllTold(system) {
        CommitKeepsAgreement(system.core, after.core, before.told, before.cursor);
        AgreesBelow(after.core.store.rows, before.told, before.cursor, after.clients[device].cursor);
      }
      if AllAgree(system) {
        CommitKeepsAgreement(system.core, after.core, before.replica, before.cursor);
        AgreesBelow(after.core.store.rows, before.replica, before.cursor, after.clients[device].cursor);
      }
    }
  }

  lemma AgreesBelow(rows: Rows, local: Rows, bound: nat, lower: nat)
    requires Agrees(rows, local, bound) && lower <= bound
    ensures Agrees(rows, local, lower)
  {
  }

  lemma NothingIsAtZero(system: System, local: Rows)
    requires forall key :: key in system.core.store.rows ==> 0 < system.core.store.rows[key].changeSeq
    ensures Agrees(system.core.store.rows, local, 0)
  {
  }

  /** A response applied: everything through its cursor has been told, and was held before the purges. */
  lemma ApplyingTells(system: System, device: string)
    requires Readable(system) && device in system.clients && system.clients[device].phase.Answered?
    ensures var client := system.clients[device];
            && (AllTold(system) ==>
                  Agrees(system.core.store.rows, client.told + client.phase.page, client.phase.pageEnd))
            && (AllAgree(system) ==> Agrees(system.core.store.rows, Merged(client), client.phase.pageEnd))
  {
    hide Sound;
    var client := system.clients[device];
    if AllTold(system) {
      MergingAgrees(system.core.store.rows, client.told, client.cursor, client.phase.pageEnd, client.phase.page);
    }
    if AllAgree(system) {
      MergingAgrees(system.core.store.rows, client.replica, client.cursor, client.phase.pageEnd, client.phase.page);
    }
  }

  lemma TheErasedAreNotStored(system: System, device: string)
    requires Holds(system) && device in system.clients
    ensures Closed(system.core.store.rows)
    ensures forall id :: id in system.erased ==> NotebookKey(id) !in system.core.store.rows
    ensures system.clients[device].phase.Answered? ==>
              forall key :: key in system.clients[device].phase.purged ==> key !in system.core.store.rows
  {
    hide Closed, WillHear, PageCovers;
    assert ClientHolds(system, device);
    if system.clients[device].phase.Answered? {
      forall key | key in system.clients[device].phase.purged
        ensures key !in system.core.store.rows
      {
        assert key == NotebookKey(key.id);
      }
    }
  }

  /**
   Nothing committed is ever stepped over: whatever commits between the four reads of a pull, what is
   stored at or below a client's cursor is something that client was told.
   */
  lemma {:induction false} AdvanceKeepsTold(system: System, step: Step, sizes: Sizes)
    requires Readable(system) && AllTold(system)
    ensures AllTold(Advance(system, step, sizes))
  {
    var after := Advance(system, step, sizes);
    forall device | device in after.clients
      ensures Agrees(after.core.store.rows, after.clients[device].told, after.clients[device].cursor)
    {
      hide Readable, AllTold, Agrees;
      if (!step.Apply? && !step.HearPurged?) || step.device != device {
        OtherStepsKeepClients(system, step, sizes, device);
        hide Advance;
        KeptClientsAgree(system, step, sizes, device);
      } else {
        DroppingStepTells(system, step, sizes);
      }
    }
    hide Advance, Agrees;
  }

  lemma DroppingStepTells(system: System, step: Step, sizes: Sizes)
    requires Readable(system) && AllTold(system) && (step.Apply? || step.HearPurged?)
    requires step.device in Advance(system, step, sizes).clients
    ensures var after := Advance(system, step, sizes);
            Agrees(after.core.store.rows, after.clients[step.device].told, after.clients[step.device].cursor)
  {
    hide Readable, AllTold, Agrees, Cascade, NotebooksIn;
    AgreesForOne(system, step.device);
    if step.Apply? && system.clients[step.device].phase.Answered? {
      ApplyingTells(system, step.device);
    }
  }

  lemma AgreesForOne(system: System, device: string)
    requires device in system.clients
    ensures AllTold(system) ==>
              Agrees(system.core.store.rows, system.clients[device].told, system.clients[device].cursor)
    ensures AllAgree(system) ==>
              Agrees(system.core.store.rows, system.clients[device].replica, system.clients[device].cursor)
  {
    hide Agrees;
  }

  /** The two steps that take rows away from a client, and what they leave it with. */
  lemma DroppingStepShape(system: System, step: Step, sizes: Sizes)
    requires (step.Apply? || step.HearPurged?) && step.device in system.clients
    ensures var client, after := system.clients[step.device], Advance(system, step, sizes);
            && step.device in after.clients && after.core == system.core
            && (step.Apply? && client.phase.Answered? ==>
                  after.clients[step.device].cursor == client.phase.pageEnd &&
                  after.clients[step.device].replica == Merged(client) - Dropped(client))
            && (step.HearPurged? && step.id in system.erased ==>
                  after.clients[step.device].cursor == client.cursor &&
                  after.clients[step.device].replica ==
                      client.replica - Cascade(client.replica, {NotebookKey(step.id)}))
            && (!(step.Apply? && client.phase.Answered?) && !(step.HearPurged? && step.id in system.erased) ==>
                  after.clients[step.device] == client)
  {
    hide Cascade, NotebooksIn;
  }

  lemma ApplyingIsExact(system: System, device: string)
    requires Holds(system) && AllAgree(system)
    requires device in system.clients && system.clients[device].phase.Answered?
    ensures var client, rows := system.clients[device], system.core.store.rows;
            Agrees(rows, Merged(client) - Dropped(client), client.phase.pageEnd) <==>
            !Stranded(rows, Merged(client), client.phase.purged, client.phase.pageEnd)
  {
    TheErasedAreNotStored(system, device);
    HoldsIsReadable(system);
    ApplyingTells(system, device);
    hide Holds, Readable, AllAgree, Agrees, Stranded, Cascade, Closed, Merged;
    var client := system.clients[device];
    DroppingAgreesUnlessStranded(system.core.store.rows, Merged(client), client.phase.purged, client.phase.pageEnd);
  }

  lemma HearingIsExact(system: System, device: string, id: string)
    requires Holds(system) && AllAgree(system)
    requires device in system.clients && id in system.erased
    ensures var client, rows := system.clients[device], system.core.store.rows;
            Agrees(rows, client.replica - Cascade(client.replica, {NotebookKey(id)}), client.cursor) <==>
            !Stranded(rows, client.replica, {NotebookKey(id)}, client.cursor)
  {
    TheErasedAreNotStored(system, device);
    AgreesForOne(system, device);
    hide Holds, AllAgree, Agrees, Stranded, Cascade, Closed;
    var client := system.clients[device];
    DroppingAgreesUnlessStranded(system.core.store.rows, client.replica, {NotebookKey(id)}, client.cursor);
  }

  /** What the stepping client is left with, when its step is the one that can take rows away. */
  lemma DroppingStepIsExact(system: System, step: Step, sizes: Sizes)
    requires Holds(system) && AllAgree(system)
    requires step.Apply? || step.HearPurged?
    requires step.device in system.clients
    ensures var after := Advance(system, step, sizes);
            && step.device in after.clients
            && (Agrees(after.core.store.rows, after.clients[step.device].replica, after.clients[step.device].cursor)
                <==> !Strands(system, step))
  {
    DroppingStepShape(system, step, sizes);
    hide Advance, Holds, Agrees, Stranded, Merged, Dropped;
    if step.Apply? && system.clients[step.device].phase.Answered? {
      ApplyingIsExact(system, step.device);
    } else if step.HearPurged? && step.id in system.erased {
      HearingIsExact(system, step.device, step.id);
    } else {
      AgreesForOne(system, step.device);
    }
    hide AllAgree, Cascade;
  }

  /**
   Replica agreement, step by step and exactly: from a state in which every replica agrees, the next
   state agrees too if and only if the step strands nothing. No other step can break it.
   */
  lemma {:induction false} AgreementIsLostExactlyByStranding(system: System, step: Step, sizes: Sizes)
    requires Holds(system) && AllAgree(system)
    ensures AllAgree(Advance(system, step, sizes)) <==> !Strands(system, step)
  {
    var after := Advance(system, step, sizes);
    HoldsIsReadable(system);
    hide Holds, Readable, Agrees, Stranded;
    var drops := (step.Apply? || step.HearPurged?) && step.device in system.clients;
    if drops {
      DroppingStepIsExact(system, step, sizes);
    }
    forall device | device in after.clients && !(drops && device == step.device)
      ensures Agrees(after.core.store.rows, after.clients[device].replica, after.clients[device].cursor)
    {
      hide AllAgree;
      assert (!step.Apply? && !step.HearPurged?) || step.device != device;
      OtherStepsKeepClients(system, step, sizes, device);
      hide Advance;
      KeptClientsAgree(system, step, sizes, device);
    }
    hide Advance;
  }

  // ------------------------------------------------------------------ whole runs

  ghost function Run(system: System, steps: seq<Step>, sizes: Sizes): System {
    if steps == [] then system
    else Advance(Run(system, steps[..|steps| - 1], sizes), steps[|steps| - 1], sizes)
  }

  /** Every push of the run is by a client that keeps to the protocol. */
  ghost predicate Conforming(system: System, steps: seq<Step>, sizes: Sizes) {
    forall k :: 0 <= k < |steps| ==> Conforms(Run(system, steps[..k], sizes), steps[k])
  }

  lemma ConformingUpTo(system: System, steps: seq<Step>, sizes: Sizes, k: nat)
    requires Conforming(system, steps, sizes) && k <= |steps|
    ensures Conforming(system, steps[..k], sizes)
  {
    hide Conforms, Run;
    forall j | 0 <= j < k
      ensures Conforms(Run(system, steps[..k][..j], sizes), steps[..k][j])
    {
      assert steps[..k][..j] == steps[..j];
    }
  }

  /** The protocol's invariant, in every state a conforming run reaches. */
  lemma {:induction false} EveryRunHolds(system: System, steps: seq<Step>, sizes: Sizes)
    requires Holds(system) && Conforming(system, steps, sizes)
    ensures Holds(Run(system, steps, sizes))
  {
    if steps != [] {
      hide Holds, Advance, Conforming, Conforms;
      ConformingUpTo(system, steps, sizes, |steps| - 1);
      EveryRunHolds(system, steps[..|steps| - 1], sizes);
      assert Conforms(Run(system, steps[..|steps| - 1], sizes), steps[|steps| - 1]) by {
        LastConforms(system, steps, sizes);
      }
      AdvanceKeepsHolds(Run(system, steps[..|steps| - 1], sizes), steps[|steps| - 1], sizes);
    }
  }

  lemma LastConforms(system: System, steps: seq<Step>, sizes: Sizes)
    requires Conforming(system, steps, sizes) && steps != []
    ensures Conforms(Run(system, steps[..|steps| - 1], sizes), steps[|steps| - 1])
  {
    hide Conforms, Run;
  }

  lemma TheEmptySystemHolds()
    ensures Holds(EMPTY_SYSTEM) && AllTold(EMPTY_SYSTEM) && AllAgree(EMPTY_SYSTEM)
  {
    hide PhaseReads, WillHear;
  }

  lemma {:induction false} EveryRunReads(steps: seq<Step>, sizes: Sizes)
    ensures Readable(Run(EMPTY_SYSTEM, steps, sizes)) && AllTold(Run(EMPTY_SYSTEM, steps, sizes))
  {
    TheEmptySystemHolds();
    HoldsIsReadable(EMPTY_SYSTEM);
    hide Readable, Advance, AllTold;
    if steps != [] {
      EveryRunReads(steps[..|steps| - 1], sizes);
      AdvanceKeepsReadable(Run(EMPTY_SYSTEM, steps[..|steps| - 1], sizes), steps[|steps| - 1], sizes);
      AdvanceKeepsTold(Run(EMPTY_SYSTEM, steps[..|steps| - 1], sizes), steps[|steps| - 1], sizes);
    }
  }

  /**
   Over every interleaving of pushes, administrator actions and the separate reads of any number of
   pulls, whatever the devices push: everything stored at or below a client's cursor is something that
   client was told, at the version it is stored at.
   */
  lemma {:induction false} NothingIsEverSteppedOver(steps: seq<Step>, sizes: Sizes, device: string, key: Key)
    requires device in Run(EMPTY_SYSTEM, steps, sizes).clients
    ensures var system := Run(EMPTY_SYSTEM, steps, sizes);
            var client := system.clients[device];
            key in system.core.store.rows && system.core.store.rows[key].changeSeq <= client.cursor ==>
              key in client.told && client.told[key] == system.core.store.rows[key]
  {
    EveryRunReads(steps, sizes);
    hide Run, Readable;
  }

  /** The states a run passes through, the one it starts in included. */
  ghost predicate AgreesThroughout(steps: seq<Step>, sizes: Sizes) {
    forall k :: 0 <= k <= |steps| ==> AllAgree(Run(EMPTY_SYSTEM, steps[..k], sizes))
  }

  ghost predicate StrandsNothing(steps: seq<Step>, sizes: Sizes) {
    forall k :: 0 <= k < |steps| ==> !Strands(Run(EMPTY_SYSTEM, steps[..k], sizes), steps[k])
  }

  lemma OneMoreStep(steps: seq<Step>, sizes: Sizes, k: nat)
    requires k < |steps|
    ensures Run(EMPTY_SYSTEM, steps[..k + 1], sizes) == Advance(Run(EMPTY_SYSTEM, steps[..k], sizes), steps[k], sizes)
  {
    hide Advance;
    assert steps[..k + 1][..k] == steps[..k];
  }

  lemma {:induction false} AgreementReaches(steps: seq<Step>, sizes: Sizes, k: nat)
    requires k <= |steps| && StrandsNothing(steps, sizes) && Conforming(EMPTY_SYSTEM, steps, sizes)
    ensures AllAgree(Run(EMPTY_SYSTEM, steps[..k], sizes))
  {
    hide Holds, Advance, AllAgree, Strands, Conforms;
    TheEmptySystemHolds();
    if k > 0 {
      AgreementReaches(steps, sizes, k - 1);
      ConformingUpTo(EMPTY_SYSTEM, steps, sizes, k - 1);
      EveryRunHolds(EMPTY_SYSTEM, steps[..k - 1], sizes);
      OneMoreStep(steps, sizes, k - 1);
      AgreementIsLostExactlyByStranding(Run(EMPTY_SYSTEM, steps[..k - 1], sizes), steps[k - 1], sizes);
    }
  }

  /** Replica agreement over whole runs: it holds throughout a run if and only if no step strands a row. */
  lemma ReplicasAgreeUnlessStranded(steps: seq<Step>, sizes: Sizes)
    requires Conforming(EMPTY_SYSTEM, steps, sizes)
    ensures AgreesThroughout(steps, sizes) <==> StrandsNothing(steps, sizes)
  {
    hide Holds, Advance, AllAgree, Strands, Run, Conforming;
    if StrandsNothing(steps, sizes) {
      forall k | 0 <= k <= |steps|
        ensures AllAgree(Run(EMPTY_SYSTEM, steps[..k], sizes))
      {
        AgreementReaches(steps, sizes, k);
      }
    } else if AgreesThroughout(steps, sizes) {
      TheEmptySystemHolds();
      forall k | 0 <= k < |steps|
        ensures !Strands(Run(EMPTY_SYSTEM, steps[..k], sizes), steps[k])
      {
        ConformingUpTo(EMPTY_SYSTEM, steps, sizes, k);
        EveryRunHolds(EMPTY_SYSTEM, steps[..k], sizes);
        OneMoreStep(steps, sizes, k);
        AgreementIsLostExactlyByStranding(Run(EMPTY_SYSTEM, steps[..k], sizes), steps[k], sizes);
      }
    }
  }

  /** No erased id is ever stored again, whatever the devices that keep to the protocol push. */
  lemma {:induction false} TheErasedAreNeverStored(steps: seq<Step>, sizes: Sizes, id: string)
    requires Conforming(EMPTY_SYSTEM, steps, sizes) && id in Run(EMPTY_SYSTEM, steps, sizes).erased
    ensures NotebookKey(id) !in Run(EMPTY_SYSTEM, steps, sizes).core.store.rows
  {
    hide Advance, Run, Sound, Conforming, ClientHolds;
    TheEmptySystemHolds();
    EveryRunHolds(EMPTY_SYSTEM, steps, sizes);
  }

  /**
   Purge safety over every run. For a device active without interruption: once its cursor has reached a
   notebook's erasure it has that notebook in no form, drafts and pages in flight included, and until
   then the gravestone it needs stands.
   */
  lemma {:induction false} AnErasedNotebookStaysErased(steps: seq<Step>, sizes: Sizes, id: string, device: string)
    requires Conforming(EMPTY_SYSTEM, steps, sizes) && id in Run(EMPTY_SYSTEM, steps, sizes).erased
    requires device in Run(EMPTY_SYSTEM, steps, sizes).clients && Run(EMPTY_SYSTEM, steps, sizes).clients[device].intact
    ensures var system := Run(EMPTY_SYSTEM, steps, sizes);
            id in Carried(system.clients[device]) ==>
              system.clients[device].cursor < system.erased[id] && Standing(system.core, id, system.erased[id])
  {
    hide Advance, Run, Sound, Carried, Standing, Conforming;
    TheEmptySystemHolds();
    EveryRunHolds(EMPTY_SYSTEM, steps, sizes);
    assert ClientHolds(Run(EMPTY_SYSTEM, steps, sizes), device);
  }
}
