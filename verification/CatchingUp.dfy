/**
 A device left alone catches up: however its pages end, following its own cursor brings it to the counter,
 told of every stored row, and, if it was active all along, without anything that was erased. And what the
 protocol's steps do to the device rows is what the device table does.
 */
module CatchingUp {
  import opened Outcomes
  import opened Tables
  import opened Engine
  import opened PushLaws
  import opened Admin
  import opened AccountRuns
  import opened Delta
  import opened Pull
  import opened Replica
  import opened Agreement
  import opened DeviceTable
  import opened Handlers

  // ------------------------------------------------------------------ one request

  /** One request, from its counter to the application of its answer. */
  function Request(device: string, limit: nat): seq<Step> {
    [ReadCounter(device, limit), ReadBoundary(device), ReadRows(device), ReadPurges(device), Apply(device)]
  }

  /** The same request, as its client sees it while nobody writes. */
  function Asked(core: Core, client: Client, device: string, limit: nat, sizes: Sizes): Client {
    var counted := Proceed(core, client, ReadCounter(device, limit), sizes);
    var bounded := Proceed(core, counted, ReadBoundary(device), sizes);
    var read := Proceed(core, bounded, ReadRows(device), sizes);
    var answered := Proceed(core, read, ReadPurges(device), sizes);
    Proceed(core, answered, Apply(device), sizes)
  }

  /** What a request brings: the rows of a stretch, without what was erased in it. */
  ghost predicate Brings(core: Core, before: Client, after: Client, pageEnd: nat) {
    var page, purged := Window(core.store.rows, WHOLE, before.cursor, pageEnd),
      set key | key in core.purges && before.cursor < core.purges[key] <= pageEnd;
    && after.phase.Idle? && after.cursor == pageEnd && after.intact == before.intact
    && after.told == before.told + page
    && (forall key :: key in after.replica <==>
          key in before.replica + page && !BeneathAny(before.replica + page, key, purged))
    && (forall key :: key in after.replica ==> after.replica[key] == (before.replica + page)[key])
    && (forall id :: id in after.held <==>
          (id in before.held || Key(Notebook, id) in page) && Key(Notebook, id) !in purged)
    && after.peak == (if before.peak < pageEnd then pageEnd else before.peak)
  }

  lemma DroppingIsBeneath(client: Client)
    requires client.phase.Answered?
    ensures forall key :: key in Replica.Applied(client).replica <==>
              key in client.replica + client.phase.page &&
              !BeneathAny(client.replica + client.phase.page, key, client.phase.purged)
    ensures forall key :: key in Replica.Applied(client).replica ==>
              Replica.Applied(client).replica[key] == (client.replica + client.phase.page)[key]
  {
    CascadeIsTheSubtree(client.replica + client.phase.page, client.phase.purged);
    hide Cascade, BeneathAny, NotebooksIn;
  }

  lemma ApplyingBrings(core: Core, client: Client, pageEnd: nat, answered: Client)
    requires answered == client.(phase := Answered(pageEnd, Window(core.store.rows, WHOLE, client.cursor, pageEnd),
                                                   PurgeWindow(core.purges, client.cursor, pageEnd).Keys))
    ensures Brings(core, client, Replica.Applied(answered), pageEnd)
  {
    var purged := PurgeWindow(core.purges, client.cursor, pageEnd).Keys;
    assert purged == set key | key in core.purges && client.cursor < core.purges[key] <= pageEnd;
    DroppingIsBeneath(answered);
    HoldingIsPlain(answered);
    hide Cascade, BeneathAny, Window, PurgeWindow, NotebooksIn, Merged, Dropped;
  }

  lemma HoldingIsPlain(client: Client)
    requires client.phase.Answered?
    ensures forall id :: id in Replica.Applied(client).held <==>
              (id in client.held || Key(Notebook, id) in client.phase.page) &&
              Key(Notebook, id) !in client.phase.purged
  {
    hide Merged, Dropped;
  }

  /** Where the page of a request ends, while nobody writes. */
  function EndOf(core: Core, client: Client, limit: nat, sizes: Sizes): nat {
    var cutoff := BoundaryOf(core.store.rows, Query(client.cursor, limit, WHOLE), core.counter, sizes);
    if client.cursor >= core.counter || cutoff.empty then core.counter else PageEnd(cutoff, core.counter)
  }

  /** The three reads after the counter. */
  lemma TheReadsAnswer(core: Core, client: Client, device: string, limit: nat, sizes: Sizes)
    requires client.phase.Idle?
    ensures var pageEnd := EndOf(core, client, limit, sizes);
            var counted := client.(phase := Counted(limit, core.counter));
            var bounded := Proceed(core, counted, ReadBoundary(device), sizes);
            Proceed(core, bounded, ReadRows(device), sizes) ==
            client.(phase := RowsRead(pageEnd, Window(core.store.rows, WHOLE, client.cursor, pageEnd)))
  {
    BoundaryIsInside(core.store.rows, Query(client.cursor, limit, WHOLE), core.counter, sizes);
    if client.cursor >= core.counter {
      NothingIsPast(core.store.rows, client.cursor, core.counter);
    }
    hide BoundaryOf, Window, PurgeWindow, Replica.Applied, NotebooksIn, PageEnd;
  }

  lemma ARequestIsAnswered(core: Core, client: Client, device: string, limit: nat, sizes: Sizes)
    requires client.phase.Idle?
    ensures var pageEnd := EndOf(core, client, limit, sizes);
            Asked(core, client, device, limit, sizes) ==
            Replica.Applied(client.(phase := Answered(pageEnd, Window(core.store.rows, WHOLE, client.cursor, pageEnd),
                                                      PurgeWindow(core.purges, client.cursor, pageEnd).Keys)))
  {
    var pageEnd := EndOf(core, client, limit, sizes);
    var page := Window(core.store.rows, WHOLE, client.cursor, pageEnd);
    hide EndOf, BoundaryOf, Window, PurgeWindow, Replica.Applied, NotebooksIn, PageEnd;
    TheReadsAnswer(core, client, device, limit, sizes);
    assert Proceed(core, client, ReadCounter(device, limit), sizes) ==
           client.(phase := Counted(limit, core.counter));
    assert Proceed(core, client.(phase := RowsRead(pageEnd, page)), ReadPurges(device), sizes) ==
           client.(phase := Answered(pageEnd, page, PurgeWindow(core.purges, client.cursor, pageEnd).Keys));
  }

  lemma ItEndsFurtherOn(core: Core, client: Client, limit: nat, sizes: Sizes)
    requires client.cursor <= core.counter
    ensures client.cursor <= EndOf(core, client, limit, sizes) <= core.counter
    ensures client.cursor < core.counter ==> client.cursor < EndOf(core, client, limit, sizes)
  {
    BoundaryIsInside(core.store.rows, Query(client.cursor, limit, WHOLE), core.counter, sizes);
    hide BoundaryOf, Window;
  }

  /** One request moves the cursor, unless there is nothing past it, and brings what it has passed. */
  lemma ARequestBrings(core: Core, client: Client, device: string, limit: nat, sizes: Sizes)
    requires client.phase.Idle? && client.cursor <= core.counter
    ensures var after := Asked(core, client, device, limit, sizes);
            && Brings(core, client, after, after.cursor)
            && after.cursor <= core.counter && (client.cursor < core.counter ==> client.cursor < after.cursor)
  {
    var pageEnd := EndOf(core, client, limit, sizes);
    ARequestIsAnswered(core, client, device, limit, sizes);
    ItEndsFurtherOn(core, client, limit, sizes);
    ApplyingBrings(core, client, pageEnd,
                   client.(phase := Answered(pageEnd, Window(core.store.rows, WHOLE, client.cursor, pageEnd),
                                             PurgeWindow(core.purges, client.cursor, pageEnd).Keys)));
    hide BoundaryOf, Window, PurgeWindow, Replica.Applied, EndOf, Asked, BeneathAny;
  }

  lemma NothingIsPast(rows: Rows, cursor: nat, upper: nat)
    requires cursor >= upper
    ensures Window(rows, WHOLE, cursor, upper) == map[]
  {
  }

  lemma AnIdleReadIsSound(system: System, device: string)
    requires Readable(system) && device in system.clients
    ensures system.clients[device].cursor <= system.core.counter
  {
    hide PhaseReads, Sound;
  }

  lemma RunOn(system: System, steps: seq<Step>, step: Step, sizes: Sizes)
    ensures Run(system, steps + [step], sizes) == Advance(Run(system, steps, sizes), step, sizes)
  {
    hide Advance;
    assert (steps + [step])[..|steps|] == steps;
  }

  lemma OwnStep(system: System, device: string, step: Step, sizes: Sizes)
    requires device in system.clients
    requires step.ReadCounter? || step.ReadBoundary? || step.ReadRows? || step.ReadPurges? || step.Apply?
    requires step.device == device
    ensures Advance(system, step, sizes) ==
            Put(system, device, Proceed(system.core, system.clients[device], step, sizes))
  {
    hide Proceed;
  }

  lemma PutTwice(system: System, device: string, first: Client, second: Client)
    ensures Put(Put(system, device, first), device, second) == Put(system, device, second)
    ensures Put(system, device, first).core == system.core && device in Put(system, device, first).clients
    ensures Put(system, device, first).clients[device] == first
  {
    assert system.clients[device := first][device := second] == system.clients[device := second];
  }

  lemma OwnStepAgain(system: System, device: string, client: Client, steps: seq<Step>, step: Step, sizes: Sizes)
    requires device in system.clients && Run(system, steps, sizes) == Put(system, device, client)
    requires step.ReadCounter? || step.ReadBoundary? || step.ReadRows? || step.ReadPurges? || step.Apply?
    requires step.device == device
    ensures Run(system, steps + [step], sizes) == Put(system, device, Proceed(system.core, client, step, sizes))
  {
    hide Proceed, Advance, Run, Put;
    RunOn(system, steps, step, sizes);
    PutTwice(system, device, client, Proceed(system.core, client, step, sizes));
    OwnStep(Put(system, device, client), device, step, sizes);
  }

  lemma OwnStepAt(system: System, device: string, client: Client, steps: seq<Step>, k: nat, sizes: Sizes)
    requires device in system.clients && k < |steps| && Run(system, steps[..k], sizes) == Put(system, device, client)
    requires steps[k].ReadCounter? || steps[k].ReadBoundary? || steps[k].ReadRows? || steps[k].ReadPurges? ||
             steps[k].Apply?
    requires steps[k].device == device
    ensures Run(system, steps[..k + 1], sizes) == Put(system, device, Proceed(system.core, client, steps[k], sizes))
  {
    hide Proceed, Run, Put;
    assert steps[..k] + [steps[k]] == steps[..k + 1];
    OwnStepAgain(system, device, client, steps[..k], steps[k], sizes);
  }

  lemma NothingRunYet(system: System, device: string, steps: seq<Step>, sizes: Sizes)
    requires device in system.clients
    ensures Run(system, steps[..0], sizes) == Put(system, device, system.clients[device])
  {
    assert system.clients[device := system.clients[device]] == system.clients;
  }

  /** In the protocol it is five steps of the device's own, and touches nothing else. */
  lemma ARequestRuns(system: System, device: string, limit: nat, sizes: Sizes)
    requires device in system.clients
    ensures Run(system, Request(device, limit), sizes) ==
            Put(system, device, Asked(system.core, system.clients[device], device, limit, sizes))
  {
    var client, steps := system.clients[device], Request(device, limit);
    assert steps[..5] == steps;
    hide Proceed, Run, Put;
    NothingRunYet(system, device, steps, sizes);
    OwnStepAt(system, device, client, steps, 0, sizes);
    var one := Proceed(system.core, client, steps[0], sizes);
    OwnStepAt(system, device, one, steps, 1, sizes);
    var two := Proceed(system.core, one, steps[1], sizes);
    OwnStepAt(system, device, two, steps, 2, sizes);
    var three := Proceed(system.core, two, steps[2], sizes);
    OwnStepAt(system, device, three, steps, 3, sizes);
    OwnStepAt(system, device, Proceed(system.core, three, steps[3], sizes), steps, 4, sizes);
  }

  // ------------------------------------------------------------------ request after request

  /** As many requests, with whatever limits. */
  function Requests(device: string, limits: seq<nat>): seq<Step> {
    if limits == [] then []
    else Requests(device, limits[..|limits| - 1]) + Request(device, limits[|limits| - 1])
  }

  lemma {:induction false} RunsOn(system: System, first: seq<Step>, second: seq<Step>, sizes: Sizes)
    ensures Run(system, first + second, sizes) == Run(Run(system, first, sizes), second, sizes)
  {
    hide Advance;
    if second == [] {
      assert first + second == first;
    } else {
      var n := |second| - 1;
      RunsOn(system, first, second[..n], sizes);
      assert (first + second)[..|first + second| - 1] == first + second[..n];
    }
  }

  /** While only its device asks, nothing else in the system changes, and its cursor rises to the counter. */
  ghost predicate OnlyItsClient(system: System, after: System, device: string) {
    && after.core == system.core && after.devices == system.devices && after.erased == system.erased
    && after.clients.Keys == system.clients.Keys
    && forall other :: other in system.clients && other != device ==> after.clients[other] == system.clients[other]
  }

  lemma StillOnlyItsClient(system: System, before: System, device: string, client: Client)
    requires OnlyItsClient(system, before, device) && device in before.clients
    ensures OnlyItsClient(system, Put(before, device, client), device)
    ensures device in Put(before, device, client).clients && Put(before, device, client).clients[device] == client
  {
  }

  lemma NoRequests(system: System, device: string, sizes: Sizes)
    ensures Run(system, Requests(device, []), sizes) == system && OnlyItsClient(system, system, device)
  {
  }

  lemma OneMoreRequest(system: System, device: string, limits: seq<nat>, sizes: Sizes)
    requires limits != [] && device in Run(system, Requests(device, limits[..|limits| - 1]), sizes).clients
    ensures var before := Run(system, Requests(device, limits[..|limits| - 1]), sizes);
            Run(system, Requests(device, limits), sizes) ==
            Put(before, device, Asked(before.core, before.clients[device], device, limits[|limits| - 1], sizes))
  {
    var n := |limits| - 1;
    hide Run, Request, Asked, Put;
    RunsOn(system, Requests(device, limits[..n]), Request(device, limits[n]), sizes);
    ARequestRuns(Run(system, Requests(device, limits[..n]), sizes), device, limits[n], sizes);
  }

  /** Where a client stands after some requests. */
  ghost predicate HasAdvanced(core: Core, before: Client, after: Client, requests: nat) {
    && after.phase.Idle? && after.intact == before.intact && after.cursor <= core.counter
    && (after.cursor == core.counter || before.cursor + requests <= after.cursor)
  }

  lemma OneRequestAdvances(core: Core, before: Client, client: Client, requests: nat, device: string, limit: nat,
                           sizes: Sizes)
    requires HasAdvanced(core, before, client, requests)
    ensures HasAdvanced(core, before, Asked(core, client, device, limit, sizes), requests + 1)
  {
    ARequestBrings(core, client, device, limit, sizes);
    hide Asked, Window, BeneathAny;
  }

  lemma {:induction false} RequestsAdvance(system: System, device: string, limits: seq<nat>, sizes: Sizes)
    requires device in system.clients && system.clients[device].phase.Idle?
    requires system.clients[device].cursor <= system.core.counter
    ensures var after := Run(system, Requests(device, limits), sizes);
            && OnlyItsClient(system, after, device) && device in after.clients
            && HasAdvanced(system.core, system.clients[device], after.clients[device], |limits|)
  {
    hide Run, Requests, Asked, Put;
    if limits == [] {
      NoRequests(system, device, sizes);
    } else {
      var n := |limits| - 1;
      RequestsAdvance(system, device, limits[..n], sizes);
      var before := Run(system, Requests(device, limits[..n]), sizes);
      OneMoreRequest(system, device, limits, sizes);
      hide HasAdvanced;
      var client := Asked(before.core, before.clients[device], device, limits[n], sizes);
      assert before.core == system.core;
      StillOnlyItsClient(system, before, device, client);
      OneRequestAdvances(system.core, system.clients[device], before.clients[device], n, device, limits[n], sizes);
    }
  }

  lemma {:induction false} RunsKeepTold(system: System, steps: seq<Step>, sizes: Sizes)
    requires Readable(system) && AllTold(system)
    ensures Readable(Run(system, steps, sizes)) && AllTold(Run(system, steps, sizes))
  {
    if steps != [] {
      hide Readable, Advance, AllTold;
      RunsKeepTold(system, steps[..|steps| - 1], sizes);
      AdvanceKeepsReadable(Run(system, steps[..|steps| - 1], sizes), steps[|steps| - 1], sizes);
      AdvanceKeepsTold(Run(system, steps[..|steps| - 1], sizes), steps[|steps| - 1], sizes);
    }
  }

  /**
   Left alone, a device that asks often enough, with whatever limits, ends at the counter and has been told of
   every stored row as it is stored; nothing else has changed for it.
   */
  lemma ADeviceCatchesUp(system: System, device: string, limits: seq<nat>, sizes: Sizes)
    requires Readable(system) && AllTold(system)
    requires device in system.clients && system.clients[device].phase.Idle?
    requires system.core.counter <= system.clients[device].cursor + |limits|
    ensures var after := Run(system, Requests(device, limits), sizes);
            && OnlyItsClient(system, after, device) && device in after.clients
            && after.clients[device].cursor == system.core.counter
            && forall key :: key in system.core.store.rows ==>
                 key in after.clients[device].told &&
                 after.clients[device].told[key] == system.core.store.rows[key]
  {
    AnIdleReadIsSound(system, device);
    RequestsAdvance(system, device, limits, sizes);
    RunsKeepTold(system, Requests(device, limits), sizes);
    var after := Run(system, Requests(device, limits), sizes);
    assert Sequenced(system.core) by { hide Closed, RefsHold, ReadSoFar; }
    hide Run, Requests, Readable;
    AgreesForOne(after, device);
  }

  lemma RequestsConform(system: System, device: string, limits: seq<nat>, sizes: Sizes)
    ensures forall step :: step in Requests(device, limits) ==> !step.Push?
  {
  }

  lemma {:induction false} QuietRunsHold(system: System, steps: seq<Step>, sizes: Sizes)
    requires Holds(system) && forall step :: step in steps ==> !step.Push?
    ensures Holds(Run(system, steps, sizes))
  {
    if steps != [] {
      var n := |steps| - 1;
      assert forall step :: step in steps[..n] ==> step in steps;
      assert steps[n] in steps;
      hide Holds, Advance;
      QuietRunsHold(system, steps[..n], sizes);
      AdvanceKeepsHolds(Run(system, steps[..n], sizes), steps[n], sizes);
    }
  }

  /** And, active without interruption, it then has nothing in any form that was erased. */
  lemma ADeviceCatchesUpWithErasures(system: System, device: string, limits: seq<nat>, sizes: Sizes)
    requires Holds(system) && device in system.clients
    requires system.clients[device].phase.Idle? && system.clients[device].intact
    requires system.core.counter <= system.clients[device].cursor + |limits|
    ensures var after := Run(system, Requests(device, limits), sizes);
            && device in after.clients && after.clients[device].cursor == system.core.counter
            && forall id :: id in system.erased ==> id !in Carried(after.clients[device])
  {
    HoldsIsReadable(system);
    AnIdleReadIsSound(system, device);
    RequestsAdvance(system, device, limits, sizes);
    RequestsConform(system, device, limits, sizes);
    hide Holds, Run, Requests, Readable;
    QuietRunsHold(system, Requests(device, limits), sizes);
    NothingErasedIsCarried(Run(system, Requests(device, limits), sizes), device);
  }

  lemma NothingErasedIsCarried(system: System, device: string)
    requires Holds(system) && device in system.clients && system.clients[device].intact
    requires system.clients[device].cursor == system.core.counter
    ensures forall id :: id in system.erased ==> id !in Carried(system.clients[device])
  {
    hide Sound, Carried, PhaseReads, Standing;
    assert ClientHolds(system, device);
  }

  // ------------------------------------------------------------------ what else a device does with what it has

  /** Told that a notebook is gone, a device drops it and everything beneath it, and nothing else. */
  lemma HearingPurgedDropsIt(system: System, device: string, id: string, sizes: Sizes)
    requires device in system.clients && id in system.erased
    ensures var before, after := system.clients[device], Advance(system, HearPurged(device, id), sizes);
            && OnlyItsClient(system, after, device) && device in after.clients
            && after.clients[device].held == before.held - {id}
            && (forall key :: key in after.clients[device].replica <==>
                  key in before.replica && !BeneathAny(before.replica, key, {Key(Notebook, id)}))
            && (forall key :: key in after.clients[device].replica ==>
                  after.clients[device].replica[key] == before.replica[key])
            && after.clients[device].told == before.told && after.clients[device].cursor == before.cursor
  {
    CascadeIsTheSubtree(system.clients[device].replica, {Key(Notebook, id)});
    hide Cascade, BeneathAny;
  }

  /** A scan of the tree adds the notebooks there are to what a device has, and moves no cursor. */
  lemma AScanAddsTheNotebooks(system: System, device: string, sizes: Sizes)
    requires device in system.clients && system.clients[device].phase.Idle?
    ensures var before, scanned := system.clients[device], Advance(system, ScanTree(device), sizes);
            var after := Advance(scanned, ApplyScan(device), sizes);
            && OnlyItsClient(system, after, device) && device in after.clients
            && after.clients[device] == before.(held := after.clients[device].held)
            && forall id :: id in after.clients[device].held <==>
                 id in before.held || Key(Notebook, id) in system.core.store.rows
  {
    hide Perform, EraseNotebook;
  }

  /** Giving a request up keeps the cursor; going back is to an earlier one; and a draft is under a fresh id. */
  lemma WhatElseADeviceDoes(system: System, device: string, id: string, cursor: nat, sizes: Sizes)
    requires device in system.clients
    ensures Advance(system, Abandon(device), sizes) == Put(system, device, system.clients[device].(phase := Idle))
    ensures Advance(system, Rewind(device, cursor), sizes) ==
            Put(system, device, if cursor <= system.clients[device].cursor
                                then system.clients[device].(cursor := cursor, phase := Idle)
                                else system.clients[device])
    ensures Advance(system, Discard(device, id), sizes) ==
            Put(system, device, system.clients[device].(held := system.clients[device].held - {id}))
    ensures id !in system.erased ==>
              Advance(system, Draft(device, id), sizes) ==
              Put(system, device, system.clients[device].(held := system.clients[device].held + {id}))
  {
    hide Perform, EraseNotebook;
  }

  /** A client has one request at a time: a step it is not at leaves it as it is. */
  lemma OneRequestAtATime(core: Core, client: Client, device: string, limit: nat, sizes: Sizes)
    ensures !client.phase.Idle? ==>
              && Proceed(core, client, ReadCounter(device, limit), sizes) == client
              && Proceed(core, client, ScanTree(device), sizes) == client
    ensures !client.phase.Counted? ==> Proceed(core, client, ReadBoundary(device), sizes) == client
    ensures !client.phase.Bounded? ==> Proceed(core, client, ReadRows(device), sizes) == client
    ensures !client.phase.RowsRead? ==> Proceed(core, client, ReadPurges(device), sizes) == client
    ensures !client.phase.Answered? ==> Proceed(core, client, Apply(device), sizes) == client
    ensures !client.phase.Scanned? ==> Proceed(core, client, ApplyScan(device), sizes) == client
  {
  }

  // ------------------------------------------------------------------ the device rows

  /** What a step does to the device rows, as the device table does it. */
  function RowsAfter(entries: DeviceEntries, account: string, token: string, step: Step): DeviceEntries {
    match step
    case SignIn(device, _) => entries[device := DeviceEntry(account, None, token, 0, false)]
    case Revoke(device) => if device in entries then entries[device := entries[device].(revoked := true)] else entries
    case Remove(device) => if device in entries && entries[device].revoked then entries - {device} else entries
    case Acknowledge(device, since) => Acknowledged(entries, device, since)
    case _ => entries
  }

  lemma OtherStepsKeepDevices(system: System, step: Step, sizes: Sizes)
    requires !step.SignIn? && !step.Revoke? && !step.Remove? && !step.Acknowledge?
    ensures Advance(system, step, sizes).devices == system.devices
  {
    hide Perform, EraseNotebook, Proceed;
  }

  lemma SigningInIsSeen(system: System, device: string, wiped: bool, sizes: Sizes, entries: DeviceEntries,
                        account: string, token: string)
    requires system.devices == SeenByTheLog(entries, account)
    requires forall id :: id in entries ==> entries[id].account == account
    ensures Advance(system, SignIn(device, wiped), sizes).devices ==
            SeenByTheLog(entries[device := DeviceEntry(account, None, token, 0, false)], account)
  {
    hide Perform, EraseNotebook, Proceed;
    SeenAfterSignIn(entries, device, DeviceEntry(account, None, token, 0, false));
  }

  /** The protocol's steps do to the devices the purge log sees what signing in, revoking, removing and
      acknowledging do to their rows, and no other step touches one. */
  lemma TheLogSeesTheTable(system: System, step: Step, sizes: Sizes, entries: DeviceEntries, account: string,
                           token: string)
    requires system.devices == SeenByTheLog(entries, account)
    requires forall id :: id in entries ==> entries[id].account == account
    requires step.Acknowledge? ==> step.device in system.clients && step.since <= system.clients[step.device].peak
    ensures Advance(system, step, sizes).devices == SeenByTheLog(RowsAfter(entries, account, token, step), account)
  {
    hide Perform, EraseNotebook, Proceed;
    if step.SignIn? {
      SigningInIsSeen(system, step.device, step.wiped, sizes, entries, account, token);
      hide Advance, SeenByTheLog;
    } else if step.Revoke? || step.Remove? || step.Acknowledge? {
      assert step.device in system.devices <==> step.device in entries;
    } else {
      OtherStepsKeepDevices(system, step, sizes);
      hide Advance, SeenByTheLog;
    }
  }
}
