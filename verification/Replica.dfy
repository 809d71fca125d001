/**
 The whole protocol: one account's tables, its devices as the purge log sees them, and the clients,
 each holding a replica of what it has been told and a cursor that moves only when a response is
 applied. Every read of a pull is its own step, so writers run between any two of them.
 */
module Replica {
  import opened Tables
  import opened Changes
  import opened Engine
  import opened PushLaws
  import opened Admin
  import opened AccountRuns
  import opened Delta
  import opened Pull

  /** Where one client's single outstanding request stands. */
  datatype Phase =
    | Idle
    | Counted(limit: nat, upper: nat)
    | Bounded(pageEnd: nat)
    | RowsRead(pageEnd: nat, page: Rows)
    | Answered(pageEnd: nat, page: Rows, purged: set<Key>)
    | Scanned(found: set<string>)

  /**
   `replica` is what this installation has of the account, `told` everything responses ever handed it,
   and `held` the notebooks it has in any form, drafts included. `peak` is the furthest its cursor ever
   was. `intact` holds until the device is revoked; a wiped installation that signs in afterwards
   starts over intact.
   */
  datatype Client = Client(replica: Rows, told: Rows, held: set<string>, cursor: nat, peak: nat, intact: bool,
                           phase: Phase)

  /** `erased` is history: every notebook ever erased, and the sequence value of its erasure. */
  datatype System = System(core: Core, devices: Devices, clients: map<string, Client>, erased: map<string, nat>)

  datatype Step =
    | Push(device: string, raws: seq<RawChange>)
    | Erase(id: string)
    | Unhost(id: string, nowMillis: int)
    | Attach(op: Op)
    | SignIn(device: string, wiped: bool)
    | Revoke(device: string)
    | Remove(device: string)
    | Draft(device: string, id: string)
    | Discard(device: string, id: string)
    | HearPurged(device: string, id: string)
    | Rewind(device: string, cursor: nat)
    | ReadCounter(device: string, limit: nat)
    | ReadBoundary(device: string)
    | ReadRows(device: string)
    | ReadPurges(device: string)
    | Acknowledge(device: string, since: nat)
    | Apply(device: string)
    | Abandon(device: string)
    | ScanTree(device: string)
    | ApplyScan(device: string)

  /** Uploads and sweeps, which reach the synced tables only through what they hold. */
  predicate OnAttachments(op: Op) {
    op.Uploaded? || op.Swept? || op.ReferencesPruned?
  }

  predicate Active(system: System, device: string) {
    device in system.devices && !system.devices[device].revoked
  }

  function Put(system: System, device: string, client: Client): System {
    system.(clients := system.clients[device := client])
  }

  /** A client that keeps to the protocol pushes only notebooks it has, and only until it is revoked. */
  ghost predicate KeepsToTheProtocol(system: System, device: string, raws: seq<RawChange>) {
    && device in system.clients && system.clients[device].intact
    && forall change :: change in Decode(raws) && change.Decoded? && change.key.kind.Notebook? ==>
         change.key.id in system.clients[device].held
  }

  function NotebooksIn(rows: Rows): set<string> {
    set key | key in rows && key.kind.Notebook? :: key.id
  }

  function Max(a: nat, b: nat): nat { if a < b then b else a }

  // ------------------------------------------------------------------ what a response does to a client

  function Merged(client: Client): Rows
    requires client.phase.Answered?
  {
    client.replica + client.phase.page
  }

  /** What the client deletes locally: each purged notebook it has, and everything beneath it. */
  function Dropped(client: Client): set<Key>
    requires client.phase.Answered?
  {
    Cascade(Merged(client), client.phase.purged)
  }

  /** Changes first, then purges, then the cursor. */
  function Applied(client: Client): Client
    requires client.phase.Answered?
  {
    Client(Merged(client) - Dropped(client), client.told + client.phase.page,
           (set id | id in client.held + NotebooksIn(client.phase.page) && NotebookKey(id) !in client.phase.purged),
           client.phase.pageEnd, Max(client.peak, client.phase.pageEnd), client.intact, Idle)
  }

  // ------------------------------------------------------------------ the steps

  /** The client's own request, one read at a time. The reads see the tables as they are at that step. */
  function Proceed(core: Core, client: Client, step: Step, sizes: Sizes): Client {
    match step
    case ReadCounter(_, limit) =>
      if client.phase.Idle? then client.(phase := Counted(limit, core.counter)) else client
    case ReadBoundary(_) =>
      if !client.phase.Counted? then client
      else
        var upper := client.phase.upper;
        if client.cursor >= upper then client.(phase := RowsRead(upper, map[]))
        else
          var cutoff := BoundaryOf(core.store.rows, Query(client.cursor, client.phase.limit, WHOLE), upper, sizes);
          if cutoff.empty then client.(phase := RowsRead(upper, map[]))
          else client.(phase := Bounded(PageEnd(cutoff, upper)))
    case ReadRows(_) =>
      if !client.phase.Bounded? then client
      else
        var pageEnd := client.phase.pageEnd;
        client.(phase := RowsRead(pageEnd, Window(core.store.rows, WHOLE, client.cursor, pageEnd)))
    case ReadPurges(_) =>
      if !client.phase.RowsRead? then client
      else
        var pageEnd := client.phase.pageEnd;
        client.(phase := Answered(pageEnd, client.phase.page, PurgeWindow(core.purges, client.cursor, pageEnd).Keys))
    case Apply(_) => if client.phase.Answered? then Applied(client) else client
    case Abandon(_) => client.(phase := Idle)
    case ScanTree(_) =>
      if client.phase.Idle? then client.(phase := Scanned(NotebooksIn(core.store.rows))) else client
    case ApplyScan(_) =>
      if client.phase.Scanned? then client.(held := client.held + client.phase.found, phase := Idle) else client
    case Discard(_, id) => client.(held := client.held - {id})
    case HearPurged(_, id) =>
      client.(held := client.held - {id}, replica := client.replica - Cascade(client.replica, {NotebookKey(id)}))
    case Rewind(_, cursor) =>
      if cursor <= client.cursor then client.(cursor := cursor, phase := Idle) else client
    case _ => client
  }

  /** A step that cannot be taken changes nothing. */
  ghost function Advance(system: System, step: Step, sizes: Sizes): System {
    match step
    case Push(device, raws) =>
      // Authentication is the one thing a push has to pass before it is judged.
      if !Active(system, device) then system
      else system.(core := Perform(system.core, Pushed(raws, device)))
    case Erase(id) =>
      (match EraseNotebook(system.core, system.devices, id)
       case Err(_) => system
       case Ok(core) => system.(core := core, erased := system.erased[id := core.counter]))
    case Unhost(id, nowMillis) => system.(core := Perform(system.core, Unhosted(id, nowMillis)))
    case Attach(op) => if OnAttachments(op) then system.(core := Perform(system.core, op)) else system
    case SignIn(device, wiped) =>
      var signedIn := system.(devices := system.devices[device := DeviceRow(0, false)]);
      if device !in system.clients then Put(signedIn, device, Client(map[], map[], {}, 0, 0, true, Idle))
      else if wiped then Put(signedIn, device, Client(map[], map[], {}, 0, system.clients[device].peak, true, Idle))
      else Put(signedIn, device, system.clients[device].(phase := Idle))
    case Revoke(device) =>
      if device !in system.devices then system
      else
        var revoked := system.(devices := system.devices[device := system.devices[device].(revoked := true)]);
        if device !in system.clients then revoked
        else Put(revoked, device, system.clients[device].(intact := false))
    case Remove(device) =>
      if device in system.devices && system.devices[device].revoked
      then system.(devices := system.devices - {device})
      else system
    case Draft(device, id) =>
      if device in system.clients && id !in system.erased
      then Put(system, device, system.clients[device].(held := system.clients[device].held + {id}))
      else system
    case HearPurged(device, id) =>
      // A push was refused as purged: the client drops the notebook and everything beneath it.
      if device in system.clients && id in system.erased
      then Put(system, device, Proceed(system.core, system.clients[device], step, sizes))
      else system
    case Acknowledge(device, since) =>
      if device in system.clients && since <= system.clients[device].peak && device in system.devices
      then system.(devices := system.devices[device :=
             system.devices[device].(lastPulledSeq := Max(system.devices[device].lastPulledSeq, since))])
      else system
    case _ =>
      if step.device !in system.clients then system
      else Put(system, step.device, Proceed(system.core, system.clients[step.device], step, sizes))
  }

  /** The one step a client can get wrong: everything else is the server's, or changes only the client. */
  ghost predicate Conforms(system: System, step: Step) {
    step.Push? && Active(system, step.device) ==> KeepsToTheProtocol(system, step.device, step.raws)
  }

  // ------------------------------------------------------------------ the invariant

  ghost predicate Standing(core: Core, id: string, seqValue: nat) {
    NotebookKey(id) in core.purges && core.purges[NotebookKey(id)] == seqValue
  }

  /** The log and the history agree, and nothing erased is stored. */
  ghost predicate LogIsHistory(system: System) {
    && (forall key :: key in system.core.purges ==>
          key.kind.Notebook? && key.id in system.erased && system.erased[key.id] == system.core.purges[key])
    && (forall id :: id in system.erased ==>
          NotebookKey(id) !in system.core.store.rows && system.erased[id] <= system.core.counter)
  }

  function InFlight(phase: Phase): set<string> {
    match phase
    case RowsRead(_, page) => NotebooksIn(page)
    case Answered(_, page, _) => NotebooksIn(page)
    case Scanned(found) => found
    case _ => {}
  }

  /** Every notebook an installation has, or is about to have. */
  function Carried(client: Client): set<string> {
    client.held + NotebooksIn(client.replica) + InFlight(client.phase)
  }

  /** A page read from (cursor, pageEnd]: what is still stored there is on it, and what is on it and
      still stored at or below its end is on it unchanged. */
  ghost predicate PageCovers(rows: Rows, cursor: nat, pageEnd: nat, page: Rows) {
    && (forall key :: key in rows && cursor < rows[key].changeSeq <= pageEnd ==> key in page)
    && (forall key :: key in rows && key in page && rows[key].changeSeq <= pageEnd ==> page[key] == rows[key])
  }

  /** What a client has read so far is a faithful part of the page it is reading. */
  ghost predicate PhaseReads(core: Core, client: Client) {
    match client.phase
    case Idle => true
    case Counted(_, upper) => client.cursor <= upper <= core.counter
    case Bounded(pageEnd) => client.cursor <= pageEnd <= core.counter
    case RowsRead(pageEnd, page) =>
      client.cursor <= pageEnd <= core.counter && PageCovers(core.store.rows, client.cursor, pageEnd, page)
    case Answered(pageEnd, page, purged) =>
      client.cursor <= pageEnd <= core.counter && PageCovers(core.store.rows, client.cursor, pageEnd, page)
    case Scanned(_) => true
  }

  ghost predicate ReadSoFar(core: Core, client: Client) {
    client.cursor <= core.counter && PhaseReads(core, client)
  }

  /** What an uninterrupted device has not heard of is still in the log, past everything it presented. */
  ghost predicate WillHear(system: System, device: string, client: Client) {
    && Active(system, device)
    && system.devices[device].lastPulledSeq <= client.peak
    && (forall id :: id in Carried(client) && id in system.erased ==>
          client.peak < system.erased[id] && Standing(system.core, id, system.erased[id]))
    && (client.phase.Answered? ==>
          forall id :: id in Carried(client) && id in system.erased && system.erased[id] <= client.phase.pageEnd ==>
            NotebookKey(id) in client.phase.purged)
  }

  ghost predicate ClientHolds(system: System, device: string)
    requires device in system.clients
  {
    var client := system.clients[device];
    && client.cursor <= client.peak <= system.core.counter
    && PhaseReads(system.core, client)
    && (client.phase.Answered? ==>
          forall key :: key in client.phase.purged ==> key.kind.Notebook? && key.id in system.erased)
    && (client.intact ==> WillHear(system, device, client))
  }

  ghost predicate Holds(system: System) {
    && Sound(system.core)
    && LogIsHistory(system)
    && forall device :: device in system.clients ==> ClientHolds(system, device)
  }

  const EMPTY_SYSTEM := System(FRESH_ACCOUNT, map[], map[], map[])

  // ------------------------------------------------------------------ commits under every client

  /** A commit: nothing is stamped at or below the counter it found, and what stays is as it was. */
  ghost predicate Stamped(before: Core, after: Core) {
    && before.counter <= after.counter
    && forall key :: key in after.store.rows ==>
         || (key in before.store.rows && after.store.rows[key] == before.store.rows[key])
         || before.counter < after.store.rows[key].changeSeq
  }

  lemma CoveredStaysCovered(before: Core, after: Core, cursor: nat, pageEnd: nat, page: Rows)
    requires Stamped(before, after) && pageEnd <= before.counter
    requires PageCovers(before.store.rows, cursor, pageEnd, page)
    ensures PageCovers(after.store.rows, cursor, pageEnd, page)
  {
  }

  /** What a commit owes the devices: old gravestones they still need, new ones past what they presented. */
  ghost predicate LogKept(system: System, core: Core, erased: map<string, nat>) {
    && (forall id :: id in system.erased ==> id in erased && erased[id] == system.erased[id])
    && (forall id :: id in erased && id !in system.erased ==>
          erased[id] == core.counter && system.core.counter < core.counter && Standing(core, id, erased[id]))
    && (forall id, device |
          && id in system.erased && Active(system, device)
          && system.devices[device].lastPulledSeq < system.erased[id]
          && Standing(system.core, id, system.erased[id])
          :: Standing(core, id, erased[id]))
  }

  lemma CommitKeepsReads(before: Core, after: Core, client: Client)
    requires Stamped(before, after) && ReadSoFar(before, client)
    ensures ReadSoFar(after, client)
  {
    match client.phase {
      case RowsRead(pageEnd, page) => CoveredStaysCovered(before, after, client.cursor, pageEnd, page);
      case Answered(pageEnd, page, purged) => CoveredStaysCovered(before, after, client.cursor, pageEnd, page);
      case _ =>
    }
    hide PageCovers;
  }

  lemma CommitKeepsClient(system: System, core: Core, erased: map<string, nat>, device: string)
    requires Holds(system) && device in system.clients
    requires Stamped(system.core, core) && LogKept(system, core, erased)
    ensures ClientHolds(system.(core := core, erased := erased), device)
  {
    hide Sound, LogIsHistory, PageCovers;
    var client := system.clients[device];
    assert ClientHolds(system, device);
    CommitKeepsReads(system.core, core, client);
    assert client.phase.Answered? ==> client.phase.pageEnd <= system.core.counter;
    hide PhaseReads;
    if client.intact {
      assert Active(system, device);
    }
  }

  lemma PerformStamps(core: Core, op: Op)
    requires Sound(core)
    ensures Stamped(core, Perform(core, op))
  {
    hide Commit;
    PerformMovesRows(core, op);
    CommitCountsOne(core, op);
    forall key | key in Perform(core, op).store.rows
      ensures (key in core.store.rows && Perform(core, op).store.rows[key] == core.store.rows[key]) ||
              core.counter < Perform(core, op).store.rows[key].changeSeq
    {
      assert RowMoved(core, Perform(core, op), key);
    }
  }

  lemma CommitKeepsHolds(system: System, core: Core, erased: map<string, nat>)
    requires Holds(system) && Sound(core)
    requires Stamped(system.core, core) && LogKept(system, core, erased)
    requires LogIsHistory(system.(core := core, erased := erased))
    ensures Holds(system.(core := core, erased := erased))
  {
    forall device | device in system.clients
      ensures ClientHolds(system.(core := core, erased := erased), device)
    {
      CommitKeepsClient(system, core, erased, device);
    }
    hide ClientHolds, Sound, LogIsHistory;
  }

  /** No device that keeps to the protocol can bring an erased notebook back. */
  lemma PushBringsNothingBack(system: System, device: string, raws: seq<RawChange>)
    requires Holds(system) && KeepsToTheProtocol(system, device, raws)
    ensures forall id :: id in system.erased ==>
              NotebookKey(id) !in Perform(system.core, Pushed(raws, device)).store.rows
  {
    var after := Perform(system.core, Pushed(raws, device));
    PushAdvances(system.core, raws, device);
    NewRowsAreFromTheBatch(system.core, raws, device);
    assert ClientHolds(system, device);
    hide ApplyEach, Decode, Sound, PhaseReads;
    forall id | id in system.erased && id in system.clients[device].held
      ensures NotebookKey(id) !in after.store.rows
    {
      assert NotebookKey(id) !in system.core.store.rows;
      assert Standing(system.core, id, system.erased[id]);
    }
  }

  lemma NewRowsAreFromTheBatch(core: Core, raws: seq<RawChange>, writer: string)
    ensures forall key :: key in Perform(core, Pushed(raws, writer)).store.rows && key !in core.store.rows ==>
              exists change :: change in Decode(raws) && change.Decoded? && change.key == key
  {
    var changes := Decode(raws);
    DecodeIsOrderedAndDistinct(raws);
    DeferredIsSequential(core, changes, writer);
    PlannedKeysComeFromChanges(core, changes, writer);
    hide Decode, PlanOf, Sequential, WriteAll, AppliedIn;
    forall key | key in Perform(core, Pushed(raws, writer)).store.rows && key !in core.store.rows
      ensures exists change :: change in changes && change.Decoded? && change.key == key
    {
      assert key in PlanOf(core, changes, writer).accepted;
      var i :| 0 <= i < |changes| && changes[i].Decoded? && changes[i].key == key;
      assert changes[i] in changes;
    }
  }

  /** A commit that leaves the purge log alone and stores nothing that was erased. */
  ghost predicate LeavesTheLog(system: System, core: Core) {
    && core.purges == system.core.purges && system.core.counter <= core.counter
    && forall id :: id in system.erased ==> NotebookKey(id) !in core.store.rows
  }

  lemma SameLogIsKept(system: System, core: Core)
    requires LogIsHistory(system) && LeavesTheLog(system, core)
    ensures LogKept(system, core, system.erased)
    ensures LogIsHistory(system.(core := core, erased := system.erased))
  {
  }

  lemma QuietCommitKeepsHolds(system: System, core: Core)
    requires Holds(system) && Sound(core) && Stamped(system.core, core) && LeavesTheLog(system, core)
    ensures Holds(system.(core := core))
  {
    hide Sound, ClientHolds, LogIsHistory, Stamped, LeavesTheLog, LogKept;
    SameLogIsKept(system, core);
    CommitKeepsHolds(system, core, system.erased);
    assert system.(core := core, erased := system.erased) == system.(core := core);
  }

  lemma PushLeavesTheLog(system: System, device: string, raws: seq<RawChange>)
    requires Holds(system) && KeepsToTheProtocol(system, device, raws)
    ensures LeavesTheLog(system, Perform(system.core, Pushed(raws, device)))
  {
    PushAdvances(system.core, raws, device);
    PushBringsNothingBack(system, device, raws);
    hide ApplyEach, Decode, Holds;
  }

  lemma PushKeepsHolds(system: System, device: string, raws: seq<RawChange>)
    requires Holds(system) && KeepsToTheProtocol(system, device, raws)
    ensures Holds(system.(core := Perform(system.core, Pushed(raws, device))))
  {
    assert Sound(system.core);
    PerformStamps(system.core, Pushed(raws, device));
    PerformKeepsSound(system.core, Pushed(raws, device));
    PushLeavesTheLog(system, device, raws);
    hide Perform, Holds;
    QuietCommitKeepsHolds(system, Perform(system.core, Pushed(raws, device)));
  }

  lemma UnhostLeavesTheLog(system: System, id: string, nowMillis: int)
    requires LogIsHistory(system)
    ensures LeavesTheLog(system, Perform(system.core, Unhosted(id, nowMillis)))
  {
    hide IdFault;
  }

  lemma UnhostKeepsHolds(system: System, id: string, nowMillis: int)
    requires Holds(system)
    ensures Holds(system.(core := Perform(system.core, Unhosted(id, nowMillis))))
  {
    assert Sound(system.core) && LogIsHistory(system);
    PerformStamps(system.core, Unhosted(id, nowMillis));
    PerformKeepsSound(system.core, Unhosted(id, nowMillis));
    UnhostLeavesTheLog(system, id, nowMillis);
    hide Perform, Holds;
    QuietCommitKeepsHolds(system, Perform(system.core, Unhosted(id, nowMillis)));
  }

  lemma AttachKeepsHolds(system: System, op: Op)
    requires Holds(system) && OnAttachments(op)
    ensures Holds(system.(core := Perform(system.core, op)))
  {
    assert Sound(system.core) && LogIsHistory(system);
    PerformStamps(system.core, op);
    PerformKeepsSound(system.core, op);
    BesideKeepsSound(system.core, op);
    hide Sound, Holds, Beside;
    QuietCommitKeepsHolds(system, Perform(system.core, op));
  }

  /** Erasing a notebook keeps every gravestone a device still needs, and sets up its own. */
  lemma ErasingKeepsLog(system: System, id: string)
    requires LogIsHistory(system) && EraseNotebook(system.core, system.devices, id).Ok?
    ensures var core := EraseNotebook(system.core, system.devices, id).value;
            LogKept(system, core, system.erased[id := core.counter])
  {
    var core := EraseNotebook(system.core, system.devices, id).value;
    var erased := system.erased[id := core.counter];
    hide DeleteSubtree, IdFault;
    assert id !in system.erased;
    forall other, device | other in system.erased && Active(system, device) &&
                           system.devices[device].lastPulledSeq < system.erased[other] &&
                           Standing(system.core, other, system.erased[other])
      ensures Standing(core, other, erased[other])
    {
      assert StillWaiting(system.devices, device, system.core.purges[NotebookKey(other)]);
    }
  }

  lemma ErasingMakesHistory(system: System, id: string)
    requires LogIsHistory(system) && EraseNotebook(system.core, system.devices, id).Ok?
    ensures var core := EraseNotebook(system.core, system.devices, id).value;
            LogIsHistory(system.(core := core, erased := system.erased[id := core.counter]))
  {
    ErasingOnlyRemoves(system.core, system.devices, id);
    hide DeleteSubtree, IdFault;
  }

  lemma EraseKeepsHolds(system: System, id: string)
    requires Holds(system) && EraseNotebook(system.core, system.devices, id).Ok?
    ensures var core := EraseNotebook(system.core, system.devices, id).value;
            Holds(system.(core := core, erased := system.erased[id := core.counter]))
  {
    var core := EraseNotebook(system.core, system.devices, id).value;
    ErasingKeepsLog(system, id);
    ErasingMakesHistory(system, id);
    ErasingOnlyRemoves(system.core, system.devices, id);
    ErasingKeepsSound(system.core, system.devices, id);
    hide EraseNotebook, Sound, ClientHolds, LogKept, LogIsHistory;
    CommitKeepsHolds(system, core, system.erased[id := core.counter]);
  }

  // ------------------------------------------------------------------ the client's own steps

  /** A client the step did not touch, on a device it did not touch, under tables it did not touch. */
  lemma UntouchedHolds(system: System, after: System, device: string)
    requires device in system.clients && device in after.clients
    requires after.clients[device] == system.clients[device]
    requires after.core == system.core && after.erased == system.erased
    requires device in system.devices ==> device in after.devices && after.devices[device] == system.devices[device]
    requires ClientHolds(system, device)
    ensures ClientHolds(after, device)
  {
    hide PageCovers, Carried, Standing;
  }

  /** One client changed, and nothing the others depend on did. */
  lemma PutKeepsHolds(system: System, device: string, client: Client)
    requires Holds(system)
    requires ClientHolds(Put(system, device, client), device)
    ensures Holds(Put(system, device, client))
  {
    hide Sound, ClientHolds, LogIsHistory;
    var after := Put(system, device, client);
    forall other | other in after.clients
      ensures ClientHolds(after, other)
    {
      if other != device {
        UntouchedHolds(system, after, other);
      }
    }
    assert LogIsHistory(after) by { LogIgnoresClients(system, device, client); }
  }

  lemma LogIgnoresClients(system: System, device: string, client: Client)
    requires LogIsHistory(system)
    ensures LogIsHistory(Put(system, device, client))
  {
  }

  /** A new phase, short of the answer, that carries nothing erased the client did not already carry. */
  lemma NewPhaseKeepsHolds(system: System, device: string, phase: Phase)
    requires Holds(system) && device in system.clients && !phase.Answered?
    requires PhaseReads(system.core, system.clients[device].(phase := phase))
    requires forall id :: id in InFlight(phase) ==> id !in system.erased
    ensures Holds(Put(system, device, system.clients[device].(phase := phase)))
  {
    var client := system.clients[device];
    assert ClientHolds(system, device);
    hide Holds, PageCovers, Standing, InFlight;
    assert ClientHolds(Put(system, device, client.(phase := phase)), device);
    PutKeepsHolds(system, device, client.(phase := phase));
  }

  /** A client that gave something up: fewer notebooks, an older cursor, the same request or none. */
  lemma HavingLessKeepsHolds(system: System, device: string, next: Client)
    requires Holds(system) && device in system.clients
    requires var client := system.clients[device];
             && Carried(next) <= Carried(client)
             && next.peak == client.peak && next.intact == client.intact
             && ((next.phase.Idle? && next.cursor <= client.cursor) ||
                 (next.phase == client.phase && next.cursor == client.cursor))
    ensures Holds(Put(system, device, next))
  {
    assert ClientHolds(system, device);
    hide Holds, PageCovers, Standing, Carried;
    PutKeepsHolds(system, device, next);
  }

  lemma WindowCovers(rows: Rows, cursor: nat, pageEnd: nat)
    ensures PageCovers(rows, cursor, pageEnd, Window(rows, WHOLE, cursor, pageEnd))
  {
  }

  lemma AnEmptyBoundaryCovers(rows: Rows, query: Query, upper: nat, sizes: Sizes)
    requires query.filter == WHOLE && BoundaryOf(rows, query, upper, sizes).empty
    ensures PageCovers(rows, query.since, upper, map[])
  {
    BoundaryIsInside(rows, query, upper, sizes);
    hide BoundaryOf;
    forall key | key in rows && query.since < rows[key].changeSeq <= upper
      ensures key in Window(rows, query.filter, query.since, upper)
    {
    }
  }

  /** The page bounds the boundary read leaves, and an empty page where it leaves none. */
  lemma BoundaryReads(core: Core, client: Client, step: Step, sizes: Sizes)
    requires ReadSoFar(core, client) && step.ReadBoundary?
    ensures ReadSoFar(core, Proceed(core, client, step, sizes))
  {
    hide BoundaryOf, Window, PageCovers;
    if client.phase.Counted? {
      var rows := core.store.rows;
      var query := Query(client.cursor, client.phase.limit, WHOLE);
      BoundaryIsInside(rows, query, client.phase.upper, sizes);
      if client.cursor >= client.phase.upper {
        NothingToCover(rows, client.cursor, client.phase.upper);
      } else if BoundaryOf(rows, query, client.phase.upper, sizes).empty {
        AnEmptyBoundaryCovers(rows, query, client.phase.upper, sizes);
      }
    }
  }

  /** Whatever a client does, what it has read stays a faithful part of the page it is reading. */
  lemma ProceedingKeepsReads(core: Core, client: Client, step: Step, sizes: Sizes)
    requires ReadSoFar(core, client)
    ensures ReadSoFar(core, Proceed(core, client, step, sizes))
  {
    if step.ReadBoundary? {
      BoundaryReads(core, client, step, sizes);
    } else {
      hide BoundaryOf, Window, PageCovers, Cascade, NotebooksIn, PurgeWindow;
      if step.ReadRows? && client.phase.Bounded? {
        WindowCovers(core.store.rows, client.cursor, client.phase.pageEnd);
      }
    }
  }

  lemma BoundaryReadKeepsHolds(system: System, device: string, step: Step, sizes: Sizes)
    requires Holds(system) && device in system.clients && step.ReadBoundary?
    requires system.clients[device].phase.Counted?
    ensures Holds(Put(system, device, Proceed(system.core, system.clients[device], step, sizes)))
  {
    var client := system.clients[device];
    assert ClientHolds(system, device);
    assert ReadSoFar(system.core, client);
    BoundaryReads(system.core, client, step, sizes);
    hide Holds, BoundaryOf, PageCovers, PhaseReads, PageEnd;
    var next := Proceed(system.core, client, step, sizes);
    assert InFlight(next.phase) == {};
    hide InFlight;
    assert next == client.(phase := next.phase);
    NewPhaseKeepsHolds(system, device, next.phase);
  }

  lemma RowsReadKeepsHolds(system: System, device: string, step: Step, sizes: Sizes)
    requires Holds(system) && device in system.clients && step.ReadRows?
    requires system.clients[device].phase.Bounded?
    ensures Holds(Put(system, device, Proceed(system.core, system.clients[device], step, sizes)))
  {
    var client := system.clients[device];
    assert LogIsHistory(system) && ClientHolds(system, device);
    hide Holds, Window, PageCovers, WillHear, LogIsHistory, NotebooksIn;
    WindowCovers(system.core.store.rows, client.cursor, client.phase.pageEnd);
    WindowNotebooksAreStored(system, client.cursor, client.phase.pageEnd);
    NewPhaseKeepsHolds(system, device, Proceed(system.core, client, step, sizes).phase);
  }

  lemma PlainReadKeepsHolds(system: System, device: string, step: Step, sizes: Sizes)
    requires Holds(system) && device in system.clients
    requires step.ReadCounter? || step.Abandon? || step.ScanTree?
    ensures Holds(Put(system, device, Proceed(system.core, system.clients[device], step, sizes)))
  {
    var client := system.clients[device];
    assert Put(system, device, client) == system;
    assert LogIsHistory(system) && ClientHolds(system, device);
    hide Holds, WillHear, LogIsHistory, NotebooksIn;
    StoredNotebooksAreNotErased(system);
    var next := Proceed(system.core, client, step, sizes);
    if next != client {
      NewPhaseKeepsHolds(system, device, next.phase);
    }
  }

  lemma ReadingKeepsHolds(system: System, device: string, step: Step, sizes: Sizes)
    requires Holds(system) && device in system.clients
    requires step.ReadCounter? || step.ReadBoundary? || step.ReadRows? || step.Abandon? || step.ScanTree?
    ensures Holds(Put(system, device, Proceed(system.core, system.clients[device], step, sizes)))
  {
    var client := system.clients[device];
    assert Put(system, device, client) == system;
    hide Holds, BoundaryOf, Window;
    if step.ReadBoundary? && client.phase.Counted? {
      BoundaryReadKeepsHolds(system, device, step, sizes);
    } else if step.ReadRows? && client.phase.Bounded? {
      RowsReadKeepsHolds(system, device, step, sizes);
    } else if !step.ReadBoundary? && !step.ReadRows? {
      PlainReadKeepsHolds(system, device, step, sizes);
    }
  }

  lemma StoredNotebooksAreNotErased(system: System)
    requires LogIsHistory(system)
    ensures forall id :: id in NotebooksIn(system.core.store.rows) ==> id !in system.erased
  {
    forall id | id in NotebooksIn(system.core.store.rows)
      ensures id !in system.erased
    {
      assert NotebookKey(id) in system.core.store.rows;
    }
  }

  lemma NothingToCover(rows: Rows, cursor: nat, upper: nat)
    requires upper <= cursor
    ensures PageCovers(rows, cursor, upper, map[])
  {
  }

  /** A page holds only notebooks that were stored when it was read, so none that was erased by then. */
  lemma WindowNotebooksAreStored(system: System, cursor: nat, pageEnd: nat)
    requires LogIsHistory(system)
    ensures forall id :: id in NotebooksIn(Window(system.core.store.rows, WHOLE, cursor, pageEnd)) ==>
              id !in system.erased
  {
    forall id | id in NotebooksIn(Window(system.core.store.rows, WHOLE, cursor, pageEnd))
      ensures id !in system.erased
    {
      assert NotebookKey(id) in system.core.store.rows;
    }
  }

  /** A page answered: nothing purged but what was erased, and everything the client must hear of. */
  lemma AnsweringHolds(system: System, device: string, purged: set<Key>)
    requires Holds(system) && device in system.clients && system.clients[device].phase.RowsRead?
    requires var client := system.clients[device];
             && (forall key :: key in purged ==> key.kind.Notebook? && key.id in system.erased)
             && (client.intact ==>
                   forall id ::
                     id in Carried(client) && id in system.erased && system.erased[id] <= client.phase.pageEnd ==>
                     NotebookKey(id) in purged)
    ensures var client := system.clients[device];
            Holds(Put(system, device, client.(phase := Answered(client.phase.pageEnd, client.phase.page, purged))))
  {
    var client := system.clients[device];
    var next := client.(phase := Answered(client.phase.pageEnd, client.phase.page, purged));
    assert ClientHolds(system, device);
    assert Carried(next) == Carried(client);
    hide Holds, PageCovers, Carried, Standing;
    PutKeepsHolds(system, device, next);
  }

  lemma PurgesAreHistory(system: System, since: nat, pageEnd: nat)
    requires LogIsHistory(system)
    ensures forall key :: key in PurgeWindow(system.core.purges, since, pageEnd) ==>
              key.kind.Notebook? && key.id in system.erased
  {
  }

  lemma ReadPurgesKeepsHolds(system: System, device: string, step: Step, sizes: Sizes)
    requires Holds(system) && device in system.clients && step.ReadPurges?
    ensures Holds(Put(system, device, Proceed(system.core, system.clients[device], step, sizes)))
  {
    var client := system.clients[device];
    assert Put(system, device, client) == system;
    if client.phase.RowsRead? {
      var pageEnd := client.phase.pageEnd;
      var purged := PurgeWindow(system.core.purges, client.cursor, pageEnd);
      assert ClientHolds(system, device);
      PurgesAreHistory(system, client.cursor, pageEnd);
      hide Holds, PageCovers, Carried;
      forall id | client.intact && id in Carried(client) && id in system.erased && system.erased[id] <= pageEnd
        ensures NotebookKey(id) in purged
      {
        assert Standing(system.core, id, system.erased[id]);
      }
      hide ClientHolds, PurgeWindow;
      AnsweringHolds(system, device, purged.Keys);
    }
    hide Holds;
  }

  lemma ApplyingKeepsHolds(system: System, device: string)
    requires Holds(system) && device in system.clients && system.clients[device].phase.Answered?
    ensures Holds(Put(system, device, Applied(system.clients[device])))
  {
    var client := system.clients[device];
    assert ClientHolds(system, device);
    hide Sound, PageCovers;
    CascadeTakesTheDoomed(Merged(client), client.phase.purged);
    forall id | client.intact && id in Carried(Applied(client)) && id in system.erased
      ensures Applied(client).peak < system.erased[id] && Standing(system.core, id, system.erased[id])
    {
      assert id in Carried(client) by { AppliedCarriesLess(client, id); }
      assert NotebookKey(id) !in client.phase.purged by { AppliedCarriesLess(client, id); }
    }
    hide Cascade, Carried;
    PutKeepsHolds(system, device, Applied(client));
  }

  lemma CascadeTakesTheDoomed(rows: Rows, doomed: set<Key>)
    ensures doomed <= Cascade(rows, doomed)
  {
    hide Cascade;
    CascadeIsTheSubtree(rows, doomed);
    forall key | key in doomed
      ensures BeneathAny(rows, key, doomed)
    {
      assert Under(rows, key, key);
    }
  }

  /** What a client has after a response it had, or was being handed, before; and nothing purged. */
  lemma AppliedCarriesLess(client: Client, id: string)
    requires client.phase.Answered? && id in Carried(Applied(client))
    ensures id in Carried(client) && NotebookKey(id) !in client.phase.purged
  {
    CascadeTakesTheDoomed(Merged(client), client.phase.purged);
    hide Cascade;
    var page := client.phase.page;
    assert forall key :: key in Merged(client) ==> key in client.replica || key in page;
    if id in NotebooksIn(Applied(client).replica) {
      assert NotebookKey(id) in Merged(client);
    }
  }

  lemma HoldingKeepsHolds(system: System, device: string, step: Step, sizes: Sizes)
    requires Holds(system) && device in system.clients
    requires step.ApplyScan? || step.Discard? || step.HearPurged? || step.Rewind?
    ensures Holds(Put(system, device, Proceed(system.core, system.clients[device], step, sizes)))
  {
    var client := system.clients[device];
    var next := Proceed(system.core, client, step, sizes);
    assert Carried(next) <= Carried(client) by {
      assert next.replica.Keys <= client.replica.Keys;
      assert NotebooksIn(next.replica) <= NotebooksIn(client.replica);
    }
    hide Holds, Carried, Cascade;
    HavingLessKeepsHolds(system, device, next);
  }

  lemma FreshClientHolds(system: System, device: string)
    requires device in system.clients && system.clients[device].phase.Idle? && Active(system, device)
    requires Carried(system.clients[device]) == {}
    requires system.clients[device].cursor <= system.clients[device].peak <= system.core.counter
    requires system.devices[device].lastPulledSeq <= system.clients[device].peak
    ensures ClientHolds(system, device)
  {
    hide Carried, Standing;
  }

  /** Signing in leaves a device's request behind, its data where it was, and its acknowledgement at zero. */
  lemma ReturningClientHolds(system: System, after: System, device: string)
    requires device in system.clients && ClientHolds(system, device)
    requires device in after.clients && after.clients[device] == system.clients[device].(phase := Idle)
    requires after.core == system.core && after.erased == system.erased
    requires Active(after, device) && after.devices[device].lastPulledSeq == 0
    ensures ClientHolds(after, device)
  {
    hide Standing;
  }

  lemma SignInKeepsHolds(system: System, device: string, wiped: bool, sizes: Sizes)
    requires Holds(system)
    ensures Holds(Advance(system, SignIn(device, wiped), sizes))
  {
    var after := Advance(system, SignIn(device, wiped), sizes);
    if device in system.clients {
      assert ClientHolds(system, device);
    }
    hide Sound, PageCovers, Standing, WillHear, PhaseReads, LogIsHistory;
    forall other | other in after.clients
      ensures ClientHolds(after, other)
    {
      hide ClientHolds;
      if other != device {
        UntouchedHolds(system, after, other);
      } else if device !in system.clients || wiped {
        assert Carried(after.clients[device]) == {};
        assert device in system.clients ==> system.clients[device].peak <= system.core.counter by {
          if device in system.clients { PeakIsReached(system, device); }
        }
        hide Carried;
        FreshClientHolds(after, device);
      } else {
        ReturningClientHolds(system, after, device);
      }
    }
    hide ClientHolds;
    assert LogIsHistory(after) by { LogDependsOnTables(system, after); }
  }

  lemma PeakIsReached(system: System, device: string)
    requires device in system.clients && ClientHolds(system, device)
    ensures system.clients[device].peak <= system.core.counter
  {
    hide PhaseReads, WillHear;
  }

  lemma LogDependsOnTables(system: System, after: System)
    requires LogIsHistory(system) && after.core == system.core && after.erased == system.erased
    ensures LogIsHistory(after)
  {
  }

  /** The device whose row a step changed: no longer intact, or having presented no more than its peak. */
  lemma OwnDeviceStepHolds(system: System, after: System, device: string)
    requires device in system.clients && ClientHolds(system, device)
    requires device in after.clients && after.core == system.core && after.erased == system.erased
    requires after.clients[device] == system.clients[device].(intact := after.clients[device].intact)
    requires after.clients[device].intact ==>
               && system.clients[device].intact && Active(after, device)
               && after.devices[device].lastPulledSeq <= system.clients[device].peak
    ensures ClientHolds(after, device)
  {
    hide PageCovers, Carried, Standing;
  }

  /** A device step touches one device's row and, when it revokes, its client's standing. */
  lemma DeviceStepShape(system: System, step: Step, sizes: Sizes)
    requires step.Revoke? || step.Remove? || step.Acknowledge?
    ensures var after := Advance(system, step, sizes);
            && after.core == system.core && after.erased == system.erased && after.clients.Keys == system.clients.Keys
            && (forall other :: other in system.clients && other != step.device ==>
                  after.clients[other] == system.clients[other])
            && (forall other :: other in system.devices && other != step.device ==>
                  other in after.devices && after.devices[other] == system.devices[other])
  {
    hide Carried;
  }

  lemma OwnDeviceStepShape(system: System, step: Step, sizes: Sizes)
    requires step.Revoke? || step.Remove? || step.Acknowledge?
    requires step.device in system.clients
    ensures var client, after := system.clients[step.device], Advance(system, step, sizes);
            && step.device in after.clients
            && after.clients[step.device] == client.(intact := after.clients[step.device].intact)
            && (after.clients[step.device].intact && Active(system, step.device) &&
                system.devices[step.device].lastPulledSeq <= client.peak ==>
                  Active(after, step.device) && after.devices[step.device].lastPulledSeq <= client.peak)
            && (after.clients[step.device].intact ==> client.intact)
            && (step.Revoke? && step.device !in system.devices ==> after == system)
  {
  }

  lemma DeviceStepKeepsHolds(system: System, step: Step, sizes: Sizes)
    requires Holds(system)
    requires step.Revoke? || step.Remove? || step.Acknowledge?
    ensures Holds(Advance(system, step, sizes))
  {
    var after := Advance(system, step, sizes);
    DeviceStepShape(system, step, sizes);
    hide Advance, Sound, PhaseReads, Carried, Standing, LogIsHistory;
    forall other | other in after.clients
      ensures ClientHolds(after, other)
    {
      assert ClientHolds(system, other);
      if other != step.device {
        hide ClientHolds;
        UntouchedHolds(system, after, other);
      } else {
        OwnDeviceStepShape(system, step, sizes);
        assert system.clients[other].intact ==>
                 Active(system, other) && system.devices[other].lastPulledSeq <= system.clients[other].peak;
        hide ClientHolds;
        OwnDeviceStepHolds(system, after, other);
      }
    }
    hide ClientHolds;
    assert LogIsHistory(after) by { LogDependsOnTables(system, after); }
  }

  lemma DraftKeepsHolds(system: System, device: string, id: string)
    requires Holds(system) && device in system.clients && id !in system.erased
    ensures Holds(Put(system, device, system.clients[device].(held := system.clients[device].held + {id})))
  {
    assert ClientHolds(system, device);
    hide Sound, PageCovers;
    PutKeepsHolds(system, device, system.clients[device].(held := system.clients[device].held + {id}));
  }

  lemma {:induction false} AdvanceKeepsHolds(system: System, step: Step, sizes: Sizes)
    requires Holds(system) && Conforms(system, step)
    ensures Holds(Advance(system, step, sizes))
  {
    hide Holds, Proceed, EraseNotebook, Perform;
    match step {
      case Push(device, raws) =>
        if Active(system, device) { PushKeepsHolds(system, device, raws); }
      case Erase(id) =>
        if EraseNotebook(system.core, system.devices, id).Ok? { EraseKeepsHolds(system, id); }
      case Unhost(id, nowMillis) => UnhostKeepsHolds(system, id, nowMillis);
      case Attach(op) => if OnAttachments(op) { AttachKeepsHolds(system, op); }
      case SignIn(device, wiped) => SignInKeepsHolds(system, device, wiped, sizes);
      case Revoke(_) => DeviceStepKeepsHolds(system, step, sizes);
      case Remove(_) => DeviceStepKeepsHolds(system, step, sizes);
      case Acknowledge(_, _) => DeviceStepKeepsHolds(system, step, sizes);
      case Draft(device, id) =>
        if device in system.clients && id !in system.erased { DraftKeepsHolds(system, device, id); }
      case Apply(device) =>
        if device in system.clients { ApplyStepKeepsHolds(system, device, step, sizes); }
      case ReadPurges(device) =>
        if device in system.clients { ReadPurgesKeepsHolds(system, device, step, sizes); }
      case ApplyScan(device) =>
        if device in system.clients { HoldingKeepsHolds(system, device, step, sizes); }
      case Discard(device, _) =>
        if device in system.clients { HoldingKeepsHolds(system, device, step, sizes); }
      case HearPurged(device, id) =>
        if device in system.clients && id in system.erased { HoldingKeepsHolds(system, device, step, sizes); }
      case Rewind(device, _) =>
        if device in system.clients { HoldingKeepsHolds(system, device, step, sizes); }
      case _ =>
        if step.device in system.clients { ReadingKeepsHolds(system, step.device, step, sizes); }
    }
  }

  lemma ApplyStepKeepsHolds(system: System, device: string, step: Step, sizes: Sizes)
    requires Holds(system) && device in system.clients && step.Apply?
    ensures Holds(Put(system, device, Proceed(system.core, system.clients[device], step, sizes)))
  {
    hide Holds;
    if system.clients[device].phase.Answered? {
      ApplyingKeepsHolds(system, device);
    } else {
      assert Put(system, device, system.clients[device]) == system;
    }
  }
}
