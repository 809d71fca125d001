/**
 The request handlers, for the order they do things in: what is committed first, who is told
 afterwards, and when a presented cursor counts as an acknowledgement.
 */
module Handlers {
  import opened Outcomes
  import opened Tables
  import opened Changes
  import opened Engine
  import opened PushPath
  import opened Admin
  import opened Delta
  import opened Pull
  import opened Overruns
  import opened PullAnswers
  import opened DeviceTable
  import opened ChangeFeed

  const MAX_CHANGES_PER_BATCH: nat := 512
  const DEFAULT_PULL_LIMIT: nat := 512
  const MAX_PULL_LIMIT: nat := 2048
  const MAX_SKIPPED_NOTEBOOKS: nat := 256

  datatype Refusal = InvalidRequest | InternalError | NotFound

  // ------------------------------------------------------------------ reading a pull's query

  /** `limit` is absent or a number; `scope` is empty when it was not given. */
  datatype PullParameters = PullParameters(since: int, limit: Option<int>, scope: string, skipNotebook: seq<string>)

  /** Each filter leaves rows out, so a combination that cannot mean anything is refused. */
  function ReadDeltaFilter(scope: string, skipNotebook: seq<string>): (filter: Result<DeltaFilter, Refusal>)
    ensures filter.Ok? ==> (filter.value.treeOnly <==> scope == "tree") && filter.value.skipNotebooks == skipNotebook
    ensures filter.Ok? <==>
              && (scope == "" || (scope == "tree" && skipNotebook == []))
              && |skipNotebook| <= MAX_SKIPPED_NOTEBOOKS
              && forall id :: id in skipNotebook ==> IdFault(id).None?
  {
    if scope != "" && scope != "tree" then Err(InvalidRequest)
    else if |skipNotebook| > MAX_SKIPPED_NOTEBOOKS then Err(InvalidRequest)
    else if exists id :: id in skipNotebook && IdFault(id).Some? then Err(InvalidRequest)
    else if scope == "tree" && |skipNotebook| > 0 then Err(InvalidRequest)
    else Ok(DeltaFilter(scope == "tree", skipNotebook))
  }

  /** Absent, the limit is the default; a cursor is never negative. */
  function ReadPull(parameters: PullParameters): (query: Result<Query, Refusal>)
    ensures query.Ok? <==>
              && 0 <= parameters.since
              && (parameters.limit.Some? ==> 1 <= parameters.limit.value <= MAX_PULL_LIMIT)
              && ReadDeltaFilter(parameters.scope, parameters.skipNotebook).Ok?
    ensures query.Ok? ==>
              && query.value.since == parameters.since
              && query.value.limit == (if parameters.limit.Some? then parameters.limit.value else DEFAULT_PULL_LIMIT)
              && (query.value.filter.treeOnly <==> parameters.scope == "tree")
              && query.value.filter.skipNotebooks == parameters.skipNotebook
    ensures query.Err? ==> query.error.InvalidRequest?
  {
    var limit := if parameters.limit.Some? then parameters.limit.value else DEFAULT_PULL_LIMIT;
    if parameters.since < 0 || limit < 1 || limit > MAX_PULL_LIMIT then Err(InvalidRequest)
    else
      match ReadDeltaFilter(parameters.scope, parameters.skipNotebook)
      case Err(refusal) => Err(refusal)
      case Ok(filter) => Ok(Query(parameters.since, limit, filter))
  }

  /** The answer the parameters ask for, of rows and gravestones as the last reads found them. */
  ghost predicate Answers(parameters: PullParameters, upper: nat, atRead: Rows, purgesLast: map<Key, nat>,
                          answer: PullResult)
  {
    && Carries(atRead, answer.changes, parameters.since, answer.cursor, parameters.scope == "tree",
               parameters.skipNotebook)
    && (if parameters.scope == "tree" then answer.purges == map[]
        else CarriesPurges(purgesLast, answer.purges, parameters.since, answer.cursor))
    && answer.cursor <= upper && (answer.hasMore <==> answer.cursor < upper)
  }

  /** Commits in between only take rows out of its range: none comes out of a skipped notebook. */
  ghost predicate OnlyShrinks(parameters: PullParameters, upper: nat, atBoundary: Rows, atRead: Rows) {
    && OnlyLeft(atBoundary, atRead, upper)
    && (parameters.skipNotebook != [] && parameters.since >= 0 ==>
          StaySkipped(atBoundary, atRead, Query(parameters.since, 0, DeltaFilter(false, parameters.skipNotebook)),
                      upper))
  }

  /** A device's row after it presented a cursor; a row that is gone stays gone. */
  function Acknowledged(entries: DeviceEntries, id: string, cursor: nat): DeviceEntries {
    if id in entries && entries[id].lastPulledSeq < cursor then entries[id := entries[id].(lastPulledSeq := cursor)]
    else entries
  }

  lemma ThePullIsAnswered(parameters: PullParameters, upper: nat, atBoundary: Rows, atRead: Rows,
                          purgesLast: map<Key, nat>, sizes: Sizes)
    requires ReadPull(parameters).Ok? && Closed(atRead) && OnlyShrinks(parameters, upper, atBoundary, atRead)
    requires PullFiltered(upper, atBoundary, atRead, purgesLast, ReadPull(parameters).value, sizes).Ok?
    ensures Answers(parameters, upper, atRead, purgesLast,
                    PullFiltered(upper, atBoundary, atRead, purgesLast, ReadPull(parameters).value, sizes).value)
  {
    var query := ReadPull(parameters).value;
    if parameters.skipNotebook == [] {
      NothingSkippedStaysSkipped(atBoundary, atRead, query, upper);
    }
    assert StaySkipped(atBoundary, atRead, query, upper);
    hide PullFiltered, StaySkipped, OnlyLeft, Closed, Carries, CarriesPurges;
    WhatAPullAnswers(upper, atBoundary, atRead, purgesLast, query, sizes);
  }

  /**
   A pull, its tables as each of its reads found them. What the client presented is acknowledged only
   after its answer was read, never what the answer says, and never for a tree read. Whether the
   acknowledgement could be recorded makes no difference to the answer.
   */
  method HandlePullChanges(devices: DeviceStore, caller: string, parameters: PullParameters, upper: nat,
                           atBoundary: Rows, atRead: Rows, purgesLast: map<Key, nat>, sizes: Sizes,
                           recordFails: bool)
    returns (answer: Result<PullResult, Refusal>)
    requires devices.Valid()
    modifies devices
    ensures devices.Valid()
    ensures answer.Ok? <==>
              && ReadPull(parameters).Ok?
              && PullFiltered(upper, atBoundary, atRead, purgesLast, ReadPull(parameters).value, sizes).Ok?
    ensures answer.Ok? ==>
              PullFiltered(upper, atBoundary, atRead, purgesLast, ReadPull(parameters).value, sizes) == Ok(answer.value)
    ensures answer.Ok? && Closed(atRead) && OnlyShrinks(parameters, upper, atBoundary, atRead) ==>
              Answers(parameters, upper, atRead, purgesLast, answer.value)
    ensures devices.entries ==
            if answer.Ok? && parameters.scope != "tree" && !recordFails
            then Acknowledged(old(devices.entries), caller, parameters.since) else old(devices.entries)
  {
    hide Answers, OnlyShrinks, Closed;
    var query := ReadPull(parameters);
    if query.Err? {
      return Err(InvalidRequest);
    }
    hide PullFiltered;
    var result := PullFiltered(upper, atBoundary, atRead, purgesLast, query.value, sizes);
    if result.Err? {
      return Err(InternalError);
    }
    if Closed(atRead) && OnlyShrinks(parameters, upper, atBoundary, atRead) {
      ThePullIsAnswered(parameters, upper, atBoundary, atRead, purgesLast, sizes);
    }
    // A failed acknowledgement is logged and the answer sent all the same.
    if !query.value.filter.treeOnly && !recordFails {
      devices.RecordAcknowledgedSeq(caller, query.value.since);
    }
    return Ok(result.value);
  }

  // ------------------------------------------------------------------ commit, then tell

  /** Whether this account's listener hears of a commit by this device. */
  ghost predicate Hears(listenerAccount: string, listenerDevice: string, account: string, author: string) {
    listenerAccount == account && (author == "" || listenerDevice != author)
  }

  /** A push wakes the account's other streams if and only if it committed work: a replay, a refused batch
      and a failed one wake nobody. */
  method HandlePushChanges(database: AccountDatabase, broker: Broker, account: string, request: PushRequest,
                           batchIdIsUuid: bool, now: int, window: nat, prune: bool)
    returns (answer: Result<PushAnswer, Refusal>)
    requires broker.Valid()
    modifies database, broker.subscribers
    ensures broker.Valid()
    ensures var valid := batchIdIsUuid && |request.changes| <= MAX_CHANGES_PER_BATCH;
            var pushed := Push(old(database.View()), request, now, window, prune);
            && database.View() == (if valid then pushed.account else old(database.View()))
            && (answer.Ok? <==> valid && pushed.answer.Ok?)
            && (answer.Ok? ==> answer.value == pushed.answer.value)
            && forall listener :: listener in broker.subscribers ==>
                 listener.queue ==
                 if valid && pushed.answer.Ok? && pushed.committed &&
                    Hears(listener.account, listener.device, account, request.device) && old(listener.queue) == []
                 then [Changes] else old(listener.queue)
  {
    if !batchIdIsUuid || |request.changes| > MAX_CHANGES_PER_BATCH {
      return Err(InvalidRequest);
    }
    hide Push;
    var response, committed := database.ApplyChangeBatch(request, now, window, prune);
    if response.Err? {
      return Err(InternalError);
    }
    if committed {
      broker.Publish(account, request.device);
    }
    return Ok(response.value);
  }

  /** Signing in: the row is written first, then every stream the old token opened is closed. */
  method HandleRegisterDevice(devices: DeviceStore, broker: Broker, account: string, installation: Option<string>,
                              tokenHash: string, freshId: string) returns (id: string)
    requires devices.Valid() && broker.Valid() && freshId !in devices.entries
    requires forall other :: other in devices.entries ==> devices.entries[other].tokenHash != tokenHash
    modifies devices, broker.subscribers
    ensures devices.Valid() && broker.Valid()
    ensures Authenticates(devices.entries, tokenHash, id)
    ensures id in old(devices.entries) ==>
              forall other :: !Authenticates(devices.entries, old(devices.entries)[id].tokenHash, other)
    ensures forall listener :: listener in broker.subscribers ==>
              listener.queue == if listener.account == account && listener.device == id then [Disconnected]
                                else old(listener.queue)
  {
    id := devices.RegisterDevice(account, installation, tokenHash, freshId);
    broker.Disconnect(account, id);
  }

  /** Revoking: the token stops working first, then the device's streams are told. Another account's device
      is not found, and nobody is told anything. */
  method HandleRevokeDevice(devices: DeviceStore, broker: Broker, account: string, id: string)
    returns (refusal: Option<Refusal>)
    requires devices.Valid() && broker.Valid()
    modifies devices, broker.subscribers
    ensures devices.Valid() && broker.Valid()
    ensures refusal.None? <==> id in old(devices.entries) && old(devices.entries)[id].account == account
    ensures refusal.None? ==> forall other :: !Authenticates(devices.entries, old(devices.entries)[id].tokenHash, other)
    ensures refusal.Some? ==> devices.entries == old(devices.entries)
    ensures forall listener :: listener in broker.subscribers ==>
              listener.queue == if refusal.None? && listener.account == account && listener.device == id then [Revoked]
                                else old(listener.queue)
  {
    var fault := devices.RevokeDevice(account, id);
    if fault.Some? {
      return Some(NotFound);
    }
    broker.Revoke(account, id);
    return None;
  }

  /** Erasing a notebook for good wakes every stream of the account, its author's too: it has none. */
  method HandleDeleteArchivedNotebook(database: AccountDatabase, broker: Broker, account: string, devices: Devices,
                                      id: string) returns (refusal: Option<Refusal>)
    requires broker.Valid()
    modifies database, broker.subscribers
    ensures broker.Valid()
    ensures refusal.None? <==> EraseNotebook(old(database.CoreView()), devices, id).Ok?
    ensures database.CoreView() == (if refusal.None? then EraseNotebook(old(database.CoreView()), devices, id).value
                                    else old(database.CoreView()))
    ensures forall listener :: listener in broker.subscribers ==>
              listener.queue == if refusal.None? && listener.account == account && old(listener.queue) == []
                                then [Changes] else old(listener.queue)
  {
    hide EraseNotebook;
    var failure := DeleteArchivedNotebook(database, devices, id);
    if failure.Some? {
      return Some(NotFound);
    }
    broker.Publish(account, "");
    return None;
  }
}
