/**
 One pass of the sweeper, and one upload, as the code runs them. Each is proved to take the steps of the
 protocol in its order; and passes repeated on a quiet store are proved to leave exactly what is wanted,
 however far the cap on one pass spreads the work.
 */
module Sweeper {
  import opened Outcomes
  import opened Tables
  import opened Changes
  import opened BlobFiles
  import opened BlobTables
  import opened BlobProtocol

  const MAX_DELETIONS_PER_PASS: nat := 2000

  datatype ClaimKey = ClaimKey(account: string, digest: Digest)

  /** Tables and files together: what survives a crash. */
  datatype Holding = Holding(disk: Disk, ledgers: Ledgers)

  /** What can go wrong with one candidate: its row, its unlink, or the whole pass being called off. */
  datatype Trouble = RowFails | UnlinkFails | CalledOff

  datatype SweepCounts = SweepCounts(rowsDeleted: nat, filesDeleted: nat, bytesFreed: nat)

  // ------------------------------------------------------------------ one worker on its own

  /** A server on which one worker is about to start, and nobody else is doing anything. */
  function Alone(holding: Holding, job: Job): Server {
    Server(holding.disk, 0, holding.ledgers, map[], map[0 := job])
  }

  function Left(server: Server): Holding {
    Holding(server.disk, server.ledgers)
  }

  function SweepSteps(server: Server, now: int, rowFails: bool, unlinkFails: bool, setting: Setting): Server {
    var locked := Work(server, TakeLock(0), setting);
    var deleted := Work(locked, DeleteRow(0, now, rowFails), setting);
    var unlinked := Work(deleted, Unlink(0, unlinkFails), setting);
    Work(unlinked, Release(0), setting)
  }

  function UploadSteps(server: Server, fault: Option<PublishFault>, outcome: RecordOutcome, checkFails: bool,
                       removeFails: bool, setting: Setting): Server {
    var locked := Work(server, TakeLock(0), setting);
    var published := Work(locked, Publish(0, fault), setting);
    var recorded := Work(published, Record(0, outcome), setting);
    var checked := Work(recorded, CheckHolders(0, checkFails), setting);
    var removed := Work(checked, Unlink(0, removeFails), setting);
    Work(removed, Release(0), setting)
  }

  // ------------------------------------------------------------------ one upload

  function WithRecord(ledgers: Ledgers, account: string, staged: StagedContent, outcome: RecordOutcome): Ledgers {
    if account !in ledgers || outcome.RolledBack? then ledgers
    else ledgers[account := Recorded(ledgers[account], staged.digest, staged.byteCount)]
  }

  /** Published, recorded, and taken back when the record failed and nobody claims the bytes. */
  function Uploaded(holding: Holding, account: string, staged: StagedContent, fault: Option<PublishFault>,
                    outcome: RecordOutcome, checkFails: bool, removeFails: bool): Holding {
    var published := PublishOn(holding.disk, staged, fault);
    if !published.ok then Holding(Discarded(published.disk, staged), holding.ledgers)
    else
      var ledgers := WithRecord(holding.ledgers, account, staged, outcome);
      var heard := account in holding.ledgers && outcome.Committed?;
      if heard || checkFails || HeldAnywhere(ledgers, staged.digest) || removeFails
      then Holding(published.disk, ledgers)
      else Holding(published.disk.(files := published.disk.files - {staged.digest}), ledgers)
  }

  /** The one worker, holding its lock. */
  function Busy(disk: Disk, ledgers: Ledgers, key: int, job: Job): Server {
    Server(disk, 0, ledgers, map[key := 0], map[0 := job])
  }

  lemma LockAndPublish(holding: Holding, account: string, staged: StagedContent, fault: Option<PublishFault>,
                       setting: Setting)
    ensures var published := PublishOn(holding.disk, staged, fault);
            Work(Work(Alone(holding, Received(account, staged)), TakeLock(0), setting), Publish(0, fault), setting) ==
            if published.ok
            then Busy(published.disk, holding.ledgers, setting.lockKey(staged.digest), Recording(account, staged))
            else Busy(Discarded(published.disk, staged), holding.ledgers, setting.lockKey(staged.digest),
                      Releasing(staged.digest))
  {
    hide PublishOn;
  }

  lemma RecordAlone(disk: Disk, ledgers: Ledgers, key: int, account: string, staged: StagedContent,
                    outcome: RecordOutcome, setting: Setting)
    ensures Work(Busy(disk, ledgers, key, Recording(account, staged)), Record(0, outcome), setting) ==
            Busy(disk, WithRecord(ledgers, account, staged, outcome), key,
                 if account in ledgers && outcome.Committed? then Releasing(staged.digest)
                 else Doubting(account, staged))
  {
    hide Recorded;
  }

  lemma CheckAlone(disk: Disk, ledgers: Ledgers, key: int, job: Job, checkFails: bool, setting: Setting)
    requires job.Doubting? || job.Releasing?
    ensures Work(Busy(disk, ledgers, key, job), CheckHolders(0, checkFails), setting) ==
            Busy(disk, ledgers, key,
                 if job.Releasing? then job
                 else if checkFails || HeldAnywhere(ledgers, job.staged.digest) then Releasing(job.staged.digest)
                 else Removing(job.staged.digest))
  {
    hide HeldAnywhere;
  }

  lemma RecordAndCheck(disk: Disk, ledgers: Ledgers, key: int, account: string, staged: StagedContent,
                       outcome: RecordOutcome, checkFails: bool, setting: Setting)
    ensures var recorded := WithRecord(ledgers, account, staged, outcome);
            var heard := account in ledgers && outcome.Committed?;
            Work(Work(Busy(disk, ledgers, key, Recording(account, staged)), Record(0, outcome), setting),
                 CheckHolders(0, checkFails), setting) ==
            Busy(disk, recorded, key,
                 if heard || checkFails || HeldAnywhere(recorded, staged.digest) then Releasing(staged.digest)
                 else Removing(staged.digest))
  {
    hide Work, WithRecord, HeldAnywhere, Busy;
    RecordAlone(disk, ledgers, key, account, staged, outcome, setting);
    var heard := account in ledgers && outcome.Committed?;
    CheckAlone(disk, WithRecord(ledgers, account, staged, outcome), key,
               if heard then Releasing(staged.digest) else Doubting(account, staged), checkFails, setting);
  }

  lemma UnlinkAndRelease(disk: Disk, ledgers: Ledgers, key: int, job: Job, unlinkFails: bool, setting: Setting)
    requires job.Releasing? || job.Removing?
    ensures Work(Work(Busy(disk, ledgers, key, job), Unlink(0, unlinkFails), setting), Release(0), setting) ==
            Server(if job.Removing? && !unlinkFails then disk.(files := disk.files - {job.digest}) else disk,
                   0, ledgers, map[], map[])
  {
  }

  lemma NothingMoreToDo(disk: Disk, ledgers: Ledgers, key: int, digest: Digest, outcome: RecordOutcome,
                        checkFails: bool,
                        setting: Setting)
    ensures var server := Busy(disk, ledgers, key, Releasing(digest));
            Work(Work(server, Record(0, outcome), setting), CheckHolders(0, checkFails), setting) == server
  {
  }

  /** Run alone, the protocol's upload steps do just that. */
  lemma {:induction false} UploadStepsUpload(holding: Holding, account: string, staged: StagedContent,
                                             fault: Option<PublishFault>,
                          outcome: RecordOutcome, checkFails: bool, removeFails: bool,
                                             setting: Setting)
    ensures var server := UploadSteps(Alone(holding, Received(account, staged)), fault, outcome, checkFails,
                                      removeFails, setting);
            && Left(server) == Uploaded(holding, account, staged, fault, outcome, checkFails, removeFails)
            && server.jobs == map[] && server.locks == map[]
  {
    var published := PublishOn(holding.disk, staged, fault);
    var key, digest := setting.lockKey(staged.digest), staged.digest;
    LockAndPublish(holding, account, staged, fault, setting);
    if published.ok {
      var recorded := WithRecord(holding.ledgers, account, staged, outcome);
      var heard := account in holding.ledgers && outcome.Committed?;
      var job := if heard || checkFails || HeldAnywhere(recorded, digest) then Releasing(digest) else Removing(digest);
      RecordAndCheck(published.disk, holding.ledgers, key, account, staged, outcome, checkFails, setting);
      UnlinkAndRelease(published.disk, recorded, key, job, removeFails, setting);
    } else {
      NothingMoreToDo(Discarded(published.disk, staged), holding.ledgers, key, digest, outcome, checkFails, setting);
      UnlinkAndRelease(Discarded(published.disk, staged), holding.ledgers, key, Releasing(digest), removeFails,
                       setting);
    }
    hide Work, PublishOn, HeldAnywhere, WithRecord, Busy, Alone;
  }

  // ------------------------------------------------------------------ one candidate

  predicate Takes(holding: Holding, key: ClaimKey, now: int, grace: nat, trouble: Option<Trouble>) {
    && trouble != Some(RowFails) && trouble != Some(CalledOff)
    && key.account in holding.ledgers && Deletable(holding.ledgers[key.account], key.digest, now, grace)
  }

  function WithoutClaim(ledgers: Ledgers, key: ClaimKey): Ledgers
    requires key.account in ledgers && key.digest in ledgers[key.account].claims
  {
    ledgers[key.account := Deleted(ledgers[key.account], key.digest)]
  }

  /** The claim goes when it may, and the file with it when that was the last claim anywhere. */
  function SweptOne(holding: Holding, key: ClaimKey, now: int, grace: nat, trouble: Option<Trouble>): Holding {
    if !Takes(holding, key, now, grace, trouble) then holding
    else
      var ledgers := WithoutClaim(holding.ledgers, key);
      if HeldAnywhere(ledgers, key.digest) || trouble == Some(UnlinkFails)
      then Holding(holding.disk, ledgers)
      else Holding(holding.disk.(files := holding.disk.files - {key.digest}), ledgers)
  }

  lemma LockAndDelete(holding: Holding, key: ClaimKey, now: int, rowFails: bool, setting: Setting)
    ensures var deletes := !rowFails && key.account in holding.ledgers &&
                           Deletable(holding.ledgers[key.account], key.digest, now, setting.grace);
            var ledgers := if deletes then WithoutClaim(holding.ledgers, key) else holding.ledgers;
            Work(Work(Alone(holding, Chosen(key.account, key.digest)), TakeLock(0), setting),
                 DeleteRow(0, now, rowFails), setting) ==
            Busy(holding.disk, ledgers, setting.lockKey(key.digest),
                 if deletes && !HeldAnywhere(ledgers, key.digest) then Removing(key.digest) else Releasing(key.digest))
  {
    hide HeldAnywhere, Deletable, Deleted;
  }

  /** Run alone, the protocol's sweep steps do just that. */
  lemma SweepStepsSweepOne(holding: Holding, key: ClaimKey, now: int, trouble: Option<Trouble>, setting: Setting)
    ensures var server := SweepSteps(Alone(holding, Chosen(key.account, key.digest)), now,
                                     trouble == Some(RowFails) || trouble == Some(CalledOff),
                                     trouble == Some(UnlinkFails), setting);
            && Left(server) == SweptOne(holding, key, now, setting.grace, trouble)
            && server.jobs == map[] && server.locks == map[]
  {
    var rowFails := trouble == Some(RowFails) || trouble == Some(CalledOff);
    LockAndDelete(holding, key, now, rowFails, setting);
    var deletes := Takes(holding, key, now, setting.grace, trouble);
    var ledgers := if deletes then WithoutClaim(holding.ledgers, key) else holding.ledgers;
    var job := if deletes && !HeldAnywhere(ledgers, key.digest) then Removing(key.digest) else Releasing(key.digest);
    UnlinkAndRelease(holding.disk, ledgers, setting.lockKey(key.digest), job, trouble == Some(UnlinkFails), setting);
    hide Work, HeldAnywhere, Deletable, Deleted, Busy, Alone;
  }

  // ------------------------------------------------------------------ one pass over its candidates

  datatype Progress = Progress(holding: Holding, counts: SweepCounts, stopped: bool)

  /** A deletion whose unlink fails is reported as an error, so the pass does not count its row. */
  function SweepNext(before: Progress, key: ClaimKey, now: int, grace: nat, trouble: Option<Trouble>): Progress {
    if before.stopped then before
    else if trouble == Some(CalledOff) then before.(stopped := true)
    else
      var after := SweptOne(before.holding, key, now, grace, trouble);
      if !Takes(before.holding, key, now, grace, trouble) then before
      else if trouble == Some(UnlinkFails) && !HeldAnywhere(after.ledgers, key.digest) then before.(holding := after)
      else
        var bytes := before.holding.ledgers[key.account].claims[key.digest].byteCount;
        var fileDeleted := !HeldAnywhere(after.ledgers, key.digest);
        Progress(after,
                 SweepCounts(before.counts.rowsDeleted + 1,
                             before.counts.filesDeleted + (if fileDeleted then 1 else 0),
                             before.counts.bytesFreed + bytes),
                 false)
  }

  function TroubleWith(troubles: map<ClaimKey, Trouble>, key: ClaimKey): Option<Trouble> {
    if key in troubles then Some(troubles[key]) else None
  }

  function SweepAll(holding: Holding, keys: seq<ClaimKey>, now: int, grace: nat,
                    troubles: map<ClaimKey, Trouble>): Progress {
    if keys == [] then Progress(holding, SweepCounts(0, 0, 0), false)
    else
      var last := keys[|keys| - 1];
      SweepNext(SweepAll(holding, keys[..|keys| - 1], now, grace, troubles), last, now, grace,
                TroubleWith(troubles, last))
  }

  /** The three statements of a pass's own transaction. */
  function Examined(ledgers: Ledgers, now: int): Ledgers {
    EveryLedger(EveryLedger(EveryLedger(ledgers, ledger => Pruned(ledger)), ledger => Marked(ledger, now)),
                ledger => Unmarked(ledger))
  }

  function OverdueKeys(ledgers: Ledgers, now: int, grace: nat): set<ClaimKey> {
    set account, digest | account in ledgers && digest in ledgers[account].claims &&
                          Overdue(ledgers[account].claims[digest], now, grace)
      :: ClaimKey(account, digest)
  }

  /** When a claim was marked; the order of the candidate list, so asked of marked claims only. */
  function MarkOf(ledgers: Ledgers, key: ClaimKey): int {
    if key.account in ledgers && key.digest in ledgers[key.account].claims &&
       ledgers[key.account].claims[key.digest].unreferencedSince.Some?
    then ledgers[key.account].claims[key.digest].unreferencedSince.value
    else 0
  }

  ghost predicate Distinct(keys: seq<ClaimKey>) {
    forall i, j :: 0 <= i < j < |keys| ==> keys[i] != keys[j]
  }

  /** The candidate list: overdue claims, oldest mark first, as many as the limit allows. */
  ghost predicate IsSelection(ledgers: Ledgers, now: int, grace: nat, limit: nat, keys: seq<ClaimKey>) {
    var overdue := OverdueKeys(ledgers, now, grace);
    && Distinct(keys) && (forall key :: key in keys ==> key in overdue)
    && |keys| <= limit && (|keys| < limit ==> forall key :: key in overdue ==> key in keys)
    && (forall i, j :: 0 <= i < j < |keys| ==> MarkOf(ledgers, keys[i]) <= MarkOf(ledgers, keys[j]))
    && (forall key, other :: key in keys && other in overdue && other !in keys ==>
          MarkOf(ledgers, key) <= MarkOf(ledgers, other))
  }

  // ------------------------------------------------------------------ the code

  lemma OldestExists(ledgers: Ledgers, keys: set<ClaimKey>)
    requires keys != {}
    ensures exists key :: key in keys && forall other :: other in keys ==>
              MarkOf(ledgers, key) <= MarkOf(ledgers, other)
    decreases |keys|
  {
    var some :| some in keys;
    var rest := keys - {some};
    if rest == {} {
      assert keys == {some};
    } else {
      OldestExists(ledgers, rest);
      var oldest :| oldest in rest && forall other :: other in rest ==>
          MarkOf(ledgers, oldest) <= MarkOf(ledgers, other);
      var least := if MarkOf(ledgers, some) < MarkOf(ledgers, oldest) then some else oldest;
      assert forall other :: other in keys ==> other == some || other in rest;
      assert least in keys && forall other :: other in keys ==> MarkOf(ledgers, least) <= MarkOf(ledgers, other);
    }
  }

  lemma ExaminingKeepsKeys(ledgers: Ledgers, now: int)
    ensures Examined(ledgers, now).Keys == ledgers.Keys
    ensures forall account :: account in ledgers ==>
              Examined(ledgers, now)[account].claims.Keys == ledgers[account].claims.Keys
  {
    hide Reachable;
  }

  lemma {:induction false} StoppedStays(holding: Holding, keys: seq<ClaimKey>, n: nat, now: int, grace: nat,
                                        troubles: map<ClaimKey, Trouble>)
    requires n <= |keys| && SweepAll(holding, keys[..n], now, grace, troubles).stopped
    ensures SweepAll(holding, keys, now, grace, troubles) == SweepAll(holding, keys[..n], now, grace, troubles)
  {
    hide SweptOne, Takes, HeldAnywhere;
    if n < |keys| {
      assert keys[..|keys| - 1][..n] == keys[..n];
      StoppedStays(holding, keys[..|keys| - 1], n, now, grace, troubles);
    } else {
      assert keys[..n] == keys;
    }
  }

  lemma NothingSweptYet(holding: Holding, keys: seq<ClaimKey>, now: int, grace: nat, troubles: map<ClaimKey, Trouble>)
    ensures SweepAll(holding, keys[..0], now, grace, troubles) == Progress(holding, SweepCounts(0, 0, 0), false)
  {
  }

  lemma NextSwept(holding: Holding, keys: seq<ClaimKey>, i: nat, now: int, grace: nat, troubles: map<ClaimKey, Trouble>)
    requires i < |keys|
    ensures SweepAll(holding, keys[..i + 1], now, grace, troubles) ==
            SweepNext(SweepAll(holding, keys[..i], now, grace, troubles), keys[i], now, grace,
                      TroubleWith(troubles, keys[i]))
  {
    hide SweepNext;
    assert keys[..i + 1][..i] == keys[..i];
  }

  class AttachmentServer {
    const store: FileStore
    const grace: nat
    var ledgers: Ledgers

    ghost predicate Valid()
      reads this, store
    {
      && store.Valid()
      && forall account, digest :: account in ledgers && digest in ledgers[account].claims ==> ValidDigest(digest)
    }

    ghost function View(): Holding
      reads this, store
    {
      Holding(store.View(), ledgers)
    }

    constructor (store: FileStore, ledgers: Ledgers, grace: nat)
      requires store.Valid()
      requires forall account, digest :: account in ledgers && digest in ledgers[account].claims ==> ValidDigest(digest)
      ensures Valid() && this.store == store && this.grace == grace && this.ledgers == ledgers
    {
      this.store, this.ledgers, this.grace := store, ledgers, grace;
    }

    /** Both the row and the bytes, always. */
    method BlobHeldByAccount(account: string, digest: Digest) returns (held: Result<bool, BlobError>)
      requires ValidDigest(digest)
      ensures held == Ok(account in ledgers && digest in ledgers[account].claims && digest in store.files)
    {
      if account !in ledgers || digest !in ledgers[account].claims {
        return Ok(false);
      }
      held := store.Exists(digest);
    }

    /**
     Publishing and recording under the digest's lock, the failed record cleaned up after. A success
     means a claim and its bytes.
     */
    method PublishBlob(account: string, staged: StagedContent, fault: Option<PublishFault>, outcome: RecordOutcome,
                       checkFails: bool, removeFails: bool) returns (stored: Result<bool, BlobError>)
      requires Valid() && account in ledgers && ValidDigest(staged.digest)
      requires StagedWhole(store.View(), staged, store.hash)
      modifies this, store
      ensures Valid()
      ensures View() == Uploaded(old(View()), account, staged, fault, outcome, checkFails, removeFails)
      ensures stored.Ok? <==> PublishOn(old(store.View()), staged, fault).ok && outcome.Committed?
      ensures stored.Ok? ==> staged.digest in ledgers[account].claims && staged.digest in store.files
      ensures stored.Ok? ==> (stored.value <==> staged.digest !in old(ledgers)[account].claims)
      ensures stored.Ok? && stored.value ==>
                && ledgers[account].claims ==
                   old(ledgers)[account].claims[staged.digest := Claim(staged.byteCount, None)]
                && ledgers[account].storageBytes == old(ledgers)[account].storageBytes + staged.byteCount
      ensures stored.Ok? && !stored.value ==> ledgers == old(ledgers)
      ensures ledgers.Keys == old(ledgers).Keys && ledgers[account].store == old(ledgers)[account].store
      ensures forall other :: other in old(ledgers) && other != account ==> ledgers[other] == old(ledgers)[other]
      ensures outcome.RolledBack? ==> ledgers == old(ledgers)
      ensures staged.name !in store.staging
      ensures forall digest :: digest != staged.digest ==>
                (digest in store.files <==> digest in old(store.files))
      ensures PublishOn(old(store.View()), staged, fault).ok ==>
                (staged.digest !in store.files <==>
                   !outcome.Committed? && !checkFails && !removeFails && !HeldAnywhere(ledgers, staged.digest))
      ensures stored.Ok? && staged.digest !in old(store.files) && staged.name in old(store.staging) ==>
                store.files[staged.digest] == old(store.staging)[staged.name]
    {
      var ok := store.Publish(staged, fault);
      if !ok {
        store.Discard(staged);
        return Err(FileFault);
      }
      hide PublishOn;
      var created := staged.digest !in ledgers[account].claims;
      if !outcome.RolledBack? {
        ledgers := ledgers[account := Recorded(ledgers[account], staged.digest, staged.byteCount)];
      }
      if outcome.Committed? {
        return Ok(created);
      }
      if !checkFails && !HeldAnywhere(ledgers, staged.digest) {
        var _ := store.Remove(staged.digest, removeFails);
      }
      return Err(FileFault);
    }

    /** One candidate under its digest's lock: the row first, then the file nobody claims any more. */
    method DeleteOne(key: ClaimKey, now: int, trouble: Option<Trouble>)
      returns (deleted: bool, bytesFreed: nat, fileDeleted: bool, failed: bool)
      requires Valid() && ValidDigest(key.digest)
      modifies this, store
      ensures Valid() && View() == SweptOne(old(View()), key, now, grace, trouble)
      ensures deleted <==> Takes(old(View()), key, now, grace, trouble)
      ensures !deleted ==> View() == old(View())
      ensures deleted ==>
                && bytesFreed == old(ledgers)[key.account].claims[key.digest].byteCount
                && (fileDeleted <==> !HeldAnywhere(ledgers, key.digest) && trouble != Some(UnlinkFails))
                && (failed <==> !HeldAnywhere(ledgers, key.digest) && trouble == Some(UnlinkFails))
    {
      if trouble == Some(RowFails) || trouble == Some(CalledOff) {
        return false, 0, false, true;
      }
      if key.account !in ledgers || !Deletable(ledgers[key.account], key.digest, now, grace) {
        return false, 0, false, false;
      }
      var byteCount := ledgers[key.account].claims[key.digest].byteCount;
      ledgers := WithoutClaim(ledgers, key);
      if HeldAnywhere(ledgers, key.digest) {
        return true, byteCount, false, false;
      }
      var fault := store.Remove(key.digest, trouble == Some(UnlinkFails));
      return true, byteCount, fault.None?, fault.Some?;
    }

    method SelectSweepableBlobs(now: int, limit: nat) returns (keys: seq<ClaimKey>)
      ensures IsSelection(ledgers, now, grace, limit, keys)
    {
      hide MarkOf, OverdueKeys;
      var overdue := OverdueKeys(ledgers, now, grace);
      var remaining := overdue;
      keys := [];
      while remaining != {} && |keys| < limit
        invariant remaining <= overdue && |keys| <= limit && Distinct(keys)
        invariant forall key :: key in overdue <==> key in keys || key in remaining
        invariant forall key :: key in keys ==> key !in remaining
        invariant forall i, j :: 0 <= i < j < |keys| ==> MarkOf(ledgers, keys[i]) <= MarkOf(ledgers, keys[j])
        invariant forall key, other :: key in keys && other in remaining ==>
                    MarkOf(ledgers, key) <= MarkOf(ledgers, other)
        decreases |remaining|
      {
        OldestExists(ledgers, remaining);
        var oldest :| oldest in remaining &&
                      forall other :: other in remaining ==> MarkOf(ledgers, oldest) <= MarkOf(ledgers, other);
        keys := keys + [oldest];
        remaining := remaining - {oldest};
      }
    }

    /** The prune, the mark and the clearing, in the pass's own transaction. */
    method ExamineClaims(now: int)
      requires Valid()
      modifies this
      ensures Valid() && ledgers == Examined(old(ledgers), now)
    {
      ExaminingKeepsKeys(ledgers, now);
      hide Pruned, Marked, Unmarked;
      ledgers := EveryLedger(ledgers, ledger => Pruned(ledger));
      ledgers := EveryLedger(ledgers, ledger => Marked(ledger, now));
      ledgers := EveryLedger(ledgers, ledger => Unmarked(ledger));
      hide EveryLedger;
    }

    /** One pass: examine, list, then delete one by one; one blob that will not go does not stop the rest. */
    method SweepOnce(now: int, troubles: map<ClaimKey, Trouble>)
      returns (counts: SweepCounts, ghost keys: seq<ClaimKey>)
      requires Valid()
      modifies this, store
      ensures Valid()
      ensures IsSelection(Examined(old(ledgers), now), now, grace, MAX_DELETIONS_PER_PASS, keys)
      ensures var examined := Holding(old(store.View()), Examined(old(ledgers), now));
              View() == SweepAll(examined, keys, now, grace, troubles).holding &&
              counts == SweepAll(examined, keys, now, grace, troubles).counts
    {
      hide Examined, SweepAll, SweptOne, Takes, HeldAnywhere;
      ExamineClaims(now);
      ghost var examined := View();
      var candidates := SelectSweepableBlobs(now, MAX_DELETIONS_PER_PASS);
      keys := candidates;
      counts := SweepCounts(0, 0, 0);
      assert forall key :: key in candidates ==> ValidDigest(key.digest);
      hide IsSelection;
      NothingSweptYet(examined, candidates, now, grace, troubles);
      for i := 0 to |candidates|
        invariant Valid()
        invariant Progress(View(), counts, false) == SweepAll(examined, candidates[..i], now, grace, troubles)
      {
        var key := candidates[i];
        var trouble := TroubleWith(troubles, key);
        NextSwept(examined, candidates, i, now, grace, troubles);
        if trouble == Some(CalledOff) {
          StoppedStays(examined, candidates, i + 1, now, grace, troubles);
          return;
        }
        var deleted, bytesFreed, fileDeleted, failed := DeleteOne(key, now, trouble);
        if failed || !deleted {
          continue;
        }
        counts := SweepCounts(counts.rowsDeleted + 1, counts.filesDeleted + (if fileDeleted then 1 else 0),
                              counts.bytesFreed + bytesFreed);
      }
      assert candidates[..|candidates|] == candidates;
    }
  }
}
