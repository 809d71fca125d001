/**
 Uploads and sweeps racing over shared files. Each worker takes one step at a time: a publisher
 receives, locks, publishes, records and lets go; a sweeper locks, deletes a row, unlinks and lets go.
 A worker can die at any step, which drops its lock and keeps every table and file. Claims are one
 account's, files are everybody's, and the lock is on a hash of the digest.
 */
module BlobProtocol {
  import opened Outcomes
  import opened Tables
  import opened BlobFiles
  import opened BlobTables

  /** What this model knows nothing about: the two hash functions. And the retention window. */
  datatype Setting = Setting(hash: Hash, lockKey: Digest -> int, grace: nat)

  datatype Job =
    | Received(account: string, staged: StagedContent)     // an upload, not yet locked
    | Publishing(account: string, staged: StagedContent)
    | Recording(account: string, staged: StagedContent)
    | Doubting(account: string, staged: StagedContent)     // recording failed, as far as it can tell
    | Chosen(account: string, digest: Digest)              // a sweep's candidate, not yet locked
    | Deleting(account: string, digest: Digest)
    | Removing(digest: Digest)                             // nothing claims the bytes: they go
    | Releasing(digest: Digest)

  function DigestOf(job: Job): Digest {
    match job
    case Received(_, staged) => staged.digest
    case Publishing(_, staged) => staged.digest
    case Recording(_, staged) => staged.digest
    case Doubting(_, staged) => staged.digest
    case Chosen(_, digest) => digest
    case Deleting(_, digest) => digest
    case Removing(digest) => digest
    case Releasing(digest) => digest
  }

  predicate Locked(job: Job) {
    !job.Received? && !job.Chosen?
  }

  datatype Server = Server(disk: Disk, nextName: nat, ledgers: Ledgers, locks: map<int, nat>, jobs: map<nat, Job>)

  /** How a failing record call can have ended: not at all, or committed without anyone hearing of it. */
  datatype RecordOutcome = Committed | RolledBack | CommittedUnheard

  datatype Step =
    | OpenAccount(account: string)
    | Receive(worker: nat, account: string, digest: Digest, source: Source)
    | Choose(worker: nat, account: string, digest: Digest)
    | TakeLock(worker: nat)
    | Publish(worker: nat, fault: Option<PublishFault>)
    | Record(worker: nat, outcome: RecordOutcome)
    | CheckHolders(worker: nat, fails: bool)
    | DeleteRow(worker: nat, now: int, fails: bool)
    | Unlink(worker: nat, fails: bool)
    | Release(worker: nat)
    | Crash(worker: nat)
    | ClearStaging
    | Prune(account: string)
    | Mark(now: int)
    | Clear
    | MoveTables(account: string, store: Store)

  /** Both foreign keys of the reference table. */
  predicate Backed(store: Store, claims: map<Digest, Claim>) {
    forall ref :: ref in store.refs ==> Key(Page, ref.pageId) in store.rows && ref.digest in claims
  }

  function WithJob(server: Server, worker: nat, job: Job): Server {
    server.(jobs := server.jobs[worker := job])
  }

  function WithLedger(server: Server, account: string, ledger: Ledger): Server {
    server.(ledgers := server.ledgers[account := ledger])
  }

  function Unlocked(server: Server, worker: nat): map<int, nat> {
    map key | key in server.locks && server.locks[key] != worker :: server.locks[key]
  }

  function OnReceive(server: Server, step: Step, setting: Setting): Server
    requires step.Receive?
  {
    if step.worker in server.jobs || step.source.broken || setting.hash(step.source.bytes) != step.digest
    then server
    else
      var staged := StagedContent(server.nextName, step.digest, |step.source.bytes|);
      WithJob(server.(disk := server.disk.(staging := server.disk.staging[staged.name := step.source.bytes]),
                       nextName := server.nextName + 1),
               step.worker, Received(step.account, staged))
  }

  function OnTakeLock(server: Server, worker: nat, job: Job, setting: Setting): Server {
    var key := setting.lockKey(DigestOf(job));
    if key in server.locks then server
    else
      var locked := server.(locks := server.locks[key := worker]);
      match job
      case Received(account, staged) => WithJob(locked, worker, Publishing(account, staged))
      case Chosen(account, digest) => WithJob(locked, worker, Deleting(account, digest))
      case _ => server
  }

  /** A failed publish discards the partial and gives up; a successful one goes on to record. */
  function OnPublish(server: Server, worker: nat, job: Job, fault: Option<PublishFault>): Server
    requires job.Publishing?
  {
    var published := PublishOn(server.disk, job.staged, fault);
    if published.ok
    then WithJob(server.(disk := published.disk), worker, Recording(job.account, job.staged))
    else WithJob(server.(disk := Discarded(published.disk, job.staged)), worker, Releasing(job.staged.digest))
  }

  function OnRecord(server: Server, worker: nat, job: Job, outcome: RecordOutcome): Server
    requires job.Recording?
  {
    if job.account !in server.ledgers || outcome.RolledBack?
    then WithJob(server, worker, Doubting(job.account, job.staged))
    else
      var ledger := Recorded(server.ledgers[job.account], job.staged.digest, job.staged.byteCount);
      WithJob(WithLedger(server, job.account, ledger), worker,
               if outcome.Committed? then Releasing(job.staged.digest) else Doubting(job.account, job.staged))
  }

  function OnCheckHolders(server: Server, worker: nat, job: Job, fails: bool): Server
    requires job.Doubting?
  {
    var digest := job.staged.digest;
    WithJob(server, worker,
             if fails || HeldAnywhere(server.ledgers, digest) then Releasing(digest) else Removing(digest))
  }

  function OnDeleteRow(server: Server, worker: nat, job: Job, now: int, fails: bool, setting: Setting): Server
    requires job.Deleting?
  {
    if fails || job.account !in server.ledgers ||
       !Deletable(server.ledgers[job.account], job.digest, now, setting.grace)
    then WithJob(server, worker, Releasing(job.digest))
    else
      var after := WithLedger(server, job.account, Deleted(server.ledgers[job.account], job.digest));
      WithJob(after, worker,
               if HeldAnywhere(after.ledgers, job.digest) then Releasing(job.digest) else Removing(job.digest))
  }

  function OnUnlink(server: Server, worker: nat, job: Job, fails: bool): Server
    requires job.Removing?
  {
    var after := if fails then server
                 else server.(disk := server.disk.(files := server.disk.files - {job.digest}));
    WithJob(after, worker, Releasing(job.digest))
  }

  function Gone(server: Server, worker: nat): Server {
    server.(locks := Unlocked(server, worker), jobs := server.jobs - {worker})
  }

  /** A worker's own next step; a step its job is not at changes nothing. */
  function Work(server: Server, step: Step, setting: Setting): Server
    requires step.TakeLock? || step.Publish? || step.Record? || step.CheckHolders? || step.DeleteRow? ||
             step.Unlink? || step.Release? || step.Crash?
  {
    if step.worker !in server.jobs then server
    else
      var job := server.jobs[step.worker];
      match step
      case TakeLock(worker) => OnTakeLock(server, worker, job, setting)
      case Publish(worker, fault) => if job.Publishing? then OnPublish(server, worker, job, fault) else server
      case Record(worker, outcome) => if job.Recording? then OnRecord(server, worker, job, outcome) else server
      case CheckHolders(worker, fails) => if job.Doubting? then OnCheckHolders(server, worker, job, fails) else server
      case DeleteRow(worker, now, fails) =>
        if job.Deleting? then OnDeleteRow(server, worker, job, now, fails, setting) else server
      case Unlink(worker, fails) => if job.Removing? then OnUnlink(server, worker, job, fails) else server
      case Release(worker) => if job.Releasing? then Gone(server, worker) else server
      case Crash(worker) => Gone(server, worker)
  }

  function EveryLedger(ledgers: Ledgers, change: Ledger -> Ledger): Ledgers {
    map account | account in ledgers :: change(ledgers[account])
  }

  function Advance(server: Server, step: Step, setting: Setting): Server {
    match step
    case OpenAccount(account) =>
      if account in server.ledgers then server
      else WithLedger(server, account, Ledger(Store(map[], {}), map[], 0))
    case Receive(_, _, _, _) => OnReceive(server, step, setting)
    case Choose(worker, account, digest) =>
      if worker in server.jobs then server else WithJob(server, worker, Chosen(account, digest))
    case ClearStaging => server.(disk := server.disk.(staging := map[]))
    case Prune(account) =>
      if account !in server.ledgers then server else WithLedger(server, account, Pruned(server.ledgers[account]))
    case Mark(now) => server.(ledgers := EveryLedger(server.ledgers, ledger => Marked(ledger, now)))
    case Clear => server.(ledgers := EveryLedger(server.ledgers, ledger => Unmarked(ledger)))
    case MoveTables(account, store) =>
      if account !in server.ledgers || !Backed(store, server.ledgers[account].claims) then server
      else WithLedger(server, account, server.ledgers[account].(store := store))
    case _ => Work(server, step, setting)
  }

  const NEW_SERVER := Server(Disk(map[], map[]), 0, map[], map[], map[])

  function Run(steps: seq<Step>, setting: Setting): Server {
    if steps == [] then NEW_SERVER
    else Advance(Run(steps[..|steps| - 1], setting), steps[|steps| - 1], setting)
  }

  // ------------------------------------------------------------------ every claim has its file

  ghost predicate JobHolds(server: Server, worker: nat, setting: Setting)
    requires worker in server.jobs
  {
    var job := server.jobs[worker];
    && (Locked(job) ==>
          setting.lockKey(DigestOf(job)) in server.locks && server.locks[setting.lockKey(DigestOf(job))] == worker)
    && (job.Received? || job.Publishing? ==>
          job.staged.name < server.nextName && StagedWhole(server.disk, job.staged, setting.hash))
    && (job.Recording? ==> job.staged.digest in server.disk.files)
    && (job.Removing? ==> !HeldAnywhere(server.ledgers, job.digest))
  }

  ghost predicate ClaimsHaveFiles(server: Server) {
    forall account, digest ::
      account in server.ledgers && digest in server.ledgers[account].claims ==> digest in server.disk.files
  }

  ghost predicate Safe(server: Server, setting: Setting) {
    && Content(server.disk, setting.hash)
    && ClaimsHaveFiles(server)
    && forall worker :: worker in server.jobs ==> JobHolds(server, worker, setting)
  }

  /** Two workers past the lock are never on one digest. */
  lemma OneAtATime(server: Server, setting: Setting, a: nat, b: nat)
    requires Safe(server, setting) && a in server.jobs && b in server.jobs
    requires Locked(server.jobs[a]) && Locked(server.jobs[b])
    requires DigestOf(server.jobs[a]) == DigestOf(server.jobs[b])
    ensures a == b
  {
    assert JobHolds(server, a, setting) && JobHolds(server, b, setting);
  }

  /** A worker whose job, lock, partial and files a step left alone, and whose digest gained no claim. */
  lemma BystanderHolds(server: Server, after: Server, worker: nat, setting: Setting)
    requires worker in server.jobs && JobHolds(server, worker, setting)
    requires worker in after.jobs && after.jobs[worker] == server.jobs[worker]
    requires server.nextName <= after.nextName
    requires forall key :: key in server.locks && server.locks[key] == worker ==>
               key in after.locks && after.locks[key] == worker
    requires forall name :: name in after.disk.staging && name < server.nextName ==>
               name in server.disk.staging && after.disk.staging[name] == server.disk.staging[name]
    requires server.jobs[worker].Recording? && DigestOf(server.jobs[worker]) in server.disk.files ==>
               DigestOf(server.jobs[worker]) in after.disk.files
    requires server.jobs[worker].Removing? && HeldAnywhere(after.ledgers, DigestOf(server.jobs[worker])) ==>
               HeldAnywhere(server.ledgers, DigestOf(server.jobs[worker]))
    ensures JobHolds(after, worker, setting)
  {
    var job := server.jobs[worker];
    if job.Received? || job.Publishing? {
      assert StagedWhole(server.disk, job.staged, setting.hash);
      assert StagedWhole(after.disk, job.staged, setting.hash);
    }
    if Locked(job) {
      var key := setting.lockKey(DigestOf(job));
      assert key in server.locks && server.locks[key] == worker;
      assert key in after.locks && after.locks[key] == worker;
    }
  }

  ghost predicate FewerClaims(before: Ledgers, after: Ledgers) {
    forall account, digest :: account in after && digest in after[account].claims ==>
      account in before && digest in before[account].claims
  }

  lemma FewerClaimsHold(before: Ledgers, after: Ledgers, digest: Digest)
    requires FewerClaims(before, after)
    ensures HeldAnywhere(after, digest) ==> HeldAnywhere(before, digest)
  {
  }

  /** A step that touches no file, partial, lock or job, and adds no claim. */
  lemma TableStepIsSafe(server: Server, after: Server, setting: Setting)
    requires Safe(server, setting)
    requires after == server.(ledgers := after.ledgers) && FewerClaims(server.ledgers, after.ledgers)
    ensures Safe(after, setting)
  {
    forall worker | worker in after.jobs
      ensures JobHolds(after, worker, setting)
    {
      FewerClaimsHold(server.ledgers, after.ledgers, DigestOf(server.jobs[worker]));
      BystanderHolds(server, after, worker, setting);
    }
    hide JobHolds;
  }

  lemma ReceivingIsSafe(server: Server, step: Step, setting: Setting)
    requires Safe(server, setting) && step.Receive?
    ensures Safe(OnReceive(server, step, setting), setting)
  {
    var after := OnReceive(server, step, setting);
    if after != server {
      forall worker | worker in after.jobs
        ensures JobHolds(after, worker, setting)
      {
        if worker != step.worker {
          BystanderHolds(server, after, worker, setting);
        }
      }
      hide JobHolds;
    }
  }

  lemma LockingIsSafe(server: Server, worker: nat, setting: Setting)
    requires Safe(server, setting) && worker in server.jobs
    ensures Safe(OnTakeLock(server, worker, server.jobs[worker], setting), setting)
  {
    var after := OnTakeLock(server, worker, server.jobs[worker], setting);
    assert JobHolds(server, worker, setting);
    forall other | other in after.jobs
      ensures JobHolds(after, other, setting)
    {
      if other != worker {
        BystanderHolds(server, after, other, setting);
      }
    }
    hide JobHolds;
  }

  lemma PublishingIsSafe(server: Server, worker: nat, fault: Option<PublishFault>, setting: Setting)
    requires Safe(server, setting) && worker in server.jobs && server.jobs[worker].Publishing?
    ensures Safe(OnPublish(server, worker, server.jobs[worker], fault), setting)
  {
    var job := server.jobs[worker];
    var after := OnPublish(server, worker, job, fault);
    assert JobHolds(server, worker, setting);
    PublishingKeepsContent(server.disk, job.staged, fault, setting.hash);
    PublishingOnlyTakesPartials(server.disk, job.staged, fault);
    hide PublishOn, HeldAnywhere, StagedWhole;
    forall other | other in after.jobs
      ensures JobHolds(after, other, setting)
    {
      if other != worker {
        BystanderHolds(server, after, other, setting);
      }
    }
    hide JobHolds;
  }

  lemma PublishingOnlyTakesPartials(disk: Disk, staged: StagedContent, fault: Option<PublishFault>)
    ensures forall name :: name in PublishOn(disk, staged, fault).disk.staging ==>
              name in disk.staging && PublishOn(disk, staged, fault).disk.staging[name] == disk.staging[name]
  {
  }

  /** Recording adds a claim on bytes that are there, and the lock keeps everyone else's unlink away. */
  lemma RecordingIsSafe(server: Server, worker: nat, outcome: RecordOutcome, setting: Setting)
    requires Safe(server, setting) && worker in server.jobs && server.jobs[worker].Recording?
    ensures Safe(OnRecord(server, worker, server.jobs[worker], outcome), setting)
  {
    var job := server.jobs[worker];
    var after := OnRecord(server, worker, job, outcome);
    assert JobHolds(server, worker, setting);
    forall other | other in after.jobs
      ensures JobHolds(after, other, setting)
    {
      if other != worker {
        if server.jobs[other].Removing? {
          if server.jobs[other].digest == job.staged.digest {
            OneAtATime(server, setting, worker, other);
          }
          OnlyThisDigestIsClaimed(server, worker, outcome, server.jobs[other].digest);
        }
        BystanderHolds(server, after, other, setting);
      }
    }
    hide JobHolds;
  }

  lemma OnlyThisDigestIsClaimed(server: Server, worker: nat, outcome: RecordOutcome, digest: Digest)
    requires worker in server.jobs && server.jobs[worker].Recording?
    requires digest != server.jobs[worker].staged.digest
    ensures HeldAnywhere(OnRecord(server, worker, server.jobs[worker], outcome).ledgers, digest) ==>
              HeldAnywhere(server.ledgers, digest)
  {
  }

  lemma CheckingIsSafe(server: Server, worker: nat, fails: bool, setting: Setting)
    requires Safe(server, setting) && worker in server.jobs && server.jobs[worker].Doubting?
    ensures Safe(OnCheckHolders(server, worker, server.jobs[worker], fails), setting)
  {
    var after := OnCheckHolders(server, worker, server.jobs[worker], fails);
    assert JobHolds(server, worker, setting);
    hide HeldAnywhere;
    forall other | other in after.jobs
      ensures JobHolds(after, other, setting)
    {
      if other != worker {
        BystanderHolds(server, after, other, setting);
      }
    }
    hide JobHolds;
  }

  lemma DeletingIsSafe(server: Server, worker: nat, now: int, fails: bool, setting: Setting)
    requires Safe(server, setting) && worker in server.jobs && server.jobs[worker].Deleting?
    ensures Safe(OnDeleteRow(server, worker, server.jobs[worker], now, fails, setting), setting)
  {
    var job := server.jobs[worker];
    var after := OnDeleteRow(server, worker, job, now, fails, setting);
    assert JobHolds(server, worker, setting);
    assert FewerClaims(server.ledgers, after.ledgers);
    hide Deletable, Named;
    forall other | other in after.jobs
      ensures JobHolds(after, other, setting)
    {
      FewerClaimsHold(server.ledgers, after.ledgers, DigestOf(server.jobs[other]));
      if other != worker {
        BystanderHolds(server, after, other, setting);
      }
    }
    hide JobHolds;
  }

  /** The unlink takes bytes nobody claims, and nobody else past the lock is about to claim. */
  lemma UnlinkingIsSafe(server: Server, worker: nat, fails: bool, setting: Setting)
    requires Safe(server, setting) && worker in server.jobs && server.jobs[worker].Removing?
    ensures Safe(OnUnlink(server, worker, server.jobs[worker], fails), setting)
  {
    var job := server.jobs[worker];
    var after := OnUnlink(server, worker, job, fails);
    assert JobHolds(server, worker, setting);
    forall other | other in after.jobs
      ensures JobHolds(after, other, setting)
    {
      if other != worker {
        if server.jobs[other].Recording? && server.jobs[other].staged.digest == job.digest {
          OneAtATime(server, setting, worker, other);
        }
        BystanderHolds(server, after, other, setting);
      }
    }
    hide JobHolds;
  }

  /** Letting go, and dying: the lock and the job go, the tables and the files stay. */
  lemma GoingIsSafe(server: Server, worker: nat, setting: Setting)
    requires Safe(server, setting)
    ensures Safe(Gone(server, worker), setting)
  {
    var after := Gone(server, worker);
    forall other | other in after.jobs
      ensures JobHolds(after, other, setting)
    {
      BystanderHolds(server, after, other, setting);
    }
    hide JobHolds;
  }

  lemma WorkIsSafe(server: Server, step: Step, setting: Setting)
    requires Safe(server, setting)
    requires step.TakeLock? || step.Publish? || step.Record? || step.CheckHolders? || step.DeleteRow? ||
             step.Unlink? || step.Release? || step.Crash?
    ensures Safe(Work(server, step, setting), setting)
  {
    hide Safe, OnTakeLock, OnPublish, OnRecord, OnCheckHolders, OnDeleteRow, OnUnlink, Gone;
    if step.worker in server.jobs {
      var job := server.jobs[step.worker];
      match step {
        case TakeLock(worker) => LockingIsSafe(server, worker, setting);
        case Publish(worker, fault) => if job.Publishing? { PublishingIsSafe(server, worker, fault, setting); }
        case Record(worker, outcome) => if job.Recording? { RecordingIsSafe(server, worker, outcome, setting); }
        case CheckHolders(worker, fails) => if job.Doubting? { CheckingIsSafe(server, worker, fails, setting); }
        case DeleteRow(worker, now, fails) => if job.Deleting? { DeletingIsSafe(server, worker, now, fails, setting); }
        case Unlink(worker, fails) => if job.Removing? { UnlinkingIsSafe(server, worker, fails, setting); }
        case Release(worker) => GoingIsSafe(server, worker, setting);
        case Crash(worker) => GoingIsSafe(server, worker, setting);
      }
    }
  }

  lemma ChoosingIsSafe(server: Server, step: Step, setting: Setting)
    requires Safe(server, setting) && (step.Choose? || step.ClearStaging?)
    ensures Safe(Advance(server, step, setting), setting)
  {
    var after := Advance(server, step, setting);
    forall other | other in after.jobs
      ensures JobHolds(after, other, setting)
    {
      if other in server.jobs {
        BystanderHolds(server, after, other, setting);
      }
    }
    hide JobHolds;
  }

  lemma {:induction false} AdvanceIsSafe(server: Server, step: Step, setting: Setting)
    requires Safe(server, setting)
    ensures Safe(Advance(server, step, setting), setting)
  {
    var after := Advance(server, step, setting);
    match step {
      case Receive(_, _, _, _) => ReceivingIsSafe(server, step, setting);
      case Choose(_, _, _) => ChoosingIsSafe(server, step, setting);
      case ClearStaging => ChoosingIsSafe(server, step, setting);
      case OpenAccount(_) => hide Safe; TableStepIsSafe(server, after, setting);
      case Prune(_) => hide Safe; TableStepIsSafe(server, after, setting);
      case Mark(_) => hide Safe; TableStepIsSafe(server, after, setting);
      case Clear => hide Safe; TableStepIsSafe(server, after, setting);
      case MoveTables(_, _) => hide Safe, Backed; TableStepIsSafe(server, after, setting);
      case _ => hide Safe, Work; WorkIsSafe(server, step, setting);
    }
  }

  lemma {:induction false} EveryRunIsSafe(steps: seq<Step>, setting: Setting)
    ensures Safe(Run(steps, setting), setting)
  {
    if steps != [] {
      hide Safe, Advance;
      EveryRunIsSafe(steps[..|steps| - 1], setting);
      AdvanceIsSafe(Run(steps[..|steps| - 1], setting), steps[|steps| - 1], setting);
    }
  }

  /**
   In every state of every interleaving, crashes included, each account's claim has a stored file, and
   its bytes hash to the digest claimed.
   */
  lemma EveryClaimHasItsBytes(steps: seq<Step>, setting: Setting, account: string, digest: Digest)
    requires account in Run(steps, setting).ledgers && digest in Run(steps, setting).ledgers[account].claims
    ensures var disk := Run(steps, setting).disk;
            digest in disk.files && setting.hash(disk.files[digest]) == digest
  {
    EveryRunIsSafe(steps, setting);
    hide Run, JobHolds;
  }
}
