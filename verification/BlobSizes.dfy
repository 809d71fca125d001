/**
 How long the claimed bytes are. Over every run in which no two received bodies share a digest, a claim says
 the length of its file, and an account's storage figure is the length of the files it claims.
 */
module BlobSizes {
  import opened Outcomes
  import opened Tables
  import opened BlobFiles
  import opened BlobTables
  import opened BlobProtocol
  import opened BlobLaws
  import opened Engine
  import opened AccountRuns

  /** What was uploaded under each digest. */
  type Bodies = Digest -> Bytes

  /** A body that was received whole, under its own digest. */
  ghost predicate Receives(step: Step, setting: Setting, digest: Digest, bytes: Bytes) {
    && step.Receive? && !step.source.broken && step.source.bytes == bytes && step.digest == digest
    && setting.hash(bytes) == digest
  }

  ghost predicate NoneCollide(steps: seq<Step>, setting: Setting) {
    forall i, j, digest, a, b :: 0 <= i < |steps| && 0 <= j < |steps| ==>
      Receives(steps[i], setting, digest, a) && Receives(steps[j], setting, digest, b) ==> a == b
  }

  // ------------------------------------------------------------------ what is known of the bytes

  function UploadOf(job: Job): Option<StagedContent> {
    match job
    case Received(_, staged) => Some(staged)
    case Publishing(_, staged) => Some(staged)
    case Recording(_, staged) => Some(staged)
    case Doubting(_, staged) => Some(staged)
    case _ => None
  }

  ghost predicate JobKnows(server: Server, job: Job, bodies: Bodies) {
    UploadOf(job).Some? ==>
      var staged := UploadOf(job).value;
      && staged.byteCount == |bodies(staged.digest)| && staged.name < server.nextName
      && (staged.name in server.disk.staging ==> server.disk.staging[staged.name] == bodies(staged.digest))
  }

  ghost predicate ClaimsKnow(ledgers: Ledgers, bodies: Bodies) {
    forall account, digest :: account in ledgers && digest in ledgers[account].claims ==>
        ledgers[account].claims[digest].byteCount == |bodies(digest)|
  }

  ghost predicate FilesKnow(disk: Disk, bodies: Bodies) {
    forall digest :: digest in disk.files ==> disk.files[digest] == bodies(digest)
  }

  ghost predicate Known(server: Server, bodies: Bodies) {
    && FilesKnow(server.disk, bodies) && ClaimsKnow(server.ledgers, bodies)
    && forall worker :: worker in server.jobs ==> JobKnows(server, server.jobs[worker], bodies)
  }

  /** A job none of whose partials a step wrote still knows what it knew. */
  lemma JobGoesOnKnowing(server: Server, after: Server, job: Job, bodies: Bodies)
    requires JobKnows(server, job, bodies) && server.nextName <= after.nextName
    requires forall name :: name in after.disk.staging && name < server.nextName ==>
               name in server.disk.staging && after.disk.staging[name] == server.disk.staging[name]
    ensures JobKnows(after, job, bodies)
  {
  }

  lemma PublishingKnows(disk: Disk, staged: StagedContent, fault: Option<PublishFault>, bodies: Bodies)
    requires FilesKnow(disk, bodies)
    requires staged.name in disk.staging ==> disk.staging[staged.name] == bodies(staged.digest)
    ensures FilesKnow(PublishOn(disk, staged, fault).disk, bodies)
    ensures forall name :: name in PublishOn(disk, staged, fault).disk.staging ==>
              name in disk.staging && PublishOn(disk, staged, fault).disk.staging[name] == disk.staging[name]
  {
  }

  lemma ReceivingKnows(server: Server, step: Step, setting: Setting, bodies: Bodies)
    requires Known(server, bodies) && step.Receive?
    requires forall bytes :: Receives(step, setting, step.digest, bytes) ==> bodies(step.digest) == bytes
    ensures Known(OnReceive(server, step, setting), bodies)
  {
    var after := OnReceive(server, step, setting);
    if after != server {
      assert Receives(step, setting, step.digest, step.source.bytes);
      forall worker | worker in after.jobs
        ensures JobKnows(after, after.jobs[worker], bodies)
      {
        if worker != step.worker {
          JobGoesOnKnowing(server, after, server.jobs[worker], bodies);
        }
      }
    }
  }

  /** A step that writes no partial: the jobs it leaves alone go on, and its own is left to show. */
  lemma TheOthersKnow(server: Server, after: Server, worker: nat, bodies: Bodies)
    requires Known(server, bodies) && FilesKnow(after.disk, bodies) && ClaimsKnow(after.ledgers, bodies)
    requires server.nextName <= after.nextName
    requires forall name :: name in after.disk.staging ==>
               name in server.disk.staging && after.disk.staging[name] == server.disk.staging[name]
    requires forall other :: other in after.jobs && other != worker ==>
               other in server.jobs && after.jobs[other] == server.jobs[other]
    requires worker in after.jobs && UploadOf(after.jobs[worker]).Some? ==>
               worker in server.jobs && UploadOf(server.jobs[worker]) == UploadOf(after.jobs[worker])
    ensures Known(after, bodies)
  {
    hide FilesKnow, ClaimsKnow;
    forall other | other in after.jobs
      ensures JobKnows(after, after.jobs[other], bodies)
    {
      if other in server.jobs {
        JobGoesOnKnowing(server, after, server.jobs[other], bodies);
      }
    }
  }

  lemma RecordingKnows(server: Server, worker: nat, outcome: RecordOutcome, bodies: Bodies)
    requires Known(server, bodies) && worker in server.jobs && server.jobs[worker].Recording?
    ensures ClaimsKnow(OnRecord(server, worker, server.jobs[worker], outcome).ledgers, bodies)
  {
    assert JobKnows(server, server.jobs[worker], bodies);
  }

  lemma DeletingKnows(server: Server, worker: nat, now: int, fails: bool, setting: Setting, bodies: Bodies)
    requires Known(server, bodies) && worker in server.jobs && server.jobs[worker].Deleting?
    ensures ClaimsKnow(OnDeleteRow(server, worker, server.jobs[worker], now, fails, setting).ledgers, bodies)
  {
    hide HeldAnywhere, Named, JobKnows;
  }

  lemma WorkKnows(server: Server, step: Step, setting: Setting, bodies: Bodies)
    requires Known(server, bodies)
    requires step.TakeLock? || step.Publish? || step.Record? || step.CheckHolders? || step.DeleteRow? ||
             step.Unlink? || step.Release? || step.Crash?
    ensures Known(Work(server, step, setting), bodies)
  {
    if step.worker in server.jobs {
      var job, after := server.jobs[step.worker], Work(server, step, setting);
      assert JobKnows(server, job, bodies);
      if step.Publish? && job.Publishing? {
        PublishingKnows(server.disk, job.staged, step.fault, bodies);
      } else if step.Record? && job.Recording? {
        RecordingKnows(server, step.worker, step.outcome, bodies);
      } else if step.DeleteRow? && job.Deleting? {
        DeletingKnows(server, step.worker, step.now, step.fails, setting, bodies);
      }
      hide PublishOn, HeldAnywhere, Deletable, Recorded, JobKnows, Deleted;
      TheOthersKnow(server, after, step.worker, bodies);
    }
  }

  lemma AdvanceKnows(server: Server, step: Step, setting: Setting, bodies: Bodies)
    requires Known(server, bodies)
    requires step.Receive? ==>
               forall bytes :: Receives(step, setting, step.digest, bytes) ==> bodies(step.digest) == bytes
    ensures Known(Advance(server, step, setting), bodies)
  {
    match step {
      case Receive(_, _, _, _) =>
        hide Known, OnReceive;
        ReceivingKnows(server, step, setting, bodies);
      case TakeLock(_) => hide Known, Work; WorkKnows(server, step, setting, bodies);
      case Publish(_, _) => hide Known, Work; WorkKnows(server, step, setting, bodies);
      case Record(_, _) => hide Known, Work; WorkKnows(server, step, setting, bodies);
      case CheckHolders(_, _) => hide Known, Work; WorkKnows(server, step, setting, bodies);
      case DeleteRow(_, _, _) => hide Known, Work; WorkKnows(server, step, setting, bodies);
      case Unlink(_, _) => hide Known, Work; WorkKnows(server, step, setting, bodies);
      case Release(_) => hide Known, Work; WorkKnows(server, step, setting, bodies);
      case Crash(_) => hide Known, Work; WorkKnows(server, step, setting, bodies);
      case _ =>
        hide Backed, Reachable, DeletedPage;
    }
  }

  // ------------------------------------------------------------------ over whole runs

  ghost predicate Agreeing(steps: seq<Step>, setting: Setting, bodies: Bodies) {
    forall i, digest, bytes :: 0 <= i < |steps| && Receives(steps[i], setting, digest, bytes) ==>
      bodies(digest) == bytes
  }

  lemma {:induction false} EveryRunKnows(steps: seq<Step>, setting: Setting, bodies: Bodies)
    requires Agreeing(steps, setting, bodies)
    ensures Known(Run(steps, setting), bodies)
  {
    if steps != [] {
      hide Known, Advance, Receives;
      var prefix := steps[..|steps| - 1];
      assert forall i :: 0 <= i < |prefix| ==> prefix[i] == steps[i];
      EveryRunKnows(prefix, setting, bodies);
      AdvanceKnows(Run(prefix, setting), steps[|steps| - 1], setting, bodies);
    }
  }

  ghost function BodyOf(steps: seq<Step>, setting: Setting, digest: Digest): Bytes {
    if i, bytes :| 0 <= i < |steps| && Receives(steps[i], setting, digest, bytes) then bytes else []
  }

  lemma BodiesAgree(steps: seq<Step>, setting: Setting)
    requires NoneCollide(steps, setting)
    ensures Agreeing(steps, setting, digest => BodyOf(steps, setting, digest))
  {
    hide Receives;
  }

  /** A claim says exactly how long its file is. */
  lemma AClaimIsAsLongAsItsFile(steps: seq<Step>, setting: Setting, account: string, digest: Digest)
    requires NoneCollide(steps, setting)
    requires account in Run(steps, setting).ledgers && digest in Run(steps, setting).ledgers[account].claims
    ensures var server := Run(steps, setting);
            digest in server.disk.files &&
            server.ledgers[account].claims[digest].byteCount == |server.disk.files[digest]|
  {
    BodiesAgree(steps, setting);
    EveryRunKnows(steps, setting, digest => BodyOf(steps, setting, digest));
    EveryClaimHasItsBytes(steps, setting, account, digest);
    hide Run, JobKnows, NoneCollide, Agreeing;
  }

  /** The length of some files together. */
  ghost function LengthOf(digests: set<Digest>, files: map<Digest, Bytes>): nat
    requires digests <= files.Keys
  {
    if digests == {} then 0
    else
      var digest :| digest in digests;
      |files[digest]| + LengthOf(digests - {digest}, files)
  }

  lemma {:induction false} TotalIsLength(claims: map<Digest, Claim>, files: map<Digest, Bytes>)
    requires claims.Keys <= files.Keys
    requires forall digest :: digest in claims ==> claims[digest].byteCount == |files[digest]|
    ensures Total(claims) == LengthOf(claims.Keys, files)
    decreases |claims|
  {
    if claims.Keys != {} {
      var digest :| digest in claims.Keys &&
                    LengthOf(claims.Keys, files) == |files[digest]| + LengthOf(claims.Keys - {digest}, files);
      TotalWithout(claims, digest);
      TotalIsLength(claims - {digest}, files);
      assert (claims - {digest}).Keys == claims.Keys - {digest};
    }
  }

  /** An account is charged the length of the files it claims. */
  lemma TheFigureIsTheFiles(steps: seq<Step>, setting: Setting, account: string)
    requires NoneCollide(steps, setting) && account in Run(steps, setting).ledgers
    ensures var server := Run(steps, setting);
            && server.ledgers[account].claims.Keys <= server.disk.files.Keys
            && server.ledgers[account].storageBytes ==
               LengthOf(server.ledgers[account].claims.Keys, server.disk.files)
  {
    var server := Run(steps, setting);
    hide Run, NoneCollide, Total, LengthOf;
    forall digest | digest in server.ledgers[account].claims
      ensures digest in server.disk.files &&
              server.ledgers[account].claims[digest].byteCount == |server.disk.files[digest]|
    {
      AClaimIsAsLongAsItsFile(steps, setting, account, digest);
    }
    StorageAlwaysAddsUp(steps, setting, account);
    TotalIsLength(server.ledgers[account].claims, server.disk.files);
  }

  // ------------------------------------------------------------------ what pushes see of it

  /** The digests an account holds, and how long each is: what a push reads of the attachment store. */
  function HeldIn(claims: map<Digest, Claim>): map<Digest, nat> {
    map digest | digest in claims :: claims[digest].byteCount
  }

  /** An account's history takes uploads, sweeps and prunes as its ledger does. */
  lemma TheAccountSeesItsLedger(core: Core, ledger: Ledger, digest: Digest, byteCount: nat)
    requires core.store == ledger.store && core.blobs == HeldIn(ledger.claims)
    ensures Perform(core, Uploaded(digest, byteCount)).blobs == HeldIn(Recorded(ledger, digest, byteCount).claims)
    ensures digest in ledger.claims && !Named(ledger.store, digest) ==>
              Perform(core, Swept(digest)).blobs == HeldIn(Deleted(ledger, digest).claims)
    ensures Named(ledger.store, digest) ==> Perform(core, Swept(digest)) == core
    ensures Perform(core, ReferencesPruned).store == Pruned(ledger).store
    ensures forall now :: HeldIn(Marked(ledger, now).claims) == core.blobs
    ensures HeldIn(Unmarked(ledger).claims) == core.blobs
  {
    hide Named, Reachable, DeletedPage;
  }
}
