/**
 What else every run of uploads and sweeps keeps: the storage figures add up, references never dangle,
 and a claim is only swept when it has been unwanted for longer than the retention window, with every
 pass that looked in between agreeing. And the one thing a sweep can take that a device still wants.
 */
module BlobLaws {
  import opened Outcomes
  import opened Tables
  import opened Changes
  import opened Engine
  import opened PushLaws
  import opened BlobFiles
  import opened BlobTables
  import opened BlobProtocol

  // ------------------------------------------------------------------ conservation, and references

  ghost predicate InOrder(ledger: Ledger) {
    Balanced(ledger) && Backed(ledger.store, ledger.claims)
  }

  ghost predicate AllInOrder(ledgers: Ledgers) {
    forall account :: account in ledgers ==> InOrder(ledgers[account])
  }

  lemma MarkingKeepsOrder(ledger: Ledger, now: int)
    requires InOrder(ledger)
    ensures InOrder(Marked(ledger, now)) && InOrder(Unmarked(ledger)) && InOrder(Pruned(ledger))
  {
    MarkingBalances(ledger, now);
    hide Balanced, Reachable;
  }

  lemma RecordingKeepsOrder(ledger: Ledger, digest: Digest, byteCount: nat)
    requires InOrder(ledger)
    ensures InOrder(Recorded(ledger, digest, byteCount))
  {
    RecordingBalances(ledger, digest, byteCount);
    hide Balanced;
  }

  /** The foreign key: a claim some reference names is not deleted. */
  lemma DeletingKeepsOrder(ledger: Ledger, digest: Digest, now: int, grace: nat)
    requires InOrder(ledger) && Deletable(ledger, digest, now, grace)
    ensures InOrder(Deleted(ledger, digest))
  {
    DeletingBalances(ledger, digest);
    hide Balanced;
  }

  lemma EveryLedgerKeepsOrder(ledgers: Ledgers, change: Ledger -> Ledger)
    requires AllInOrder(ledgers)
    requires forall ledger :: InOrder(ledger) ==> InOrder(change(ledger))
    ensures AllInOrder(EveryLedger(ledgers, change))
  {
    hide InOrder;
  }

  lemma StepKeepsOrder(server: Server, step: Step, setting: Setting)
    requires AllInOrder(server.ledgers)
    ensures AllInOrder(Advance(server, step, setting).ledgers)
  {
    match step {
      case Record(worker, _) =>
        if worker in server.jobs && server.jobs[worker].Recording? {
          var job := server.jobs[worker];
          if job.account in server.ledgers {
            RecordingKeepsOrder(server.ledgers[job.account], job.staged.digest, job.staged.byteCount);
          }
        }
        hide InOrder, Recorded;
      case DeleteRow(worker, now, _) =>
        if worker in server.jobs && server.jobs[worker].Deleting? {
          var job := server.jobs[worker];
          if job.account in server.ledgers && Deletable(server.ledgers[job.account], job.digest, now, setting.grace) {
            DeletingKeepsOrder(server.ledgers[job.account], job.digest, now, setting.grace);
          }
        }
        hide InOrder, Deletable, Deleted;
      case Prune(account) =>
        if account in server.ledgers { MarkingKeepsOrder(server.ledgers[account], 0); }
        hide InOrder, Pruned;
      case Mark(now) =>
        forall ledger | InOrder(ledger)
          ensures InOrder(Marked(ledger, now))
        {
          MarkingKeepsOrder(ledger, now);
        }
        hide InOrder, Marked;
        EveryLedgerKeepsOrder(server.ledgers, ledger => Marked(ledger, now));
      case Clear =>
        forall ledger | InOrder(ledger)
          ensures InOrder(Unmarked(ledger))
        {
          MarkingKeepsOrder(ledger, 0);
        }
        hide InOrder, Unmarked;
        EveryLedgerKeepsOrder(server.ledgers, ledger => Unmarked(ledger));
      case MoveTables(account, store) =>
        hide Total;
      case OpenAccount(_) =>
        assert InOrder(Ledger(Store(map[], {}), map[], 0));
        hide InOrder;
      case _ =>
        hide InOrder, PublishOn, Deletable, HeldAnywhere;
    }
  }

  /**
   In every reachable state each account's storage figure is what its claims add up to, and every
   reference row names a stored page and a digest its account holds.
   */
  lemma {:induction false} EveryRunIsInOrder(steps: seq<Step>, setting: Setting)
    ensures AllInOrder(Run(steps, setting).ledgers)
  {
    if steps != [] {
      hide Advance, AllInOrder;
      EveryRunIsInOrder(steps[..|steps| - 1], setting);
      StepKeepsOrder(Run(steps[..|steps| - 1], setting), steps[|steps| - 1], setting);
    }
  }

  /** In every interleaving, sweeps, crashes and repeated uploads included, nothing is charged or refunded twice. */
  lemma StorageAlwaysAddsUp(steps: seq<Step>, setting: Setting, account: string)
    requires account in Run(steps, setting).ledgers
    ensures Balanced(Run(steps, setting).ledgers[account])
  {
    EveryRunIsInOrder(steps, setting);
    hide Run, Balanced, Backed;
    assert InOrder(Run(steps, setting).ledgers[account]);
  }

  /** A push reads which digests are held before it writes, and takes no blob lock. The foreign keys refuse
      its commit exactly when a digest it leaves referenced was held when it read and is no longer claimed. */
  lemma OnlyASweepUnbacksAPush(core: Core, raws: seq<RawChange>, writer: string, claims: map<Digest, Claim>)
    requires Sound(core)
    requires ApplyEach(core, Decode(raws), writer).Ok?
    ensures var after := ApplyEach(core, Decode(raws), writer).value.core;
            !Backed(after.store, claims) <==>
            exists ref :: ref in after.store.refs && ref.digest in core.blobs && ref.digest !in claims
  {
    PushKeepsSound(core, raws, writer);
    PushAdvances(core, raws, writer);
    hide ApplyEach, Decode, Sequenced, Retired, Fitting, Closed;
    var after := ApplyEach(core, Decode(raws), writer).value.core;
    if !Backed(after.store, claims) {
      var ref :| ref in after.store.refs && !(Key(Page, ref.pageId) in after.store.rows && ref.digest in claims);
      assert ref.digest in core.blobs && ref.digest !in claims;
    }
  }

  /**
   Every way the database can refuse a push: two documents for one page, or a digest that was held when the
   push read and was swept before it committed. The second is refused exactly when that happened.
   */
  lemma APushFailsInTwoWaysOnly(core: Core, raws: seq<RawChange>, writer: string, claims: map<Digest, Claim>)
    requires Sound(core)
    ensures match ApplyEach(core, Decode(raws), writer)
            case Err(error) => error.SecondBodyForPage?
            case Ok(effect) =>
              Backed(effect.core.store, claims) <==>
              forall ref :: ref in effect.core.store.refs && ref.digest in core.blobs ==> ref.digest in claims
  {
    OnlyASecondBodyFailsAPush(core, raws, writer);
    if ApplyEach(core, Decode(raws), writer).Ok? {
      OnlyASweepUnbacksAPush(core, raws, writer, claims);
    }
    hide ApplyEach, Decode, Backed, Sound;
  }

  // ------------------------------------------------------------------ mark, wait, delete

  ghost predicate MarkedSince(ledgers: Ledgers, account: string, digest: Digest, since: int) {
    && account in ledgers && digest in ledgers[account].claims
    && ledgers[account].claims[digest].unreferencedSince == Some(since)
  }

  ghost predicate Wanted(ledgers: Ledgers, account: string, digest: Digest) {
    account in ledgers && Reachable(ledgers[account].store, digest)
  }

  /** A mark was either there before, and a clearing pass that left it saw nothing; or this step made it. */
  lemma MarksComeFromMarking(server: Server, step: Step, setting: Setting, account: string, digest: Digest, since: int)
    requires MarkedSince(Advance(server, step, setting).ledgers, account, digest, since)
    ensures || (MarkedSince(server.ledgers, account, digest, since) &&
                (step.Clear? ==> !Wanted(server.ledgers, account, digest)))
            || (step == Mark(since) && !Wanted(server.ledgers, account, digest) && account in server.ledgers &&
                digest in server.ledgers[account].claims)
  {
    hide Reachable, PublishOn, HeldAnywhere, Named, Backed;
  }

  /** Up to step `n`: step `k` put the mark on what nothing wanted, it has stood ever since, and every
      clearing pass since then has seen nothing that wants the bytes. */
  ghost predicate UnwantedSince(steps: seq<Step>, n: nat, setting: Setting, account: string, digest: Digest,
                                since: int, k: nat) {
    && k < n <= |steps| && steps[k] == Mark(since)
    && !Wanted(Run(steps[..k], setting).ledgers, account, digest)
    && (forall j :: k < j < n && steps[j].Clear? ==> !Wanted(Run(steps[..j], setting).ledgers, account, digest))
    && (forall j :: k < j <= n ==> MarkedSince(Run(steps[..j], setting).ledgers, account, digest, since))
  }

  lemma RunOneMore(steps: seq<Step>, n: nat, setting: Setting)
    requires n < |steps|
    ensures Run(steps[..n + 1], setting) == Advance(Run(steps[..n], setting), steps[n], setting)
  {
    hide Advance;
    assert steps[..n + 1][..n] == steps[..n];
  }

  lemma HistoryStarts(steps: seq<Step>, n: nat, setting: Setting, account: string, digest: Digest, since: int)
    requires 0 < n <= |steps| && steps[n - 1] == Mark(since)
    requires !Wanted(Run(steps[..n - 1], setting).ledgers, account, digest)
    requires MarkedSince(Run(steps[..n], setting).ledgers, account, digest, since)
    ensures UnwantedSince(steps, n, setting, account, digest, since, n - 1)
  {
    hide Run, Wanted, MarkedSince;
  }

  lemma HistoryGoesOn(steps: seq<Step>, n: nat, setting: Setting, account: string, digest: Digest, since: int, k: nat)
    requires 0 < n <= |steps| && UnwantedSince(steps, n - 1, setting, account, digest, since, k)
    requires MarkedSince(Run(steps[..n], setting).ledgers, account, digest, since)
    requires steps[n - 1].Clear? ==> !Wanted(Run(steps[..n - 1], setting).ledgers, account, digest)
    ensures UnwantedSince(steps, n, setting, account, digest, since, k)
  {
    hide Run, Wanted, MarkedSince;
  }

  /** Every standing mark has such a history. */
  lemma {:induction false} AMarkHasAHistory(steps: seq<Step>, n: nat, setting: Setting, account: string, digest: Digest,
                                            since: int)
    requires n <= |steps| && MarkedSince(Run(steps[..n], setting).ledgers, account, digest, since)
    ensures exists k :: UnwantedSince(steps, n, setting, account, digest, since, k)
  {
    if n > 0 {
      RunOneMore(steps, n - 1, setting);
      MarksComeFromMarking(Run(steps[..n - 1], setting), steps[n - 1], setting, account, digest, since);
      hide Advance, Wanted, MarkedSince, Run, UnwantedSince;
      var before := Run(steps[..n - 1], setting).ledgers;
      if MarkedSince(before, account, digest, since) && (steps[n - 1].Clear? ==> !Wanted(before, account, digest)) {
        AMarkHasAHistory(steps, n - 1, setting, account, digest, since);
        var k :| UnwantedSince(steps, n - 1, setting, account, digest, since, k);
        HistoryGoesOn(steps, n, setting, account, digest, since, k);
      } else {
        HistoryStarts(steps, n, setting, account, digest, since);
      }
    }
  }

  /**
   Whatever ran in between, only a sweeper's delete takes a claim away, and the claim it takes was marked
   more than the retention window ago, when nothing wanted its bytes, has been marked ever since, and
   nothing wanted them at any clearing pass since.
   */
  lemma {:induction false} ASweptClaimWasLongUnwanted(steps: seq<Step>, setting: Setting, step: Step, account: string,
                                                      digest: Digest)
    requires var before := Run(steps, setting);
             account in before.ledgers && digest in before.ledgers[account].claims
    requires var after := Advance(Run(steps, setting), step, setting);
             !(account in after.ledgers && digest in after.ledgers[account].claims)
    ensures step.DeleteRow?
    ensures exists k, since ::
              since < step.now - setting.grace && UnwantedSince(steps, |steps|, setting, account, digest, since, k)
  {
    var before := Run(steps, setting);
    hide Run, UnwantedSince, Named, HeldAnywhere, Reachable, PublishOn, Backed;
    var claim := before.ledgers[account].claims[digest];
    assert step.DeleteRow? && Overdue(claim, step.now, setting.grace);
    assert steps[..|steps|] == steps;
    AMarkHasAHistory(steps, |steps|, setting, account, digest, claim.unreferencedSince.value);
    var k :| UnwantedSince(steps, |steps|, setting, account, digest, claim.unreferencedSince.value, k);
  }

  // ------------------------------------------------------------------ what the re-check does not cover

  /**
   The delete re-checks the mark and the foreign key, not reachability. So the claim it deletes is
   still wanted exactly when a live attachment row holds the digest: live pages are covered by the
   foreign key, devices' own rows are covered by nothing.
   */
  lemma OnlyAttachmentsAreUnprotected(ledger: Ledger, digest: Digest, now: int, grace: nat)
    requires Deletable(ledger, digest, now, grace)
    ensures Reachable(ledger.store, digest) <==>
            Key(Attachment, digest) in ledger.store.rows &&
            ledger.store.rows[Key(Attachment, digest)].deletedAt == None
  {
  }

  /**
   A mark ends in two ways only: a clearing pass found the bytes wanted, or the claim went. No upload of
   the same bytes, push or prune takes it off.
   */
  lemma OnlyClearingEndsAMark(server: Server, step: Step, setting: Setting, account: string, digest: Digest, since: int)
    requires MarkedSince(server.ledgers, account, digest, since)
    requires !MarkedSince(Advance(server, step, setting).ledgers, account, digest, since)
    ensures || (step.Clear? && Wanted(server.ledgers, account, digest))
            || (step.DeleteRow? && since < step.now - setting.grace)
  {
    hide Reachable, PublishOn, HeldAnywhere, Named, Backed;
  }
}
