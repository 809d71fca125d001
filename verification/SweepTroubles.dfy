/**
 A pass in which candidates fail: what one failure does to the others, which is nothing, and to the counts.
 Said of the tables and files as the pass found them, and of the troubles it meets.
 */
module SweepTroubles {
  import opened Outcomes
  import opened Tables
  import opened BlobFiles
  import opened BlobTables
  import BlobProtocol
  import opened Sweeper
  import opened SweepConvergence

  /** The delete of this candidate's row does not fail. */
  predicate Goes(troubles: map<ClaimKey, Trouble>, key: ClaimKey) {
    key in troubles ==> troubles[key] == UnlinkFails
  }

  /** Every claim on its digest is its own or that of a candidate before it that goes. */
  ghost predicate IsLastClaim(before: Ledgers, keys: seq<ClaimKey>, troubles: map<ClaimKey, Trouble>, i: nat)
    requires i < |keys|
  {
    && Goes(troubles, keys[i])
    && forall account :: account in before && keys[i].digest in before[account].claims ==>
         exists j :: 0 <= j <= i && keys[j] == ClaimKey(account, keys[i].digest) && Goes(troubles, keys[j])
  }

  /** The candidate whose file goes. */
  ghost predicate TakesItsFile(before: Ledgers, keys: seq<ClaimKey>, troubles: map<ClaimKey, Trouble>, i: nat)
    requires i < |keys|
  {
    IsLastClaim(before, keys, troubles, i) && keys[i] !in troubles
  }

  /** A candidate that counts: its row went, and if its file was to go with it, that went too. */
  ghost predicate Counts(before: Ledgers, keys: seq<ClaimKey>, troubles: map<ClaimKey, Trouble>, i: nat)
    requires i < |keys|
  {
    Goes(troubles, keys[i]) && (IsLastClaim(before, keys, troubles, i) ==> keys[i] !in troubles)
  }

  ghost function CountOf(before: Ledgers, keys: seq<ClaimKey>, troubles: map<ClaimKey, Trouble>, n: nat): SweepCounts
    requires n <= |keys|
  {
    if n == 0 then SweepCounts(0, 0, 0)
    else
      var rest := CountOf(before, keys, troubles, n - 1);
      var key := keys[n - 1];
      if !Counts(before, keys, troubles, n - 1) then rest
      else
        SweepCounts(rest.rowsDeleted + 1,
                    rest.filesDeleted + (if TakesItsFile(before, keys, troubles, n - 1) then 1 else 0),
                    rest.bytesFreed + (if InClaims(before, key) then ClaimAt(before, key).byteCount else 0))
  }

  /** The tables after the first `n`: the claims of those that go are gone, and nothing else has changed. */
  ghost predicate LeavesAllButGoing(before: Ledgers, after: Ledgers, keys: seq<ClaimKey>, n: nat,
                                    troubles: map<ClaimKey, Trouble>)
    requires n <= |keys|
  {
    && after.Keys == before.Keys
    && (forall account :: account in before ==> after[account].store == before[account].store)
    && (forall key :: InClaims(after, key) <==> InClaims(before, key) && !(key in keys[..n] && Goes(troubles, key)))
    && (forall key :: InClaims(after, key) ==> ClaimAt(after, key) == ClaimAt(before, key))
  }

  /** The files after the first `n`: all of them, as they were, but for what one of those took with it. */
  ghost predicate FilesLeft(before: Holding, disk: Disk, keys: seq<ClaimKey>, n: nat, troubles: map<ClaimKey, Trouble>)
    requires n <= |keys|
  {
    && disk.staging == before.disk.staging
    && (forall digest :: digest in disk.files ==>
          digest in before.disk.files && disk.files[digest] == before.disk.files[digest])
    && (forall digest :: digest in before.disk.files ==>
          (digest !in disk.files <==> FileTaken(before.ledgers, keys, n, troubles, digest)))
  }

  ghost predicate FileTaken(before: Ledgers, keys: seq<ClaimKey>, n: nat, troubles: map<ClaimKey, Trouble>,
                            digest: Digest)
    requires n <= |keys|
  {
    exists i :: 0 <= i < n && keys[i].digest == digest && TakesItsFile(before, keys, troubles, i)
  }

  ghost predicate NotCalledOff(keys: seq<ClaimKey>, n: nat, troubles: map<ClaimKey, Trouble>)
    requires n <= |keys|
  {
    forall i :: 0 <= i < n && keys[i] in troubles ==> troubles[keys[i]] != CalledOff
  }

  // ------------------------------------------------------------------ one candidate

  lemma StillThere(before: Holding, stage: Holding, keys: seq<ClaimKey>, n: nat, troubles: map<ClaimKey, Trouble>,
                   now: int, grace: nat)
    requires n < |keys| && Distinct(keys) && Takes(before, keys[n], now, grace, None)
    requires LeavesAllButGoing(before.ledgers, stage.ledgers, keys, n, troubles)
    ensures Takes(stage, keys[n], now, grace, None) && InClaims(stage.ledgers, keys[n])
    ensures InClaims(before.ledgers, keys[n])
    ensures ClaimAt(stage.ledgers, keys[n]) == ClaimAt(before.ledgers, keys[n])
  {
    assert keys[n] !in keys[..n];
    assert InClaims(before.ledgers, keys[n]);
  }

  /** What one candidate does: nothing if its delete fails, else its claim goes, and its file with the last. */
  lemma OneStep(before: Progress, key: ClaimKey, now: int, grace: nat, troubles: map<ClaimKey, Trouble>)
    requires !before.stopped && Takes(before.holding, key, now, grace, None)
    requires key in troubles ==> troubles[key] != CalledOff
    ensures InClaims(before.holding.ledgers, key)
    ensures var after := SweepNext(before, key, now, grace, TroubleWith(troubles, key));
            var rest := WithoutClaim(before.holding.ledgers, key);
            var last, fails := !HeldAnywhere(rest, key.digest), key in troubles;
            && !after.stopped
            && (!Goes(troubles, key) ==> after == before)
            && (Goes(troubles, key) ==>
                  && after.holding.ledgers == rest
                  && after.holding.disk.staging == before.holding.disk.staging
                  && after.holding.disk.files ==
                     (if last && !fails then before.holding.disk.files - {key.digest} else before.holding.disk.files)
                  && after.counts ==
                     (if last && fails then before.counts
                      else SweepCounts(before.counts.rowsDeleted + 1,
                                       before.counts.filesDeleted + (if last then 1 else 0),
                                       before.counts.bytesFreed + ClaimAt(before.holding.ledgers, key).byteCount)))
  {
    hide HeldAnywhere;
  }

  lemma OneMoreGoes(before: Ledgers, stage: Ledgers, keys: seq<ClaimKey>, n: nat, troubles: map<ClaimKey, Trouble>)
    requires n < |keys| && LeavesAllButGoing(before, stage, keys, n, troubles) && InClaims(stage, keys[n])
    ensures Goes(troubles, keys[n]) ==>
              LeavesAllButGoing(before, WithoutClaim(stage, keys[n]), keys, n + 1, troubles)
    ensures !Goes(troubles, keys[n]) ==> LeavesAllButGoing(before, stage, keys, n + 1, troubles)
  {
    assert keys[..n + 1] == keys[..n] + [keys[n]];
  }

  lemma LastClaims(before: Ledgers, after: Ledgers, keys: seq<ClaimKey>, n: nat, troubles: map<ClaimKey, Trouble>)
    requires n < |keys| && LeavesAllButGoing(before, after, keys, n + 1, troubles) && Goes(troubles, keys[n])
    ensures !HeldAnywhere(after, keys[n].digest) <==> IsLastClaim(before, keys, troubles, n)
  {
    var digest := keys[n].digest;
    if IsLastClaim(before, keys, troubles, n) && HeldAnywhere(after, digest) {
      var account :| account in after && digest in after[account].claims;
      assert InClaims(after, ClaimKey(account, digest));
    }
    if !HeldAnywhere(after, digest) {
      forall account | account in before && digest in before[account].claims
        ensures exists j :: 0 <= j <= n && keys[j] == ClaimKey(account, digest) && Goes(troubles, keys[j])
      {
        var key := ClaimKey(account, digest);
        assert InClaims(before, key) && !InClaims(after, key);
        var j :| 0 <= j < n + 1 && keys[..n + 1][j] == key;
        assert keys[j] == key;
      }
    }
  }

  lemma OneMoreTaken(before: Ledgers, keys: seq<ClaimKey>, n: nat, troubles: map<ClaimKey, Trouble>, digest: Digest)
    requires n < |keys|
    ensures FileTaken(before, keys, n + 1, troubles, digest) <==>
            || FileTaken(before, keys, n, troubles, digest)
            || (keys[n].digest == digest && TakesItsFile(before, keys, troubles, n))
  {
    hide TakesItsFile;
  }

  lemma FilesAfterOneMore(before: Holding, stage: Disk, after: Disk, keys: seq<ClaimKey>, n: nat,
                          troubles: map<ClaimKey, Trouble>)
    requires n < |keys| && FilesLeft(before, stage, keys, n, troubles) && after.staging == stage.staging
    requires after.files == if TakesItsFile(before.ledgers, keys, troubles, n) then stage.files - {keys[n].digest}
                            else stage.files
    ensures FilesLeft(before, after, keys, n + 1, troubles)
  {
    forall digest
      ensures FileTaken(before.ledgers, keys, n + 1, troubles, digest) <==>
              || FileTaken(before.ledgers, keys, n, troubles, digest)
              || (keys[n].digest == digest && TakesItsFile(before.ledgers, keys, troubles, n))
    {
      OneMoreTaken(before.ledgers, keys, n, troubles, digest);
    }
    hide TakesItsFile, FileTaken;
  }

  // ------------------------------------------------------------------ the whole pass

  /** Where a pass stands after the first `n` candidates. */
  ghost predicate StandsAt(before: Holding, progress: Progress, keys: seq<ClaimKey>, n: nat,
                           troubles: map<ClaimKey, Trouble>)
    requires n <= |keys|
  {
    && !progress.stopped
    && LeavesAllButGoing(before.ledgers, progress.holding.ledgers, keys, n, troubles)
    && FilesLeft(before, progress.holding.disk, keys, n, troubles)
    && progress.counts == CountOf(before.ledgers, keys, troubles, n)
  }

  lemma StandingAtOneMore(before: Holding, progress: Progress, keys: seq<ClaimKey>, n: nat,
                          troubles: map<ClaimKey, Trouble>, now: int, grace: nat)
    requires n < |keys| && Distinct(keys) && Takes(before, keys[n], now, grace, None)
    requires StandsAt(before, progress, keys, n, troubles)
    requires keys[n] in troubles ==> troubles[keys[n]] != CalledOff
    ensures StandsAt(before, SweepNext(progress, keys[n], now, grace, TroubleWith(troubles, keys[n])), keys, n + 1,
                     troubles)
  {
    var key := keys[n];
    var after := SweepNext(progress, key, now, grace, TroubleWith(troubles, key));
    StillThere(before, progress.holding, keys, n, troubles, now, grace);
    OneStep(progress, key, now, grace, troubles);
    OneMoreGoes(before.ledgers, progress.holding.ledgers, keys, n, troubles);
    if Goes(troubles, key) {
      LastClaims(before.ledgers, WithoutClaim(progress.holding.ledgers, key), keys, n, troubles);
    }
    hide SweepNext, Takes, LeavesAllButGoing, HeldAnywhere, IsLastClaim, FilesLeft, WithoutClaim, InClaims, ClaimAt,
         Distinct;
    FilesAfterOneMore(before, progress.holding.disk, after.holding.disk, keys, n, troubles);
  }

  lemma StandingAtFirst(before: Holding, keys: seq<ClaimKey>, now: int, grace: nat, troubles: map<ClaimKey, Trouble>)
    ensures StandsAt(before, SweepAll(before, keys[..0], now, grace, troubles), keys, 0, troubles)
  {
  }

  lemma {:induction false} APassStandsAt(before: Holding, keys: seq<ClaimKey>, n: nat, now: int, grace: nat,
                                         troubles: map<ClaimKey, Trouble>)
    requires n <= |keys| && Distinct(keys) && NotCalledOff(keys, n, troubles)
    requires forall key :: key in keys ==> Takes(before, key, now, grace, None)
    ensures StandsAt(before, SweepAll(before, keys[..n], now, grace, troubles), keys, n, troubles)
  {
    hide Takes, Distinct, StandsAt, SweepAll, SweepNext;
    if n == 0 {
      StandingAtFirst(before, keys, now, grace, troubles);
    } else {
      APassStandsAt(before, keys, n - 1, now, grace, troubles);
      NextSwept(before, keys, n - 1, now, grace, troubles);
      assert keys[n - 1] in keys;
      StandingAtOneMore(before, SweepAll(before, keys[..n - 1], now, grace, troubles), keys, n - 1, troubles, now,
                        grace);
    }
  }

  /**
   One blob that will not go does not stop the rest. Whatever fails, each candidate's claim goes unless its own
   delete failed; a file goes exactly with its last claim, unless that unlink failed; and rows, files and
   bytes are counted over the candidates that neither failed nor stayed. A pass that is called off has done
   this to the candidates before that, and nothing to the others.
   */
  lemma AFailureStopsNothing(before: Holding, keys: seq<ClaimKey>, k: nat, now: int, grace: nat,
                             troubles: map<ClaimKey, Trouble>)
    requires k <= |keys| && Distinct(keys) && NotCalledOff(keys, k, troubles)
    requires k < |keys| ==> keys[k] in troubles && troubles[keys[k]] == CalledOff
    requires forall key :: key in keys ==> Takes(before, key, now, grace, None)
    ensures var end := SweepAll(before, keys, now, grace, troubles);
            && (end.stopped <==> k < |keys|)
            && LeavesAllButGoing(before.ledgers, end.holding.ledgers, keys, k, troubles)
            && FilesLeft(before, end.holding.disk, keys, k, troubles)
            && end.counts == CountOf(before.ledgers, keys, troubles, k)
  {
    APassStandsAt(before, keys, k, now, grace, troubles);
    if k < |keys| {
      NextSwept(before, keys, k, now, grace, troubles);
      hide SweptOne, Takes, HeldAnywhere, SweepAll, LeavesAllButGoing, FilesLeft, CountOf, Distinct;
      StoppedStays(before, keys, k + 1, now, grace, troubles);
    } else {
      assert keys[..k] == keys;
      hide Takes, SweepAll, LeavesAllButGoing, FilesLeft, CountOf, Distinct;
    }
  }

  /** And that is what becomes of the candidates a pass lists. */
  lemma WhatAPassLeaves(holding: Holding, tick: Tick, k: nat, grace: nat, troubles: map<ClaimKey, Trouble>)
    requires Referenced(holding.ledgers) && Possible(holding, tick, grace)
    requires k <= |tick.keys| && NotCalledOff(tick.keys, k, troubles)
    requires k < |tick.keys| ==> tick.keys[k] in troubles && troubles[tick.keys[k]] == CalledOff
    ensures var examined := Holding(holding.disk, Examined(holding.ledgers, tick.now));
            var end := SweepAll(examined, tick.keys, tick.now, grace, troubles);
            && (end.stopped <==> k < |tick.keys|)
            && LeavesAllButGoing(examined.ledgers, end.holding.ledgers, tick.keys, k, troubles)
            && FilesLeft(examined, end.holding.disk, tick.keys, k, troubles)
            && end.counts == CountOf(examined.ledgers, tick.keys, troubles, k)
  {
    var examined := Holding(holding.disk, Examined(holding.ledgers, tick.now));
    forall key | key in tick.keys
      ensures Takes(examined, key, tick.now, grace, None)
    {
      CandidatesAreTaken(holding, tick, grace, key);
    }
    assert Distinct(tick.keys);
    hide Examined, IsSelection, SweepAll, Takes, LeavesAllButGoing, FilesLeft, CountOf, Referenced, NotCalledOff,
         Distinct;
    AFailureStopsNothing(examined, tick.keys, k, tick.now, grace, troubles);
  }

  lemma ThePruneStep(server: BlobProtocol.Server, account: string, setting: BlobProtocol.Setting)
    requires account in server.ledgers
    ensures BlobProtocol.Advance(server, BlobProtocol.Prune(account), setting) ==
            server.(ledgers := server.ledgers[account := Pruned(server.ledgers[account])])
  {
    hide Pruned;
  }

  lemma TheMarkStep(server: BlobProtocol.Server, account: string, now: int, setting: BlobProtocol.Setting)
    requires account in server.ledgers
    ensures var after := BlobProtocol.Advance(server, BlobProtocol.Mark(now), setting);
            && after == server.(ledgers := after.ledgers) && after.ledgers.Keys == server.ledgers.Keys
            && after.ledgers[account] == Marked(server.ledgers[account], now)
  {
    hide Marked;
  }

  lemma TheClearStep(server: BlobProtocol.Server, account: string, setting: BlobProtocol.Setting)
    requires account in server.ledgers
    ensures var after := BlobProtocol.Advance(server, BlobProtocol.Clear, setting);
            && after == server.(ledgers := after.ledgers) && after.ledgers.Keys == server.ledgers.Keys
            && after.ledgers[account] == Unmarked(server.ledgers[account])
  {
    hide Unmarked;
  }

  /** The protocol's prune, mark and clear, taken in that order, are what examining does to an account. */
  lemma TheProtocolExamines(server: BlobProtocol.Server, account: string, now: int, setting: BlobProtocol.Setting)
    requires account in server.ledgers
    ensures var pruned := BlobProtocol.Advance(server, BlobProtocol.Prune(account), setting);
            var marked := BlobProtocol.Advance(pruned, BlobProtocol.Mark(now), setting);
            var after := BlobProtocol.Advance(marked, BlobProtocol.Clear, setting);
            && account in after.ledgers && after.ledgers.Keys == server.ledgers.Keys
            && account in Examined(server.ledgers, now)
            && after.ledgers[account] == Examined(server.ledgers, now)[account]
            && after == server.(ledgers := after.ledgers)
  {
    hide Pruned, Marked, Unmarked, Examined, BlobProtocol.Advance;
    var pruned := BlobProtocol.Advance(server, BlobProtocol.Prune(account), setting);
    ThePruneStep(server, account, setting);
    TheMarkStep(pruned, account, now, setting);
    TheClearStep(BlobProtocol.Advance(pruned, BlobProtocol.Mark(now), setting), account, setting);
    ExaminedOne(server.ledgers, now, account);
  }
}
