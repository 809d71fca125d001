/**
 Passes repeated on a quiet store. The first marks everything unwanted; every later one, once the
 retention window has gone by, removes the oldest of what is left, at most the cap; and in the end what
 is claimed is exactly what is wanted, and what is stored is exactly what is claimed.
 */
module SweepConvergence {
  import opened Outcomes
  import opened Tables
  import opened BlobFiles
  import opened BlobTables
  import opened Sweeper

  function Claimed(ledgers: Ledgers): set<ClaimKey> {
    set account, digest | account in ledgers && digest in ledgers[account].claims :: ClaimKey(account, digest)
  }

  predicate Wants(ledgers: Ledgers, key: ClaimKey) {
    key.account in ledgers && Reachable(ledgers[key.account].store, key.digest)
  }

  function Unwanted(ledgers: Ledgers): set<ClaimKey> {
    set key | key in Claimed(ledgers) && !Wants(ledgers, key)
  }

  ghost predicate Referenced(ledgers: Ledgers) {
    forall account :: account in ledgers ==> PagesStored(ledgers[account].store)
  }

  predicate InClaims(ledgers: Ledgers, key: ClaimKey) {
    key.account in ledgers && key.digest in ledgers[key.account].claims
  }

  function ClaimAt(ledgers: Ledgers, key: ClaimKey): Claim
    requires InClaims(ledgers, key)
  {
    ledgers[key.account].claims[key.digest]
  }

  // ------------------------------------------------------------------ examining

  lemma ExaminedOne(ledgers: Ledgers, now: int, account: string)
    requires account in ledgers
    ensures account in Examined(ledgers, now)
    ensures Examined(ledgers, now)[account] == Unmarked(Marked(Pruned(ledgers[account]), now))
  {
    hide Pruned, Marked, Unmarked;
  }

  /** What examining does to one claim: marked if and only if unwanted, an older mark left alone. */
  lemma ExaminingOneClaim(ledgers: Ledgers, now: int, key: ClaimKey)
    requires Referenced(ledgers)
    ensures var after := Examined(ledgers, now);
            && (InClaims(after, key) <==> InClaims(ledgers, key))
            && (Wants(after, key) <==> Wants(ledgers, key))
            && (InClaims(ledgers, key) ==>
                  && (ClaimAt(after, key).unreferencedSince.Some? <==> !Wants(ledgers, key))
                  && (!Wants(ledgers, key) ==>
                        && !Named(after[key.account].store, key.digest)
                        && ClaimAt(after, key).unreferencedSince ==
                           if ClaimAt(ledgers, key).unreferencedSince.Some? then ClaimAt(ledgers, key).unreferencedSince
                           else Some(now)))
  {
    if key.account in ledgers {
      var ledger := ledgers[key.account];
      ExaminedOne(ledgers, now, key.account);
      PruningLeavesLiveReferences(ledger, key.digest);
      OneClaimExamined(ledger, now, key.digest);
    }
    hide Examined, Pruned, Marked, Unmarked, Reachable, Named;
    assert Examined(ledgers, now).Keys == ledgers.Keys by { ExaminingKeepsKeys(ledgers, now); }
  }

  lemma OneClaimExamined(ledger: Ledger, now: int, digest: Digest)
    requires Reachable(Pruned(ledger).store, digest) <==> Reachable(ledger.store, digest)
    requires Named(Pruned(ledger).store, digest) <==> OnALivePage(ledger.store, digest)
    ensures var after := Unmarked(Marked(Pruned(ledger), now));
            && (digest in after.claims <==> digest in ledger.claims)
            && (Reachable(after.store, digest) <==> Reachable(ledger.store, digest))
            && (digest in ledger.claims ==>
                  && (after.claims[digest].unreferencedSince.Some? <==> !Reachable(ledger.store, digest))
                  && (!Reachable(ledger.store, digest) ==>
                        && !Named(after.store, digest)
                        && after.claims[digest].unreferencedSince ==
                           if ledger.claims[digest].unreferencedSince.Some? then ledger.claims[digest].unreferencedSince
                           else Some(now)))
  {
    var pruned := Pruned(ledger);
    assert pruned.claims == ledger.claims;
    assert Unmarked(Marked(pruned, now)).store == pruned.store;
    hide Pruned, Named, OnALivePage, HeldByADevice;
  }

  lemma ExaminingKeepsReferenced(ledgers: Ledgers, now: int)
    requires Referenced(ledgers)
    ensures Referenced(Examined(ledgers, now))
  {
    ExaminingKeepsKeys(ledgers, now);
    forall account | account in ledgers
      ensures PagesStored(Examined(ledgers, now)[account].store)
    {
      ExaminedOne(ledgers, now, account);
    }
    hide Examined, Marked, Unmarked;
  }

  // ------------------------------------------------------------------ deleting a list of candidates

  predicate Chosen(keys: seq<ClaimKey>, digest: Digest) {
    exists i :: 0 <= i < |keys| && keys[i].digest == digest
  }

  /** What is left of the tables after every candidate went: the other claims, unmoved. */
  ghost predicate LeavesTheRest(before: Ledgers, after: Ledgers, keys: seq<ClaimKey>) {
    && after.Keys == before.Keys
    && (forall account :: account in before ==> after[account].store == before[account].store)
    && (forall key :: InClaims(after, key) <==> InClaims(before, key) && key !in keys)
    && (forall key :: InClaims(after, key) ==> ClaimAt(after, key) == ClaimAt(before, key))
  }

  lemma OneMoreGone(before: Ledgers, stage: Ledgers, keys: seq<ClaimKey>, key: ClaimKey)
    requires LeavesTheRest(before, stage, keys) && InClaims(stage, key)
    ensures LeavesTheRest(before, WithoutClaim(stage, key), keys + [key])
  {
  }

  function BytesOf(ledgers: Ledgers, keys: seq<ClaimKey>): nat {
    if keys == [] then 0
    else
      var key := keys[|keys| - 1];
      BytesOf(ledgers, keys[..|keys| - 1]) + (if InClaims(ledgers, key) then ClaimAt(ledgers, key).byteCount else 0)
  }

  /** Nothing in the way: the whole list goes, each claim once, and each file with its last claim. */
  lemma {:induction false} TheWholeListGoes(holding: Holding, keys: seq<ClaimKey>, now: int, grace: nat)
    requires Distinct(keys)
    requires forall key :: key in keys ==> Takes(holding, key, now, grace, None)
    ensures var end := SweepAll(holding, keys, now, grace, map[]);
            && !end.stopped
            && LeavesTheRest(holding.ledgers, end.holding.ledgers, keys)
            && end.counts.rowsDeleted == |keys|
            && end.counts.bytesFreed == BytesOf(holding.ledgers, keys)
            && (forall digest :: digest in end.holding.disk.files <==>
                  digest in holding.disk.files && (Chosen(keys, digest) ==> HeldAnywhere(end.holding.ledgers, digest)))
  {
    if keys == [] {
      hide Takes, Chosen;
      assert forall digest :: !Chosen(keys, digest) by { NothingChosen(); }
    } else {
      var n := |keys| - 1;
      var key, stage := keys[n], SweepAll(holding, keys[..n], now, grace, map[]);
      assert keys[n] in keys;
      TheWholeListGoes(holding, keys[..n], now, grace);
      StillTaken(holding, stage.holding, keys[..n], key, now, grace);
      assert keys == keys[..n] + [key];
      OneMoreGone(holding.ledgers, stage.holding.ledgers, keys[..n], key);
      FilesAfterOneMore(holding.disk, stage.holding, keys[..n], key, now, grace);
      hide Takes, HeldAnywhere, Chosen, LeavesTheRest, Deleted;
      assert TroubleWith(map[], key) == None;
    }
  }

  lemma NothingChosen()
    ensures forall digest :: !Chosen([], digest)
  {
  }

  lemma StillTaken(before: Holding, stage: Holding, keys: seq<ClaimKey>, key: ClaimKey, now: int, grace: nat)
    requires LeavesTheRest(before.ledgers, stage.ledgers, keys)
    requires Takes(before, key, now, grace, None) && key !in keys
    ensures Takes(stage, key, now, grace, None) && InClaims(stage.ledgers, key)
    ensures ClaimAt(stage.ledgers, key) == ClaimAt(before.ledgers, key)
  {
    assert InClaims(before.ledgers, key);
    assert InClaims(stage.ledgers, key);
  }

  lemma FilesAfterOneMore(disk: Disk, stage: Holding, keys: seq<ClaimKey>, key: ClaimKey, now: int, grace: nat)
    requires forall digest :: digest in stage.disk.files <==>
               digest in disk.files && (Chosen(keys, digest) ==> HeldAnywhere(stage.ledgers, digest))
    requires Takes(stage, key, now, grace, None)
    ensures var after := SweptOne(stage, key, now, grace, None);
            forall digest :: digest in after.disk.files <==>
              digest in disk.files && (Chosen(keys + [key], digest) ==> HeldAnywhere(after.ledgers, digest))
  {
    var after := SweptOne(stage, key, now, grace, None);
    forall digest
      ensures Chosen(keys + [key], digest) <==> Chosen(keys, digest) || digest == key.digest
      ensures digest != key.digest ==> (HeldAnywhere(after.ledgers, digest) <==> HeldAnywhere(stage.ledgers, digest))
      ensures HeldAnywhere(after.ledgers, digest) ==> HeldAnywhere(stage.ledgers, digest)
    {
      ChosenGrows(keys, key, digest);
      HeldWithoutOne(stage.ledgers, key, digest);
    }
    hide Chosen, HeldAnywhere, Deletable;
  }

  lemma ChosenGrows(keys: seq<ClaimKey>, key: ClaimKey, digest: Digest)
    ensures Chosen(keys + [key], digest) <==> Chosen(keys, digest) || digest == key.digest
  {
    if Chosen(keys, digest) {
      var i :| 0 <= i < |keys| && keys[i].digest == digest;
      assert (keys + [key])[i].digest == digest;
    }
    assert (keys + [key])[|keys|] == key;
  }

  lemma HeldWithoutOne(ledgers: Ledgers, key: ClaimKey, digest: Digest)
    requires InClaims(ledgers, key)
    ensures digest != key.digest ==>
              (HeldAnywhere(WithoutClaim(ledgers, key), digest) <==> HeldAnywhere(ledgers, digest))
    ensures HeldAnywhere(WithoutClaim(ledgers, key), digest) ==> HeldAnywhere(ledgers, digest)
  {
    var after := WithoutClaim(ledgers, key);
    if HeldAnywhere(ledgers, digest) && digest != key.digest {
      var account :| account in ledgers && digest in ledgers[account].claims;
      assert account in after && digest in after[account].claims;
    }
    if HeldAnywhere(after, digest) {
      var account :| account in after && digest in after[account].claims;
      assert account in ledgers && digest in ledgers[account].claims;
    }
  }

  // ------------------------------------------------------------------ one pass

  /** A tick of the sweeper: when, and the candidate list its query came up with. */
  datatype Tick = Tick(now: int, keys: seq<ClaimKey>)

  function Pass(holding: Holding, tick: Tick, grace: nat): Holding {
    SweepAll(Holding(holding.disk, Examined(holding.ledgers, tick.now)), tick.keys, tick.now, grace, map[]).holding
  }

  ghost predicate Possible(holding: Holding, tick: Tick, grace: nat) {
    IsSelection(Examined(holding.ledgers, tick.now), tick.now, grace, MAX_DELETIONS_PER_PASS, tick.keys)
  }

  /** Every mark is at or before this moment. */
  ghost predicate MarkedBy(ledgers: Ledgers, moment: int) {
    forall key :: InClaims(ledgers, key) && ClaimAt(ledgers, key).unreferencedSince.Some? ==>
      ClaimAt(ledgers, key).unreferencedSince.value <= moment
  }

  /** Everything unwanted is marked. */
  ghost predicate AllMarked(ledgers: Ledgers) {
    forall key :: key in Unwanted(ledgers) ==> ClaimAt(ledgers, key).unreferencedSince.Some?
  }

  lemma UnwantedIs(ledgers: Ledgers, key: ClaimKey)
    ensures key in Unwanted(ledgers) <==> InClaims(ledgers, key) && !Wants(ledgers, key)
    ensures key in Claimed(ledgers) <==> InClaims(ledgers, key)
  {
    hide Reachable;
    if InClaims(ledgers, key) {
      assert ClaimKey(key.account, key.digest) == key;
    }
  }

  lemma OverdueIs(ledgers: Ledgers, now: int, grace: nat, key: ClaimKey)
    ensures key in OverdueKeys(ledgers, now, grace) <==>
              InClaims(ledgers, key) && Overdue(ClaimAt(ledgers, key), now, grace)
  {
    if InClaims(ledgers, key) {
      assert ClaimKey(key.account, key.digest) == key;
    }
  }

  /** Every candidate is unwanted and free to go. */
  lemma CandidatesAreTaken(holding: Holding, tick: Tick, grace: nat, key: ClaimKey)
    requires Referenced(holding.ledgers) && Possible(holding, tick, grace) && key in tick.keys
    ensures key in Unwanted(holding.ledgers)
    ensures Takes(Holding(holding.disk, Examined(holding.ledgers, tick.now)), key, tick.now, grace, None)
  {
    var after := Examined(holding.ledgers, tick.now);
    assert key in OverdueKeys(after, tick.now, grace);
    OverdueIs(after, tick.now, grace, key);
    ExaminingOneClaim(holding.ledgers, tick.now, key);
    UnwantedIs(holding.ledgers, key);
    hide Examined, OverdueKeys, IsSelection, Wants, Named, Unwanted, Claimed;
  }

  /** A pass takes its candidates and nothing else; what is wanted stays wanted and claimed. */
  lemma APassTakesItsCandidates(holding: Holding, tick: Tick, grace: nat)
    requires Referenced(holding.ledgers) && Possible(holding, tick, grace)
    ensures var after := Pass(holding, tick, grace);
            && Referenced(after.ledgers)
            && (forall key :: InClaims(after.ledgers, key) <==> InClaims(holding.ledgers, key) && key !in tick.keys)
            && (forall key :: Wants(after.ledgers, key) <==> Wants(holding.ledgers, key))
            && (forall key :: InClaims(after.ledgers, key) ==>
                  ClaimAt(after.ledgers, key) == ClaimAt(Examined(holding.ledgers, tick.now), key))
            && (forall digest :: digest in after.disk.files <==>
                  digest in holding.disk.files && (Chosen(tick.keys, digest) ==> HeldAnywhere(after.ledgers, digest)))
  {
    var examined := Holding(holding.disk, Examined(holding.ledgers, tick.now));
    ExaminingKeepsReferenced(holding.ledgers, tick.now);
    forall key
      ensures InClaims(examined.ledgers, key) <==> InClaims(holding.ledgers, key)
      ensures Wants(examined.ledgers, key) <==> Wants(holding.ledgers, key)
      ensures key in tick.keys ==> Takes(examined, key, tick.now, grace, None)
    {
      ExaminingOneClaim(holding.ledgers, tick.now, key);
      if key in tick.keys {
        CandidatesAreTaken(holding, tick, grace, key);
      }
    }
    assert Distinct(tick.keys);
    TheWholeListGoes(examined, tick.keys, tick.now, grace);
    hide Examined, IsSelection, SweepAll, Takes, HeldAnywhere, Chosen, Reachable, PagesStored, InClaims;
  }

  /** The first pass marks whatever is unwanted and still there. */
  lemma APassMarksTheRest(holding: Holding, tick: Tick, grace: nat)
    requires Referenced(holding.ledgers) && Possible(holding, tick, grace) && MarkedBy(holding.ledgers, tick.now)
    ensures var after := Pass(holding, tick, grace).ledgers;
            AllMarked(after) && MarkedBy(after, tick.now) && Unwanted(after) <= Unwanted(holding.ledgers)
  {
    APassTakesItsCandidates(holding, tick, grace);
    var after := Pass(holding, tick, grace).ledgers;
    forall key
      ensures key in Unwanted(after) ==> key in Unwanted(holding.ledgers) && ClaimAt(after, key).unreferencedSince.Some?
      ensures InClaims(after, key) && ClaimAt(after, key).unreferencedSince.Some? ==>
                ClaimAt(after, key).unreferencedSince.value <= tick.now
    {
      ExaminingOneClaim(holding.ledgers, tick.now, key);
      UnwantedIs(after, key);
      UnwantedIs(holding.ledgers, key);
      hide Pass, Examined, Unwanted, Wants, Possible, Named;
    }
    hide Pass, Examined, Unwanted, Wants, Possible;
  }

  lemma DistinctKeysCount(keys: seq<ClaimKey>, all: set<ClaimKey>)
    requires Distinct(keys) && forall key :: key in keys ==> key in all
    ensures |set key | key in all && key !in keys| == |all| - |keys|
  {
    if keys == [] {
      assert (set key | key in all && key !in keys) == all;
    } else {
      var n := |keys| - 1;
      DistinctKeysCount(keys[..n], all);
      var with, without := set key | key in all && key !in keys[..n], set key | key in all && key !in keys;
      assert keys[n] in keys;
      assert without == with - {keys[n]} by {
        assert keys == keys[..n] + [keys[n]];
      }
      assert keys[n] in with;
    }
  }

  /** Once the window has gone by, what is overdue is what is unwanted, key by key. */
  lemma OverdueIsUnwanted(holding: Holding, tick: Tick, grace: nat, moment: int, key: ClaimKey)
    requires Referenced(holding.ledgers)
    requires AllMarked(holding.ledgers) && MarkedBy(holding.ledgers, moment) && moment < tick.now - grace
    ensures key in OverdueKeys(Examined(holding.ledgers, tick.now), tick.now, grace) <==>
              key in Unwanted(holding.ledgers)
  {
    ExaminingOneClaim(holding.ledgers, tick.now, key);
    OverdueIs(Examined(holding.ledgers, tick.now), tick.now, grace, key);
    UnwantedIs(holding.ledgers, key);
    hide Examined, Unwanted, Wants, Named, OverdueKeys;
  }

  /** What became of one key: unwanted as before unless taken, and marked no later than before. */
  ghost predicate LeftAs(before: set<ClaimKey>, after: Ledgers, keys: seq<ClaimKey>, moment: int, key: ClaimKey) {
    && (key in Unwanted(after) <==> key in before && key !in keys)
    && (key in Unwanted(after) ==> InClaims(after, key) && ClaimAt(after, key).unreferencedSince.Some?)
    && (InClaims(after, key) && ClaimAt(after, key).unreferencedSince.Some? ==>
          ClaimAt(after, key).unreferencedSince.value <= moment)
  }

  lemma LeftUnwanted(holding: Holding, tick: Tick, grace: nat, moment: int, key: ClaimKey)
    requires Referenced(holding.ledgers) && Possible(holding, tick, grace)
    requires AllMarked(holding.ledgers) && MarkedBy(holding.ledgers, moment)
    ensures LeftAs(Unwanted(holding.ledgers), Pass(holding, tick, grace).ledgers, tick.keys, moment, key)
  {
    APassTakesItsCandidates(holding, tick, grace);
    var after := Pass(holding, tick, grace).ledgers;
    ExaminingOneClaim(holding.ledgers, tick.now, key);
    UnwantedIs(after, key);
    UnwantedIs(holding.ledgers, key);
    hide Pass, Examined, Unwanted, Wants, Possible, Named, HeldAnywhere, Chosen;
  }

  /**
   A later pass, the window gone by, takes the cap's worth of what is unwanted, or all of it; what it
   leaves is as overdue as before.
   */
  lemma APassShrinksTheUnwanted(holding: Holding, tick: Tick, grace: nat, moment: int)
    requires Referenced(holding.ledgers) && Possible(holding, tick, grace)
    requires AllMarked(holding.ledgers) && MarkedBy(holding.ledgers, moment) && moment < tick.now - grace
    ensures var before, after := Unwanted(holding.ledgers), Pass(holding, tick, grace).ledgers;
            && AllMarked(after) && MarkedBy(after, moment)
            && |Unwanted(after)| == if |before| <= MAX_DELETIONS_PER_PASS then 0 else |before| - MAX_DELETIONS_PER_PASS
  {
    var before, after := Unwanted(holding.ledgers), Pass(holding, tick, grace).ledgers;
    forall key: ClaimKey
      ensures LeftAs(before, after, tick.keys, moment, key)
    {
      LeftUnwanted(holding, tick, grace, moment, key);
      hide *;
    }
    AllLeftAs(before, after, tick.keys, moment);
    TheListIsCapped(holding, tick, grace, moment);
    hide *;
    CappedRemoval(tick.keys, before, Unwanted(after), MAX_DELETIONS_PER_PASS);
  }

  lemma AllLeftAs(before: set<ClaimKey>, after: Ledgers, keys: seq<ClaimKey>, moment: int)
    requires forall key :: LeftAs(before, after, keys, moment, key)
    ensures AllMarked(after) && MarkedBy(after, moment)
    ensures forall key :: key in Unwanted(after) <==> key in before && key !in keys
  {
    hide Unwanted, InClaims;
    forall key
      ensures key in Unwanted(after) ==> InClaims(after, key) && ClaimAt(after, key).unreferencedSince.Some?
      ensures InClaims(after, key) && ClaimAt(after, key).unreferencedSince.Some? ==>
                ClaimAt(after, key).unreferencedSince.value <= moment
      ensures key in Unwanted(after) <==> key in before && key !in keys
    {
      assert LeftAs(before, after, keys, moment, key);
    }
  }

  lemma TheListIsCapped(holding: Holding, tick: Tick, grace: nat, moment: int)
    requires Referenced(holding.ledgers) && Possible(holding, tick, grace)
    requires AllMarked(holding.ledgers) && MarkedBy(holding.ledgers, moment) && moment < tick.now - grace
    ensures Distinct(tick.keys) && |tick.keys| <= MAX_DELETIONS_PER_PASS
    ensures forall key :: key in tick.keys ==> key in Unwanted(holding.ledgers)
    ensures |tick.keys| < MAX_DELETIONS_PER_PASS ==> forall key :: key in Unwanted(holding.ledgers) ==> key in tick.keys
  {
    forall key
      ensures key in OverdueKeys(Examined(holding.ledgers, tick.now), tick.now, grace) <==>
                key in Unwanted(holding.ledgers)
    {
      OverdueIsUnwanted(holding, tick, grace, moment, key);
      hide *;
    }
    hide Examined, OverdueKeys, Unwanted, MarkOf, Referenced, AllMarked, MarkedBy;
  }

  lemma CappedRemoval(keys: seq<ClaimKey>, overdue: set<ClaimKey>, left: set<ClaimKey>, cap: nat)
    requires Distinct(keys) && |keys| <= cap && forall key :: key in keys ==> key in overdue
    requires |keys| < cap ==> forall key :: key in overdue ==> key in keys
    requires forall key :: key in left <==> key in overdue && key !in keys
    ensures |left| == if |overdue| <= cap then 0 else |overdue| - cap
  {
    DistinctKeysCount(keys, overdue);
    assert left == set key | key in overdue && key !in keys;
    if |keys| < cap {
      assert left == {};
    }
  }

  // ------------------------------------------------------------------ pass after pass

  function Passes(holding: Holding, ticks: seq<Tick>, grace: nat): Holding {
    if ticks == [] then holding else Pass(Passes(holding, ticks[..|ticks| - 1], grace), ticks[|ticks| - 1], grace)
  }

  /** Ticks as they come, at any times: each with a candidate list its query could give. */
  ghost predicate Ticking(holding: Holding, ticks: seq<Tick>, grace: nat) {
    forall i :: 0 <= i < |ticks| ==> Possible(Passes(holding, ticks[..i], grace), ticks[i], grace)
  }

  /** How many of the later passes find the first one's marks past the retention window. */
  function PastWindow(ticks: seq<Tick>, grace: nat): nat {
    if |ticks| <= 1 then 0
    else
      var n := |ticks| - 1;
      PastWindow(ticks[..n], grace) + (if ticks[0].now < ticks[n].now - grace then 1 else 0)
  }

  lemma TickingBefore(holding: Holding, ticks: seq<Tick>, grace: nat)
    requires Ticking(holding, ticks, grace) && ticks != []
    ensures Ticking(holding, ticks[..|ticks| - 1], grace)
    ensures Possible(Passes(holding, ticks[..|ticks| - 1], grace), ticks[|ticks| - 1], grace)
  {
    hide Possible, Passes;
    var n := |ticks| - 1;
    forall i | 0 <= i < n
      ensures Possible(Passes(holding, ticks[..n][..i], grace), ticks[..n][i], grace)
    {
      assert ticks[..n][..i] == ticks[..i];
    }
  }

  /** A pass inside the window takes nothing new into account: what is unwanted only shrinks. */
  lemma APassAddsNothingUnwanted(holding: Holding, tick: Tick, grace: nat, moment: int)
    requires Referenced(holding.ledgers) && Possible(holding, tick, grace)
    requires AllMarked(holding.ledgers) && MarkedBy(holding.ledgers, moment)
    ensures var after := Pass(holding, tick, grace).ledgers;
            AllMarked(after) && MarkedBy(after, moment) && |Unwanted(after)| <= |Unwanted(holding.ledgers)|
  {
    var before, after := Unwanted(holding.ledgers), Pass(holding, tick, grace).ledgers;
    forall key: ClaimKey
      ensures LeftAs(before, after, tick.keys, moment, key)
    {
      LeftUnwanted(holding, tick, grace, moment, key);
      hide *;
    }
    AllLeftAs(before, after, tick.keys, moment);
    hide *;
    SubsetCounts(Unwanted(after), before);
  }

  /** The measure: what is unwanted shrinks by the cap with each pass past the window, whatever passes run
      before and between. */
  lemma {:induction false} PassesShrinkTheUnwanted(holding: Holding, ticks: seq<Tick>, grace: nat)
    requires ticks != [] && Ticking(holding, ticks, grace)
    requires Referenced(holding.ledgers) && MarkedBy(holding.ledgers, ticks[0].now)
    ensures var after := Passes(holding, ticks, grace).ledgers;
            && Referenced(after) && AllMarked(after) && MarkedBy(after, ticks[0].now)
            && (|| |Unwanted(after)| == 0
                || |Unwanted(after)| + MAX_DELETIONS_PER_PASS * PastWindow(ticks, grace) <= |Unwanted(holding.ledgers)|)
  {
    hide Pass, Possible, Referenced, AllMarked, MarkedBy, Unwanted;
    TickingBefore(holding, ticks, grace);
    var before, last := Passes(holding, ticks[..|ticks| - 1], grace), ticks[|ticks| - 1];
    if |ticks| == 1 {
      assert before == holding;
      APassTakesItsCandidates(holding, last, grace);
      APassMarksTheRest(holding, last, grace);
      SubsetCounts(Unwanted(Pass(holding, last, grace).ledgers), Unwanted(holding.ledgers));
    } else {
      PassesShrinkTheUnwanted(holding, ticks[..|ticks| - 1], grace);
      APassTakesItsCandidates(before, last, grace);
      if ticks[0].now < last.now - grace {
        APassShrinksTheUnwanted(before, last, grace, ticks[0].now);
      } else {
        APassAddsNothingUnwanted(before, last, grace, ticks[0].now);
      }
    }
  }

  lemma SubsetCounts<T>(smaller: set<T>, larger: set<T>)
    requires smaller <= larger
    ensures |smaller| <= |larger|
  {
    if smaller != larger {
      ShrinkingSet(smaller, larger);
    }
  }

  /** What passes never do: take a wanted claim, or a file somebody claims or nobody ever claimed. */
  lemma {:induction false} PassesKeepTheWanted(holding: Holding, ticks: seq<Tick>, grace: nat)
    requires Ticking(holding, ticks, grace) && Referenced(holding.ledgers)
    ensures var after := Passes(holding, ticks, grace);
            && Referenced(after.ledgers)
            && (forall key :: Wants(after.ledgers, key) <==> Wants(holding.ledgers, key))
            && (forall key :: InClaims(after.ledgers, key) ==> InClaims(holding.ledgers, key))
            && (forall key :: InClaims(holding.ledgers, key) && Wants(holding.ledgers, key) ==>
                InClaims(after.ledgers, key))
            && (forall digest :: digest in after.disk.files <==>
                  digest in holding.disk.files &&
                  (HeldAnywhere(holding.ledgers, digest) ==> HeldAnywhere(after.ledgers, digest)))
  {
    hide Pass, Possible, Referenced, Wants, InClaims;
    if ticks != [] {
      TickingBefore(holding, ticks, grace);
      var before, last := Passes(holding, ticks[..|ticks| - 1], grace), ticks[|ticks| - 1];
      PassesKeepTheWanted(holding, ticks[..|ticks| - 1], grace);
      APassTakesItsCandidates(before, last, grace);
      var after := Pass(before, last, grace);
      forall key | key in last.keys
        ensures InClaims(before.ledgers, key) && !Wants(before.ledgers, key)
      {
        CandidatesAreTaken(before, last, grace, key);
        UnwantedIs(before.ledgers, key);
      }
      forall digest
        ensures HeldAnywhere(after.ledgers, digest) ==> HeldAnywhere(before.ledgers, digest)
        ensures HeldAnywhere(before.ledgers, digest) && !HeldAnywhere(after.ledgers, digest) ==>
                  Chosen(last.keys, digest)
        ensures Chosen(last.keys, digest) ==> HeldAnywhere(before.ledgers, digest)
        ensures HeldAnywhere(before.ledgers, digest) ==> HeldAnywhere(holding.ledgers, digest)
      {
        HeldIs(after.ledgers, before.ledgers, last.keys, digest);
        HeldIs(before.ledgers, holding.ledgers, [], digest);
      }
      hide HeldAnywhere, Chosen;
    }
  }

  lemma HeldIs(fewer: Ledgers, more: Ledgers, keys: seq<ClaimKey>, digest: Digest)
    requires forall key :: InClaims(fewer, key) ==> InClaims(more, key)
    ensures HeldAnywhere(fewer, digest) ==> HeldAnywhere(more, digest)
    ensures (forall key :: InClaims(fewer, key) <==> InClaims(more, key) && key !in keys) ==>
              HeldAnywhere(more, digest) && !HeldAnywhere(fewer, digest) ==> Chosen(keys, digest)
    ensures (forall key :: key in keys ==> InClaims(more, key)) && Chosen(keys, digest) ==> HeldAnywhere(more, digest)
  {
    if HeldAnywhere(fewer, digest) {
      var account :| account in fewer && digest in fewer[account].claims;
      assert InClaims(fewer, ClaimKey(account, digest));
    }
    if HeldAnywhere(more, digest) && !HeldAnywhere(fewer, digest) &&
       (forall key :: InClaims(fewer, key) <==> InClaims(more, key) && key !in keys) {
      var account :| account in more && digest in more[account].claims;
      assert InClaims(more, ClaimKey(account, digest)) && !InClaims(fewer, ClaimKey(account, digest));
      var i :| 0 <= i < |keys| && keys[i] == ClaimKey(account, digest);
    }
    if Chosen(keys, digest) && (forall key :: key in keys ==> InClaims(more, key)) {
      var i :| 0 <= i < |keys| && keys[i].digest == digest;
      assert keys[i] in keys && InClaims(more, keys[i]);
    }
  }

  /**
   On a quiet store, at whatever times its passes run: once enough of them are past the window they leave
   exactly the wanted claims, however many the cap makes of it; and a file that was stored is still stored
   if and only if nobody ever claimed it or somebody wants it.
   */
  lemma PassesConverge(holding: Holding, ticks: seq<Tick>, grace: nat)
    requires ticks != [] && Ticking(holding, ticks, grace)
    requires Referenced(holding.ledgers) && MarkedBy(holding.ledgers, ticks[0].now)
    requires |Unwanted(holding.ledgers)| <= MAX_DELETIONS_PER_PASS * PastWindow(ticks, grace)
    ensures var after := Passes(holding, ticks, grace);
            && (forall key :: InClaims(after.ledgers, key) <==>
                InClaims(holding.ledgers, key) && Wants(holding.ledgers, key))
            && (forall digest :: digest in after.disk.files <==>
                  digest in holding.disk.files &&
                  (HeldAnywhere(holding.ledgers, digest) ==> HeldAnywhere(after.ledgers, digest)))
  {
    PassesShrinkTheUnwanted(holding, ticks, grace);
    PassesKeepTheWanted(holding, ticks, grace);
    var after := Passes(holding, ticks, grace);
    assert Unwanted(after.ledgers) == {};
    forall key
      ensures InClaims(after.ledgers, key) ==> Wants(after.ledgers, key)
    {
      UnwantedIs(after.ledgers, key);
    }
    hide Passes, Ticking, Referenced, MarkedBy, AllMarked, Unwanted, Wants, InClaims, HeldAnywhere;
  }

  // ------------------------------------------------------------------ on a timer

  /** Passes one interval apart, however short it is against the window. */
  predicate Steady(ticks: seq<Tick>, interval: nat) {
    forall i :: 0 <= i < |ticks| ==> ticks[i].now == ticks[0].now + i * interval
  }

  /** On a timer all passes count but the first and those that fit inside the window. */
  lemma {:induction false} ATimerPassesTheWindow(ticks: seq<Tick>, grace: nat, interval: nat)
    requires interval > 0 && Steady(ticks, interval)
    ensures PastWindow(ticks, grace) == if |ticks| <= 1 + grace / interval then 0 else |ticks| - 1 - grace / interval
  {
    if |ticks| > 1 {
      var n := |ticks| - 1;
      ATimerPassesTheWindow(ticks[..n], grace, interval);
      PastByCount(n, grace, interval);
      assert ticks[n].now == ticks[0].now + n * interval;
    }
  }

  lemma {:induction false} TimesKeepsOrder(fewer: nat, more: nat, interval: nat)
    requires fewer <= more
    ensures fewer * interval <= more * interval
  {
    if fewer < more {
      TimesKeepsOrder(fewer, more - 1, interval);
      assert more * interval == (more - 1) * interval + interval;
    }
  }

  lemma PastByCount(n: nat, grace: nat, interval: nat)
    requires interval > 0
    ensures grace < n * interval <==> grace / interval < n
  {
    var whole := grace / interval;
    assert grace == whole * interval + grace % interval;
    if whole < n {
      TimesKeepsOrder(whole + 1, n, interval);
      assert (whole + 1) * interval == whole * interval + interval;
    } else {
      TimesKeepsOrder(n, whole, interval);
    }
  }

  /** On a timer, with any interval and any window, the cap decides how many passes it takes. */
  lemma SweepingOnATimerConverges(holding: Holding, ticks: seq<Tick>, grace: nat, interval: nat)
    requires ticks != [] && Ticking(holding, ticks, grace) && interval > 0 && Steady(ticks, interval)
    requires Referenced(holding.ledgers) && MarkedBy(holding.ledgers, ticks[0].now)
    requires grace / interval < |ticks|
    requires |Unwanted(holding.ledgers)| <= MAX_DELETIONS_PER_PASS * (|ticks| - 1 - grace / interval)
    ensures forall key :: InClaims(Passes(holding, ticks, grace).ledgers, key) <==>
                            InClaims(holding.ledgers, key) && Wants(holding.ledgers, key)
  {
    hide Ticking, Steady, Referenced, MarkedBy, Unwanted, InClaims, Wants, Passes;
    ATimerPassesTheWindow(ticks, grace, interval);
    PassesConverge(holding, ticks, grace);
  }
}
