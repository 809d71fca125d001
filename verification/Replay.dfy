/**
 The log of answered batches over whole runs: a retry inside the window gets the first answer and
 changes nothing, and when the log happens to be pruned cannot be told from any answer.
 */
module Replay {
  import opened Changes
  import opened Engine
  import opened PushPath

  /** Something the account's tables go through, at a server time. */
  datatype Step =
    | Pushing(request: PushRequest, prune: bool)
    | Elsewhere(core: Core)            // any other committed work: an administrator's, an upload's, a sweep's
    | Forgetting(device: string)       // a revoked device's row is removed and takes its answers with it

  datatype Timed = Timed(at: int, step: Step)

  /** A removed device's answers go with its row. */
  function Forgotten(batches: BatchLog, device: string): BatchLog {
    map key | key in batches && key.device != device :: batches[key]
  }

  function Take(account: Account, timed: Timed, window: nat): Account {
    match timed.step
    case Pushing(request, prune) => Push(account, request, timed.at, window, prune).account
    case Elsewhere(core) => account.(core := core)
    case Forgetting(device) => account.(batches := Forgotten(account.batches, device))
  }

  function Run(account: Account, steps: seq<Timed>, window: nat): Account {
    if steps == [] then account
    else Take(Run(account, steps[..|steps| - 1], window), steps[|steps| - 1], window)
  }

  /** Runs one after the other are one run. */
  lemma {:induction false} RunsJoin(account: Account, first: seq<Timed>, second: seq<Timed>, window: nat)
    ensures Run(account, first + second, window) == Run(Run(account, first, window), second, window)
    ensures |second| == 1 ==>
              Run(account, first + second, window) == Take(Run(account, first, window), second[0], window)
  {
    hide Take;
    if second == [] {
      assert first + second == first;
    } else {
      RunsJoin(account, first, second[..|second| - 1], window);
      assert (first + second)[..|first + second| - 1] == first + second[..|second| - 1];
    }
  }

  ghost predicate Holds(account: Account, key: BatchKey, stored: StoredAnswer) {
    key in account.batches && account.batches[key] == stored
  }

  lemma StepKeepsAnswer(account: Account, timed: Timed, window: nat, key: BatchKey, stored: StoredAnswer)
    requires Holds(account, key, stored) && stored.createdAt > timed.at - window
    requires timed.step.Forgetting? ==> timed.step.device != key.device
    ensures Holds(Take(account, timed, window), key, stored)
  {
    hide ApplyEach, Decode;
  }

  lemma {:induction false} RunKeepsAnswer(account: Account, steps: seq<Timed>, window: nat, key: BatchKey,
                                          stored: StoredAnswer, until: int)
    requires Holds(account, key, stored) && stored.createdAt > until - window
    requires forall timed :: timed in steps ==> timed.at <= until
    requires forall timed :: timed in steps && timed.step.Forgetting? ==> timed.step.device != key.device
    ensures Holds(Run(account, steps, window), key, stored)
  {
    if steps != [] {
      RunKeepsAnswer(account, steps[..|steps| - 1], window, key, stored, until);
      StepKeepsAnswer(Run(account, steps[..|steps| - 1], window), steps[|steps| - 1], window, key, stored);
    }
  }

  /**
   A batch answered at `first` is answered the same at `again`, as long as that is inside the window
   and the device was not removed in between: whatever ran meanwhile, whatever the retry carries, and
   without a row, a sequence value or a wakeup.
   */
  lemma {:induction false} RetryReplaysTheFirstAnswer(account: Account, request: PushRequest, retry: PushRequest,
                                                      window: nat,
                                   first: int, again: int, prunedFirst: bool, prunedAgain: bool, between: seq<Timed>)
    requires retry.device == request.device && retry.batchId == request.batchId
    requires FindAnswer(account.batches, BatchKey(request.device, request.batchId), first, window).None?
    requires Push(account, request, first, window, prunedFirst).answer.Ok?
    requires first <= again < first + window
    requires forall timed :: timed in between ==> timed.at <= again
    requires forall timed :: timed in between && timed.step.Forgetting? ==> timed.step.device != request.device
    ensures var answered := Push(account, request, first, window, prunedFirst);
            var later := Run(answered.account, between, window);
            Push(later, retry, again, window, prunedAgain) == PushResult(later, answered.answer, false)
  {
    hide ApplyEach, Decode, Run;
    var key := BatchKey(request.device, request.batchId);
    var answered := Push(account, request, first, window, prunedFirst);
    RunKeepsAnswer(answered.account, between, window, key, StoredAnswer(answered.answer.value, first), again);
  }

  // ------------------------------------------------------------------ the sampled pruning

  predicate Live(batches: BatchLog, key: BatchKey, now: int, window: nat) {
    key in batches && batches[key].createdAt > now - window
  }

  /** Two logs that differ at most in answers no lookup can see any more. */
  ghost predicate SameLive(a: BatchLog, b: BatchLog, now: int, window: nat) {
    forall key ::
      && (Live(a, key, now, window) <==> Live(b, key, now, window))
      && (Live(a, key, now, window) ==> a[key] == b[key])
  }

  ghost predicate SameButExpired(a: Account, b: Account, now: int, window: nat) {
    a.core == b.core && SameLive(a.batches, b.batches, now, window)
  }

  /** Two runs of the same work, sampled differently. */
  ghost predicate SameWork(a: seq<Timed>, b: seq<Timed>) {
    && |a| == |b|
    && forall i :: 0 <= i < |a| ==>
         && a[i].at == b[i].at
         && (a[i].step == b[i].step ||
             (a[i].step.Pushing? && b[i].step.Pushing? && a[i].step.request == b[i].step.request))
  }

  ghost predicate InOrder(steps: seq<Timed>) {
    forall i, j :: 0 <= i < j < |steps| ==> steps[i].at <= steps[j].at
  }

  /** Recording shows through a lookup; pruning never does. */
  lemma RecordingShows(batches: BatchLog, key: BatchKey, answer: PushAnswer, now: int, window: nat, prune: bool,
                       other: BatchKey)
    ensures var recorded := RecordAnswer(batches, key, answer, now, window, prune);
            && (Live(recorded, other, now, window) <==>
                if other == key then window > 0 else Live(batches, other, now, window))
            && (Live(recorded, other, now, window) ==>
                  recorded[other] == if other == key then StoredAnswer(answer, now) else batches[other])
  {
  }

  lemma RecordingHidesPruning(a: BatchLog, b: BatchLog, key: BatchKey, answer: PushAnswer, now: int, window: nat,
                              pruneA: bool, pruneB: bool)
    requires SameLive(a, b, now, window)
    ensures SameLive(RecordAnswer(a, key, answer, now, window, pruneA),
                     RecordAnswer(b, key, answer, now, window, pruneB),
                     now, window)
  {
    var x, y := RecordAnswer(a, key, answer, now, window, pruneA), RecordAnswer(b, key, answer, now, window, pruneB);
    forall other
      ensures Live(x, other, now, window) <==> Live(y, other, now, window)
      ensures Live(x, other, now, window) ==> x[other] == y[other]
    {
      assert Live(a, other, now, window) <==> Live(b, other, now, window);
      RecordingShows(a, key, answer, now, window, pruneA, other);
      RecordingShows(b, key, answer, now, window, pruneB, other);
      hide RecordAnswer, Live;
    }
    hide RecordAnswer, Live;
  }

  lemma ForgettingHidesPruning(a: BatchLog, b: BatchLog, device: string, now: int, window: nat)
    requires SameLive(a, b, now, window)
    ensures SameLive(Forgotten(a, device), Forgotten(b, device), now, window)
  {
    forall key
      ensures Live(Forgotten(a, device), key, now, window) <==> Live(Forgotten(b, device), key, now, window)
      ensures Live(Forgotten(a, device), key, now, window) ==> Forgotten(a, device)[key] == Forgotten(b, device)[key]
    {
      assert Live(a, key, now, window) <==> Live(b, key, now, window);
    }
  }

  lemma SameLookups(a: BatchLog, b: BatchLog, key: BatchKey, now: int, window: nat)
    requires SameLive(a, b, now, window)
    ensures FindAnswer(a, key, now, window) == FindAnswer(b, key, now, window)
  {
    assert Live(a, key, now, window) <==> Live(b, key, now, window);
  }

  /** One step of two runs that differ only in what was pruned: the same answer, and still no other difference. */
  lemma StepHidesPruning(a: Account, b: Account, s: Timed, t: Timed, window: nat)
    requires SameButExpired(a, b, s.at, window) && s.at == t.at
    requires s.step == t.step || (s.step.Pushing? && t.step.Pushing? && s.step.request == t.step.request)
    ensures SameButExpired(Take(a, s, window), Take(b, t, window), s.at, window)
    ensures s.step.Pushing? ==>
              Push(a, s.step.request, s.at, window, s.step.prune).answer ==
              Push(b, t.step.request, t.at, window, t.step.prune).answer
  {
    hide ApplyEach, Decode, RecordAnswer, FindAnswer, SameLive, Forgotten;
    match s.step {
      case Pushing(request, prune) =>
        var key := BatchKey(request.device, request.batchId);
        SameLookups(a.batches, b.batches, key, s.at, window);
        var effect := ApplyEach(a.core, Decode(request.changes), request.device);
        if effect.Ok? {
          RecordingHidesPruning(a.batches, b.batches, key, effect.value.answer, s.at, window, prune, t.step.prune);
        }
      case Elsewhere(_) =>
      case Forgetting(device) => ForgettingHidesPruning(a.batches, b.batches, device, s.at, window);
    }
  }

  lemma LaterStillSame(a: Account, b: Account, now: int, later: int, window: nat)
    requires SameButExpired(a, b, now, window) && now <= later
    ensures SameButExpired(a, b, later, window)
  {
    forall key
      ensures Live(a.batches, key, later, window) <==> Live(b.batches, key, later, window)
      ensures Live(a.batches, key, later, window) ==> a.batches[key] == b.batches[key]
    {
      assert Live(a.batches, key, now, window) <==> Live(b.batches, key, now, window);
    }
  }

  lemma BeforeTheLast(a: seq<Timed>, b: seq<Timed>)
    requires SameWork(a, b) && InOrder(a) && a != []
    ensures var n := |a| - 1;
            && SameWork(a[..n], b[..n]) && InOrder(a[..n])
            && (forall timed :: timed in a[..n] ==> timed.at <= a[n].at)
            && a[n] in a && a[n].at == b[n].at
            && (a[n].step == b[n].step ||
                (a[n].step.Pushing? && b[n].step.Pushing? && a[n].step.request == b[n].step.request))
  {
  }

  lemma {:induction false} RunsAgree(account: Account, a: seq<Timed>, b: seq<Timed>, window: nat, now: int)
    requires SameWork(a, b) && InOrder(a)
    requires forall timed :: timed in a ==> timed.at <= now
    ensures SameButExpired(Run(account, a, window), Run(account, b, window), now, window)
  {
    if a != [] {
      hide Take, Push, SameLive;
      var n := |a| - 1;
      var x, y := Run(account, a[..n], window), Run(account, b[..n], window);
      BeforeTheLast(a, b);
      hide SameWork, InOrder, SameButExpired;
      RunsAgree(account, a[..n], b[..n], window, a[n].at);
      StepHidesPruning(x, y, a[n], b[n], window);
      LaterStillSame(Take(x, a[n], window), Take(y, b[n], window), a[n].at, now, window);
    }
  }

  /**
   The pruning coin is unobservable: two runs of the same work under any two schedules leave the same
   rows and counter, and answer every push alike.
   */
  lemma {:induction false} PruningIsUnobservable(account: Account, a: seq<Timed>, b: seq<Timed>, window: nat, i: nat)
    requires SameWork(a, b) && InOrder(a) && i < |a|
    ensures Run(account, a, window).core == Run(account, b, window).core
    ensures a[i].step.Pushing? ==>
              Push(Run(account, a[..i], window), a[i].step.request, a[i].at, window, a[i].step.prune).answer ==
              Push(Run(account, b[..i], window), b[i].step.request, b[i].at, window, b[i].step.prune).answer
  {
    RunsAgree(account, a, b, window, a[|a| - 1].at);
    RunsAgree(account, a[..i], b[..i], window, a[i].at);
    StepHidesPruning(Run(account, a[..i], window), Run(account, b[..i], window), a[i], b[i], window);
  }
}
