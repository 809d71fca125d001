/**
 What a push answers: every change it was handed is answered once, and a child is refused for its
 parent only when that parent is neither stored nor accepted anywhere in the batch.
 */
module BatchAnswers {
  import opened Outcomes
  import opened Tables
  import opened Changes
  import opened Engine

  // ------------------------------------------------------------------ one answer each

  /** How an answer names the change it is about. */
  datatype Name = Name(kind: string, id: string)

  function RawName(raw: RawChange): Name {
    if raw.Unreadable? then Name("", "") else Name(raw.kindName, raw.id)
  }

  function ChangeName(change: Change): Name {
    match change
    case Refused(_, rejection) => Name(rejection.kind, rejection.id)
    case Decoded(key, _, _, _, _, _) => Name(KindName(key.kind), key.id)
  }

  function RawNames(raws: seq<RawChange>): multiset<Name> {
    if raws == [] then multiset{}
    else RawNames(raws[..|raws| - 1]) + multiset{RawName(raws[|raws| - 1])}
  }

  function ChangeNames(changes: seq<Change>): multiset<Name> {
    if changes == [] then multiset{}
    else ChangeNames(changes[..|changes| - 1]) + multiset{ChangeName(changes[|changes| - 1])}
  }

  function AppliedNames(applied: seq<AppliedChange>): multiset<Name> {
    if applied == [] then multiset{}
    else
      var last := applied[|applied| - 1];
      AppliedNames(applied[..|applied| - 1]) + multiset{Name(last.kind, last.id)}
  }

  function RejectedNames(rejected: seq<RejectedChange>): multiset<Name> {
    if rejected == [] then multiset{}
    else
      var last := rejected[|rejected| - 1];
      RejectedNames(rejected[..|rejected| - 1]) + multiset{Name(last.kind, last.id)}
  }

  lemma DecodingKeepsTheName(raw: RawChange, seen: set<Key>)
    ensures ChangeName(DecodeOne(raw, seen)) == RawName(raw)
  {
  }

  lemma {:induction false} DecodeEachKeepsNames(raws: seq<RawChange>)
    ensures ChangeNames(DecodeEach(raws)) == RawNames(raws)
  {
    if raws != [] {
      var prefix := raws[..|raws| - 1];
      DecodeEachKeepsNames(prefix);
      DecodingKeepsTheName(raws[|raws| - 1], Seen(prefix));
      hide DecodeOne, RawName, ChangeName, Seen;
      assert DecodeEach(raws)[..|prefix|] == DecodeEach(prefix);
    }
  }

  lemma {:induction false} InsertKeepsNames(sorted: seq<Change>, change: Change)
    ensures ChangeNames(Insert(sorted, change)) == ChangeNames(sorted) + multiset{ChangeName(change)}
  {
    hide ChangeName;
    if sorted != [] && ApplyRank(sorted[|sorted| - 1]) > ApplyRank(change) {
      var prefix, last := sorted[..|sorted| - 1], sorted[|sorted| - 1];
      InsertKeepsNames(prefix, change);
      assert (Insert(prefix, change) + [last])[..|Insert(prefix, change)|] == Insert(prefix, change);
    } else {
      assert (sorted + [change])[..|sorted|] == sorted;
    }
  }

  lemma {:induction false} SortKeepsNames(changes: seq<Change>)
    ensures ChangeNames(SortByRank(changes)) == ChangeNames(changes)
  {
    if changes != [] {
      hide ChangeName, Insert;
      SortKeepsNames(changes[..|changes| - 1]);
      InsertKeepsNames(SortByRank(changes[..|changes| - 1]), changes[|changes| - 1]);
    }
  }

  function OutcomeName(outcome: Outcome): Name {
    match outcome
    case Applied(applied) => Name(applied.kind, applied.id)
    case Rejected(rejected) => Name(rejected.kind, rejected.id)
  }

  function AnswerNames(outcomes: seq<Outcome>): multiset<Name> {
    AppliedNames(AppliedIn(outcomes)) + RejectedNames(RejectedIn(outcomes))
  }

  lemma AnswerGrows(outcomes: seq<Outcome>, next: Outcome)
    ensures AnswerNames(outcomes + [next]) == AnswerNames(outcomes) + multiset{OutcomeName(next)}
  {
    var applied, rejected := AppliedIn(outcomes), RejectedIn(outcomes);
    assert (outcomes + [next])[..|outcomes|] == outcomes;
    if next.Applied? {
      assert RejectedIn(outcomes + [next]) == rejected + [] == rejected;
      assert (applied + [next.applied])[..|applied|] == applied;
    } else {
      assert AppliedIn(outcomes + [next]) == applied + [] == applied;
      assert (rejected + [next.rejected])[..|rejected|] == rejected;
    }
  }

  lemma VerdictKeepsTheName(change: Change, facts: Facts, writer: string)
    ensures OutcomeName(OutcomeOf(Judge(change, facts, writer))) == ChangeName(change)
  {
  }

  lemma {:induction false} PlanAnswersEach(core: Core, changes: seq<Change>, writer: string)
    ensures AnswerNames(PlanOf(core, changes, writer).outcomes) == ChangeNames(changes)
  {
    if changes != [] {
      var prefix, change := changes[..|changes| - 1], changes[|changes| - 1];
      PlanAnswersEach(core, prefix, writer);
      var before := PlanOf(core, prefix, writer);
      var facts := PlannedFacts(core, before.accepted, change);
      VerdictKeepsTheName(change, facts, writer);
      AnswerGrows(before.outcomes, OutcomeOf(Judge(change, facts, writer)));
      hide Judge, PlannedFacts, ChangeName, OutcomeOf, OutcomeName, AnswerNames;
    }
  }

  /** A stored push answers every element it was handed exactly once, as applied or as rejected. */
  lemma {:induction false} EveryChangeIsAnsweredOnce(core: Core, raws: seq<RawChange>, writer: string)
    ensures var result := ApplyEach(core, Decode(raws), writer);
            result.Ok? ==>
              AppliedNames(result.value.answer.applied) + RejectedNames(result.value.answer.rejected) == RawNames(raws)
  {
    hide Decode, PlanOf, ApplyEach, AppliedNames, RejectedNames, AppliedIn, RejectedIn, WriteAll, RawNames, ChangeNames;
    DecodeIsOrderedAndDistinct(raws);
    PlanIsApplied(core, Decode(raws), writer);
    PlanAnswersEach(core, Decode(raws), writer);
    NamesSurviveDecoding(raws);
  }

  lemma NamesSurviveDecoding(raws: seq<RawChange>)
    ensures ChangeNames(Decode(raws)) == RawNames(raws)
  {
    hide ChangeNames, RawNames, SortByRank, DecodeEach;
    DecodeEachKeepsNames(raws);
    SortKeepsNames(DecodeEach(raws));
  }

  // ------------------------------------------------------------------ parents, in any input order

  lemma {:induction false} OutcomeAt(core: Core, changes: seq<Change>, writer: string, i: nat)
    requires i < |changes|
    ensures |PlanOf(core, changes, writer).outcomes| == |changes|
    ensures var before := PlanOf(core, changes[..i], writer);
            PlanOf(core, changes, writer).outcomes[i] ==
            OutcomeOf(Judge(changes[i], PlannedFacts(core, before.accepted, changes[i]), writer))
    ensures PlanOf(core, changes[..i], writer).accepted <= PlanOf(core, changes, writer).accepted
  {
    hide Judge, PlannedFacts, OutcomeOf;
    PlanCounts(core, changes, writer);
    var prefix := changes[..|changes| - 1];
    if i < |changes| - 1 {
      assert prefix[..i] == changes[..i];
      OutcomeAt(core, prefix, writer, i);
    } else {
      PlanCounts(core, prefix, writer);
    }
  }

  lemma {:induction false} PlanCounts(core: Core, changes: seq<Change>, writer: string)
    ensures |PlanOf(core, changes, writer).outcomes| == |changes|
  {
    if changes != [] {
      hide Judge, PlannedFacts, OutcomeOf;
      PlanCounts(core, changes[..|changes| - 1], writer);
    }
  }

  /** What was accepted at or after a place in a rank-ordered batch ranks at least as high. */
  lemma {:induction false} LaterAcceptedRanksNoLower(core: Core, changes: seq<Change>, writer: string, i: nat, key: Key)
    requires RankOrdered(changes) && i < |changes|
    requires key in PlanOf(core, changes, writer).accepted && key !in PlanOf(core, changes[..i], writer).accepted
    ensures Rank(key.kind) >= ApplyRank(changes[i])
    decreases |changes|
  {
    var prefix, last := changes[..|changes| - 1], changes[|changes| - 1];
    assert changes[..|prefix|] == prefix;
    var before := PlanOf(core, prefix, writer);
    if key in before.accepted {
      assert prefix[..i] == changes[..i];
      LaterAcceptedRanksNoLower(core, prefix, writer, i, key);
    } else {
      AcceptedAreTheirOwn(last, PlannedFacts(core, before.accepted, last), writer);
      hide Judge, PlannedFacts;
      assert last.Decoded? && last.key == key;
      assert ApplyRank(changes[i]) <= ApplyRank(changes[|changes| - 1]);
    }
  }

  lemma AcceptedAreTheirOwn(change: Change, facts: Facts, writer: string)
    ensures Judge(change, facts, writer).Accept? ==>
              change.Decoded? && Judge(change, facts, writer).write.key == change.key
  {
  }

  ghost predicate RefusedForParent(outcome: Outcome) {
    outcome.Rejected? && outcome.rejected.reason.MissingParent?
  }

  /** The parent a decoded change names, when its kind has one. */
  function NamedParent(change: Change): Option<Key> {
    if change.Refused? then None else ParentOf(change.key.kind, change.fields)
  }

  /**
   The order the client sent its changes in does not decide this: a child is refused for its parent
   exactly when the parent is neither stored nor accepted by this same push, before or after it.
   Changes refused while being read carry their own reason, which is never this one.
   */
  lemma MissingParentIsExact(core: Core, changes: seq<Change>, writer: string, i: nat)
    requires RankOrdered(changes) && i < |changes|
    requires changes[i].Refused? ==> !changes[i].rejection.reason.MissingParent?
    ensures |PlanOf(core, changes, writer).outcomes| == |changes|
    ensures RefusedForParent(PlanOf(core, changes, writer).outcomes[i]) <==>
            && NamedParent(changes[i]).Some?
            && NamedParent(changes[i]).value !in core.store.rows
            && NamedParent(changes[i]).value !in PlanOf(core, changes, writer).accepted
  {
    hide PlanOf;
    OutcomeAt(core, changes, writer, i);
    var parent := NamedParent(changes[i]);
    var before := PlanOf(core, changes[..i], writer);
    if parent.Some? && parent.value in PlanOf(core, changes, writer).accepted && parent.value !in before.accepted {
      LaterAcceptedRanksNoLower(core, changes, writer, i, parent.value);
      assert false;
    }
  }
}
