/**
 Two runs of the whole protocol from nothing. In one a page is stranded by paging alone, every client
 keeping to the protocol. In the other a device that was revoked returns with its data and stores a
 notebook that was erased for good.
 */
module DeviceHistories {
  import opened Outcomes
  import opened Tables
  import opened Changes
  import opened Engine
  import opened Admin
  import opened AccountRuns
  import opened Delta
  import opened Pull
  import opened Replica
  import opened Agreement
  import opened Sending

  /** A state some run reaches in which every push keeps to the protocol. */
  ghost predicate Reachable(system: System, sizes: Sizes) {
    exists steps :: Conforming(EMPTY_SYSTEM, steps, sizes) && Run(EMPTY_SYSTEM, steps, sizes) == system
  }

  lemma EmptyIsReachable(sizes: Sizes)
    ensures Reachable(EMPTY_SYSTEM, sizes)
  {
    var steps: seq<Step> := [];
    assert Conforming(EMPTY_SYSTEM, steps, sizes) && Run(EMPTY_SYSTEM, steps, sizes) == EMPTY_SYSTEM;
  }

  lemma ReachableByOneMore(system: System, step: Step, sizes: Sizes)
    requires Reachable(system, sizes) && Conforms(system, step)
    ensures Reachable(Advance(system, step, sizes), sizes)
  {
    hide Conforms, Advance;
    var steps :| Conforming(EMPTY_SYSTEM, steps, sizes) && Run(EMPTY_SYSTEM, steps, sizes) == system;
    var longer := steps + [step];
    assert longer[..|steps|] == steps;
    forall k | 0 <= k < |longer|
      ensures Conforms(Run(EMPTY_SYSTEM, longer[..k], sizes), longer[k])
    {
      if k < |steps| {
        assert longer[..k] == steps[..k];
      }
    }
    assert Run(EMPTY_SYSTEM, longer, sizes) == Advance(system, step, sizes);
    assert Conforming(EMPTY_SYSTEM, longer, sizes);
  }

  // ------------------------------------------------------------------ two devices, one of them pushing

  const M := Key(Notebook, "m")
  const N := Key(Notebook, "n")
  const S := Key(Section, "s")
  const P := Key(Page, "p")

  const BOTH: Devices := map["phone" := DeviceRow(0, false), "tablet" := DeviceRow(0, false)]
  const PHONE := Client(map[], map[], {"m", "n"}, 0, 0, true, Idle)
  const BLANK := Client(map[], map[], {}, 0, 0, true, Idle)

  function Scene(core: Core, tablet: Client, erased: map<string, nat>): System {
    System(core, BOTH, map["phone" := PHONE, "tablet" := tablet], erased)
  }

  lemma TheSceneIsSet(sizes: Sizes)
    ensures Reachable(Scene(FRESH_ACCOUNT, BLANK, map[]), sizes)
  {
    hide Reachable, Perform, EraseNotebook, Proceed;
    EmptyIsReachable(sizes);
    ReachableByOneMore(EMPTY_SYSTEM, SignIn("phone", false), sizes);
    var one := System(FRESH_ACCOUNT, map["phone" := DeviceRow(0, false)], map["phone" := BLANK], map[]);
    assert Advance(EMPTY_SYSTEM, SignIn("phone", false), sizes) == one;
    ReachableByOneMore(one, SignIn("tablet", false), sizes);
    var two := System(FRESH_ACCOUNT, BOTH, map["phone" := BLANK, "tablet" := BLANK], map[]);
    assert Advance(one, SignIn("tablet", false), sizes) == two;
    ReachableByOneMore(two, Draft("phone", "m"), sizes);
    var three := System(FRESH_ACCOUNT, BOTH, map["phone" := BLANK.(held := {"m"}), "tablet" := BLANK], map[]);
    assert BLANK.held + {"m"} == {"m"} && {"m"} + {"n"} == {"m", "n"};
    assert Advance(two, Draft("phone", "m"), sizes).clients == three.clients;
    assert Advance(two, Draft("phone", "m"), sizes) == three;
    ReachableByOneMore(three, Draft("phone", "n"), sizes);
    assert Advance(three, Draft("phone", "n"), sizes).clients == map["phone" := PHONE, "tablet" := BLANK];
    assert Advance(three, Draft("phone", "n"), sizes) == Scene(FRESH_ACCOUNT, BLANK, map[]);
  }

  lemma ThePhonePushes(core: Core, tablet: Client, erased: map<string, nat>, changes: seq<Change>, after: Core,
                       sizes: Sizes)
    requires Reachable(Scene(core, tablet, erased), sizes)
    requires DistinctKeys(changes) && RankOrdered(changes)
    requires forall change :: change in changes ==>
               Sendable(change) && (change.key.kind.Notebook? ==> change.key.id in {"m", "n"})
    requires Perform(core, Pushed(RawsOf(changes), "phone")) == after
    ensures Reachable(Scene(after, tablet, erased), sizes)
  {
    var system, step := Scene(core, tablet, erased), Push("phone", RawsOf(changes));
    ASentBatchIsReadAsSent(changes);
    hide Reachable, Perform, Decode, RawsOf, Sendable, DistinctKeys, RankOrdered;
    TheSceneConforms(core, tablet, erased, RawsOf(changes));
    ReachableByOneMore(system, step, sizes);
    hide Conforms;
    assert Advance(system, step, sizes) == Scene(after, tablet, erased);
  }

  lemma TheSceneConforms(core: Core, tablet: Client, erased: map<string, nat>, raws: seq<RawChange>)
    requires forall change :: change in Decode(raws) && change.Decoded? && change.key.kind.Notebook? ==>
               change.key.id in {"m", "n"}
    ensures Conforms(Scene(core, tablet, erased), Push("phone", raws))
  {
    hide Decode;
  }

  /** The tablet's own steps, each a read or the application of what was read. */
  lemma TheTabletProceeds(core: Core, tablet: Client, erased: map<string, nat>, step: Step, next: Client, sizes: Sizes)
    requires Reachable(Scene(core, tablet, erased), sizes)
    requires step.ReadCounter? || step.ReadBoundary? || step.ReadRows? || step.ReadPurges? || step.Apply?
    requires step.device == "tablet" && Proceed(core, tablet, step, sizes) == next
    ensures Reachable(Scene(core, next, erased), sizes)
  {
    hide Reachable, Proceed, Perform;
    ReachableByOneMore(Scene(core, tablet, erased), step, sizes);
    assert Advance(Scene(core, tablet, erased), step, sizes).clients == map["phone" := PHONE, "tablet" := next];
  }

  /** A request from its counter to its answer, given where its page ends. */
  lemma TheTabletReadsAPage(core: Core, tablet: Client, erased: map<string, nat>, limit: nat, pageEnd: nat, page: Rows,
                            purged: set<Key>, sizes: Sizes)
    requires Reachable(Scene(core, tablet, erased), sizes)
    requires tablet.phase.Idle? && tablet.cursor < core.counter
    requires var cutoff := BoundaryOf(core.store.rows, Query(tablet.cursor, limit, WHOLE), core.counter, sizes);
             !cutoff.empty && PageEnd(cutoff, core.counter) == pageEnd
    requires Window(core.store.rows, WHOLE, tablet.cursor, pageEnd) == page
    requires PurgeWindow(core.purges, tablet.cursor, pageEnd).Keys == purged
    ensures Reachable(Scene(core, tablet.(phase := Answered(pageEnd, page, purged)), erased), sizes)
  {
    hide Reachable, BoundaryOf, Window, PurgeWindow, Scene;
    var counted := tablet.(phase := Counted(limit, core.counter));
    var bounded := tablet.(phase := Bounded(pageEnd));
    var read := tablet.(phase := RowsRead(pageEnd, page));
    assert Proceed(core, tablet, ReadCounter("tablet", limit), sizes) == counted;
    assert Proceed(core, counted, ReadBoundary("tablet"), sizes) == bounded;
    assert Proceed(core, bounded, ReadRows("tablet"), sizes) == read;
    assert Proceed(core, read, ReadPurges("tablet"), sizes) == tablet.(phase := Answered(pageEnd, page, purged));
    hide Proceed;
    TheTabletProceeds(core, tablet, erased, ReadCounter("tablet", limit), counted, sizes);
    TheTabletProceeds(core, counted, erased, ReadBoundary("tablet"), bounded, sizes);
    TheTabletProceeds(core, bounded, erased, ReadRows("tablet"), read, sizes);
    TheTabletProceeds(core, read, erased, ReadPurges("tablet"), tablet.(phase := Answered(pageEnd, page, purged)),
                      sizes);
  }

  lemma TheTabletApplies(core: Core, tablet: Client, erased: map<string, nat>, sizes: Sizes)
    requires Reachable(Scene(core, tablet, erased), sizes) && tablet.phase.Answered?
    ensures Reachable(Scene(core, Replica.Applied(tablet), erased), sizes)
  {
    hide Reachable, Scene, Replica.Applied;
    assert Proceed(core, tablet, Apply("tablet"), sizes) == Replica.Applied(tablet);
    hide Proceed;
    TheTabletProceeds(core, tablet, erased, Apply("tablet"), Replica.Applied(tablet), sizes);
  }

  // ------------------------------------------------------------------ what the phone does

  function FirstBatch(): seq<Change> {
    [Sent(M, 0, None, PLAIN), Sent(N, 0, None, PLAIN), Sent(S, 0, None, ChildFields("", "n")),
     Sent(P, 0, None, ChildFields("", "s"))]
  }

  function FirstRows(): Rows {
    map[M := RowOf(1, 1, None, PLAIN), N := RowOf(1, 1, None, PLAIN), S := RowOf(1, 1, None, ChildFields("", "n")),
        P := RowOf(1, 1, None, ChildFields("", "s"))]
  }

  /** The section moves to the other notebook, and the notebook it leaves is deleted. */
  function SecondBatch(): seq<Change> {
    [Sent(N, 1, Some(0), PLAIN), Sent(S, 1, None, ChildFields("", "m"))]
  }

  function SecondRows(): Rows {
    FirstRows()[N := RowOf(2, 2, Some(0), PLAIN)][S := RowOf(2, 2, None, ChildFields("", "m"))]
  }

  /** The other notebook and the section, edited after the erasure. */
  function ThirdRows(): Rows { SecondRows() - {N} }
  function FourthRows(): Rows { ThirdRows()[M := RowOf(2, 4, None, PLAIN)] }
  function FifthRows(): Rows { FourthRows()[S := RowOf(3, 5, None, ChildFields("", "m"))] }

  function CoreWith(counter: nat, rows: Rows): Core {
    Core(counter, Store(rows, {}), if counter < 3 then map[] else map[N := 3], map[])
  }

  lemma TheFirstBatchIsCommitted()
    ensures Perform(FRESH_ACCOUNT, Pushed(RawsOf(FirstBatch()), "phone")) == CoreWith(1, FirstRows())
  {
    PlainIds();
    hide Takes, Perform, RawsOf;
    var core := FRESH_ACCOUNT;
    var one: Rows := map[M := RowOf(1, 1, None, PLAIN)];
    var two := one[N := RowOf(1, 1, None, PLAIN)];
    var three := two[S := RowOf(1, 1, None, ChildFields("", "n"))];
    SentIsTaken(core, Store(map[], {}), M, 0, None, PLAIN);
    var nothing: Rows := map[];
    assert nothing[M := RowOf(1, 1, None, PLAIN)] == one;
    SentIsTaken(core, Store(one, {}), N, 0, None, PLAIN);
    SentIsTaken(core, Store(two, {}), S, 0, None, ChildFields("", "n"));
    SentIsTaken(core, Store(three, {}), P, 0, None, ChildFields("", "s"));
    assert three[P := RowOf(1, 1, None, ChildFields("", "s"))] == FirstRows();
    var stores := [Store(map[], {}), Store(one, {}), Store(two, {}), Store(three, {}), Store(FirstRows(), {})];
    assert TakesEach(core, stores, FirstBatch(), "phone");
    hide TakesEach;
    ASentBatchIsCommitted(core, stores, FirstBatch(), "phone");
  }

  lemma TheSecondBatchIsCommitted()
    ensures Perform(CoreWith(1, FirstRows()), Pushed(RawsOf(SecondBatch()), "phone")) == CoreWith(2, SecondRows())
  {
    PlainIds();
    hide Takes, Perform, RawsOf;
    var core := CoreWith(1, FirstRows());
    var one := FirstRows()[N := RowOf(2, 2, Some(0), PLAIN)];
    SentIsTaken(core, core.store, N, 1, Some(0), PLAIN);
    SentIsTaken(core, Store(one, {}), S, 1, None, ChildFields("", "m"));
    var stores := [core.store, Store(one, {}), Store(SecondRows(), {})];
    assert TakesEach(core, stores, SecondBatch(), "phone");
    hide TakesEach;
    ASentBatchIsCommitted(core, stores, SecondBatch(), "phone");
  }

  lemma OnlyTheNotebookGoes()
    ensures Cascade(SecondRows(), {N}) == {N}
  {
    assert Beneath(SecondRows(), {N}) == {};
  }

  lemma NothingToPrune()
    ensures PrunePurges(map[], BOTH) == map[]
  {
  }

  /** Nothing hangs from the notebook any more, so only it goes. */
  lemma TheNotebookIsErased()
    ensures EraseNotebook(CoreWith(2, SecondRows()), BOTH, "n") == Ok(CoreWith(3, ThirdRows()))
  {
    PlainIds();
    OnlyTheNotebookGoes();
    NothingToPrune();
    hide Cascade, PrunePurges, IdFault;
    var core := CoreWith(2, SecondRows());
    assert core.store.rows[N] == RowOf(2, 2, Some(0), PLAIN);
    hide SecondRows;
    assert DeleteSubtree(core.store, N) == Store(ThirdRows(), {});
  }

  lemma TheEditsAreCommitted()
    ensures Perform(CoreWith(3, ThirdRows()), Pushed(RawsOf([Sent(M, 1, None, PLAIN)]), "phone")) ==
              CoreWith(4, FourthRows())
    ensures Perform(CoreWith(4, FourthRows()), Pushed(RawsOf([Sent(S, 2, None, ChildFields("", "m"))]), "phone")) ==
            CoreWith(5, FifthRows())
  {
    PlainIds();
    hide Takes, Perform, RawsOf;
    SentIsTaken(CoreWith(3, ThirdRows()), Store(ThirdRows(), {}), M, 1, None, PLAIN);
    ASentChangeIsCommitted(CoreWith(3, ThirdRows()), Sent(M, 1, None, PLAIN), "phone", Store(FourthRows(), {}));
    SentIsTaken(CoreWith(4, FourthRows()), Store(FourthRows(), {}), S, 2, None, ChildFields("", "m"));
    ASentChangeIsCommitted(CoreWith(4, FourthRows()), Sent(S, 2, None, ChildFields("", "m")), "phone",
                           Store(FifthRows(), {}));
  }

  // ------------------------------------------------------------------ what the tablet reads

  const CAUGHT_UP := Client(FirstRows(), FirstRows(), {"m", "n"}, 1, 1, true, Idle)

  lemma TheFirstPageIsEverything(sizes: Sizes)
    ensures !BoundaryOf(FirstRows(), Query(0, 512, WHOLE), 1, sizes).empty
    ensures PageEnd(BoundaryOf(FirstRows(), Query(0, 512, WHOLE), 1, sizes), 1) == 1
    ensures Window(FirstRows(), WHOLE, 0, 1) == FirstRows()
  {
    BoundaryIsInside(FirstRows(), Query(0, 512, WHOLE), 1, sizes);
    assert M in Window(FirstRows(), WHOLE, 0, 1);
    assert Window(FirstRows(), WHOLE, 0, 1) == FirstRows();
    hide BoundaryOf, Window;
  }

  lemma TheTabletCatchesUp(sizes: Sizes)
    requires Reachable(Scene(CoreWith(1, FirstRows()), BLANK, map[]), sizes)
    ensures Reachable(Scene(CoreWith(1, FirstRows()), CAUGHT_UP, map[]), sizes)
  {
    var core := CoreWith(1, FirstRows());
    TheFirstPageIsEverything(sizes);
    TheFirstPageIsApplied();
    assert PurgeWindow(core.purges, 0, 1).Keys == {};
    hide Reachable, BoundaryOf, Window, FirstRows, Scene, PurgeWindow, Replica.Applied, PageEnd;
    TheTabletReadsAPage(core, BLANK, map[], 512, 1, FirstRows(), {}, sizes);
    TheTabletApplies(core, BLANK.(phase := Answered(1, FirstRows(), {})), map[], sizes);
  }

  lemma TheFirstPageIsApplied()
    ensures Replica.Applied(BLANK.(phase := Answered(1, FirstRows(), {}))) == CAUGHT_UP
  {
    var answered := BLANK.(phase := Answered(1, FirstRows(), {}));
    var nothing: Rows := map[];
    assert nothing + FirstRows() == FirstRows();
    assert Beneath(FirstRows(), {}) == {};
    assert Dropped(answered) == {};
    assert NotebooksIn(FirstRows()) == {"m", "n"} by {
      assert M in FirstRows() && N in FirstRows();
    }
  }

  lemma TheFifthRowsAre()
    ensures FifthRows() == map[M := RowOf(2, 4, None, PLAIN), S := RowOf(3, 5, None, ChildFields("", "m")),
                               P := RowOf(1, 1, None, ChildFields("", "s"))]
  {
  }

  lemma TheSecondWindows()
    ensures Window(FifthRows(), WHOLE, 1, 4) == map[M := RowOf(2, 4, None, PLAIN)]
    ensures Window(FifthRows(), WHOLE, 1, 5) ==
            map[M := RowOf(2, 4, None, PLAIN), S := RowOf(3, 5, None, ChildFields("", "m"))]
  {
    TheFifthRowsAre();
    hide FifthRows;
  }

  /** Its second page holds one row, and ends before the section's new place. */
  lemma TheSecondPageIsOneRow(sizes: Sizes)
    ensures !BoundaryOf(FifthRows(), Query(1, 1, WHOLE), 5, sizes).empty
    ensures PageEnd(BoundaryOf(FifthRows(), Query(1, 1, WHOLE), 5, sizes), 5) == 4
  {
    TheSecondWindows();
    hide FifthRows, Window, Cutoff, Listing;
    AOneRowPageEndsAtTheFirst(Window(FifthRows(), WHOLE, 1, 5), M, S, sizes);
  }

  const BEHIND := Client(FirstRows(), FirstRows(), {"m", "n"}, 1, 1, true,
                         Answered(4, map[M := RowOf(2, 4, None, PLAIN)], {N}))

  lemma TheTabletReadsOn(sizes: Sizes)
    requires Reachable(Scene(CoreWith(5, FifthRows()), CAUGHT_UP, map["n" := 3]), sizes)
    ensures Reachable(Scene(CoreWith(5, FifthRows()), BEHIND, map["n" := 3]), sizes)
  {
    var core := CoreWith(5, FifthRows());
    TheSecondPageIsOneRow(sizes);
    TheSecondWindows();
    assert PurgeWindow(core.purges, 1, 4).Keys == {N};
    hide Reachable, BoundaryOf, Window, FirstRows, FifthRows, Scene, PurgeWindow, PageEnd;
    TheTabletReadsAPage(core, CAUGHT_UP, map["n" := 3], 1, 4, map[M := RowOf(2, 4, None, PLAIN)], {N}, sizes);
  }

  function BehindSystem(): System {
    Scene(CoreWith(5, FifthRows()), BEHIND, map["n" := 3])
  }

  lemma TheFirstBatchIsSendable()
    ensures DistinctKeys(FirstBatch()) && RankOrdered(FirstBatch())
    ensures forall change :: change in FirstBatch() ==>
              Sendable(change) && (change.key.kind.Notebook? ==> change.key.id in {"m", "n"})
  {
    PlainIds();
    assert "m" != "n" by { assert "m"[0] != "n"[0]; }
  }

  lemma TheSecondBatchIsSendable()
    ensures DistinctKeys(SecondBatch()) && RankOrdered(SecondBatch())
    ensures forall change :: change in SecondBatch() ==>
              Sendable(change) && (change.key.kind.Notebook? ==> change.key.id in {"m", "n"})
  {
    PlainIds();
  }

  /** Two pushes, and the tablet caught up between them. */
  lemma TheSectionIsMoved(sizes: Sizes)
    ensures Reachable(Scene(CoreWith(2, SecondRows()), CAUGHT_UP, map[]), sizes)
  {
    TheFirstBatchIsSendable();
    TheSecondBatchIsSendable();
    TheFirstBatchIsCommitted();
    TheSecondBatchIsCommitted();
    hide Reachable, Perform, RawsOf, FirstRows, SecondRows, CoreWith, Scene, Sendable, DistinctKeys, RankOrdered,
         FirstBatch, SecondBatch;
    TheSceneIsSet(sizes);
    ThePhonePushes(FRESH_ACCOUNT, BLANK, map[], FirstBatch(), CoreWith(1, FirstRows()), sizes);
    TheTabletCatchesUp(sizes);
    ThePhonePushes(CoreWith(1, FirstRows()), CAUGHT_UP, map[], SecondBatch(), CoreWith(2, SecondRows()), sizes);
  }

  lemma TheEmptiedNotebookGoes(sizes: Sizes)
    ensures Reachable(Scene(CoreWith(3, ThirdRows()), CAUGHT_UP, map["n" := 3]), sizes)
  {
    TheSectionIsMoved(sizes);
    TheNotebookIsErased();
    hide Reachable, FirstRows, SecondRows, ThirdRows, EraseNotebook, Perform, Proceed;
    ReachableByOneMore(Scene(CoreWith(2, SecondRows()), CAUGHT_UP, map[]), Erase("n"), sizes);
    var none: map<string, nat> := map[];
    assert none["n" := 3] == map["n" := 3];
    assert Advance(Scene(CoreWith(2, SecondRows()), CAUGHT_UP, map[]), Erase("n"), sizes) ==
           Scene(CoreWith(3, ThirdRows()), CAUGHT_UP, map["n" := 3]);
  }

  lemma OneChangeIsSendable(change: Change)
    requires change in [Sent(M, 1, None, PLAIN), Sent(S, 2, None, ChildFields("", "m"))]
    ensures DistinctKeys([change]) && RankOrdered([change]) && Sendable(change)
    ensures change.key.kind.Notebook? ==> change.key.id in {"m", "n"}
  {
    PlainIds();
  }

  lemma TheTabletFallsBehind(sizes: Sizes)
    ensures Reachable(BehindSystem(), sizes)
  {
    TheEmptiedNotebookGoes(sizes);
    TheEditsAreCommitted();
    OneChangeIsSendable(Sent(M, 1, None, PLAIN));
    OneChangeIsSendable(Sent(S, 2, None, ChildFields("", "m")));
    hide Reachable, Perform, RawsOf, FirstRows, ThirdRows, FourthRows, FifthRows, CoreWith, Scene, Sendable,
         DistinctKeys, RankOrdered;
    ThePhonePushes(CoreWith(3, ThirdRows()), CAUGHT_UP, map["n" := 3], [Sent(M, 1, None, PLAIN)],
                   CoreWith(4, FourthRows()), sizes);
    ThePhonePushes(CoreWith(4, FourthRows()), CAUGHT_UP, map["n" := 3], [Sent(S, 2, None, ChildFields("", "m"))],
                   CoreWith(5, FifthRows()), sizes);
    TheTabletReadsOn(sizes);
  }

  // ------------------------------------------------------------------ stranding

  lemma TheTabletAgrees()
    ensures AllAgree(BehindSystem())
  {
    assert Agreement.Agrees(FifthRows(), FirstRows(), 1);
  }

  lemma TheSectionIsStranded()
    ensures Stranded(FifthRows(), Merged(BEHIND), {N}, 4)
  {
    var local := Merged(BEHIND);
    assert local[S] == RowOf(1, 1, None, ChildFields("", "n"));
    assert Under(local, N, N);
    assert Under(local, S, N);
    assert BeneathAny(local, S, {N});
    assert RowParent(FifthRows(), P) == Some(S);
    hide BeneathAny, Under;
  }

  /**
   Stranding is real, and needs no race: a run of ordinary requests, every client keeping to the protocol,
   reaches a state in which every replica agrees and applying the page just read loses a page that no
   later response will carry.
   */
  lemma APageCanBeStranded(sizes: Sizes)
    ensures Reachable(BehindSystem(), sizes) && AllAgree(BehindSystem())
    ensures Strands(BehindSystem(), Apply("tablet"))
    ensures !AllAgree(Advance(BehindSystem(), Apply("tablet"), sizes))
  {
    TheTabletFallsBehind(sizes);
    TheTabletAgrees();
    TheSectionIsStranded();
    hide AllAgree, Stranded, Merged, FirstRows, FifthRows, Advance, Conforming;
    var steps :| Conforming(EMPTY_SYSTEM, steps, sizes) && Run(EMPTY_SYSTEM, steps, sizes) == BehindSystem();
    TheEmptySystemHolds();
    hide Holds, Run;
    EveryRunHolds(EMPTY_SYSTEM, steps, sizes);
    AgreementIsLostExactlyByStranding(BehindSystem(), Apply("tablet"), sizes);
  }

  // ------------------------------------------------------------------ a device that returns

  const K := Key(Notebook, "k")

  /** One device and what it has: two notebooks, nothing read back. */
  function Alone(core: Core, revoked: bool, intact: bool, erased: map<string, nat>): System {
    System(core, map["phone" := DeviceRow(0, revoked)],
           map["phone" := Client(map[], map[], {"n", "k"}, 0, 0, intact, Idle)], erased)
  }

  lemma ThePhoneIsAlone(sizes: Sizes)
    ensures Reachable(Alone(FRESH_ACCOUNT, false, true, map[]), sizes)
  {
    hide Reachable, Perform, EraseNotebook, Proceed;
    EmptyIsReachable(sizes);
    ReachableByOneMore(EMPTY_SYSTEM, SignIn("phone", false), sizes);
    var one := System(FRESH_ACCOUNT, map["phone" := DeviceRow(0, false)], map["phone" := BLANK], map[]);
    assert Advance(EMPTY_SYSTEM, SignIn("phone", false), sizes) == one;
    ReachableByOneMore(one, Draft("phone", "n"), sizes);
    assert BLANK.held + {"n"} == {"n"} && {"n"} + {"k"} == {"n", "k"};
    var two := System(FRESH_ACCOUNT, map["phone" := DeviceRow(0, false)], map["phone" := BLANK.(held := {"n"})], map[]);
    assert Advance(one, Draft("phone", "n"), sizes) == two;
    ReachableByOneMore(two, Draft("phone", "k"), sizes);
    assert Advance(two, Draft("phone", "k"), sizes) == Alone(FRESH_ACCOUNT, false, true, map[]);
  }

  /** Two new notebooks, and their deletion. */
  function Pair(baseVersion: nat, deletedAt: Option<int>): seq<Change> {
    [Sent(N, baseVersion, deletedAt, PLAIN), Sent(K, baseVersion, deletedAt, PLAIN)]
  }

  function PairRows(version: nat, deletedAt: Option<int>): Rows {
    map[N := RowOf(version, version, deletedAt, PLAIN), K := RowOf(version, version, deletedAt, PLAIN)]
  }

  function PairCore(version: nat, deletedAt: Option<int>): Core {
    Core(version, Store(PairRows(version, deletedAt), {}), map[], map[])
  }

  lemma ThePairIsCreated()
    ensures Perform(FRESH_ACCOUNT, Pushed(RawsOf(Pair(0, None)), "phone")) == PairCore(1, None)
  {
    PlainIds();
    assert "n" != "k" by { assert "n"[0] != "k"[0]; }
    hide Takes, Perform, RawsOf, Pair;
    var nothing: Rows := map[];
    var one: Rows := map[N := RowOf(1, 1, None, PLAIN)];
    assert nothing[N := RowOf(1, 1, None, PLAIN)] == one;
    assert one[K := RowOf(1, 1, None, PLAIN)] == PairRows(1, None);
    SentIsTaken(FRESH_ACCOUNT, Store(map[], {}), N, 0, None, PLAIN);
    SentIsTaken(FRESH_ACCOUNT, Store(one, {}), K, 0, None, PLAIN);
    ThePairIsTaken(FRESH_ACCOUNT, Store(one, {}), 0, None, Store(PairRows(1, None), {}));
  }

  lemma ThePairIsDeleted()
    ensures Perform(PairCore(1, None), Pushed(RawsOf(Pair(1, Some(0))), "phone")) == PairCore(2, Some(0))
  {
    PlainIds();
    assert "n" != "k" by { assert "n"[0] != "k"[0]; }
    hide Takes, Perform, RawsOf, Pair;
    var core := PairCore(1, None);
    var half := PairRows(1, None)[N := RowOf(2, 2, Some(0), PLAIN)];
    SentIsTaken(core, core.store, N, 1, Some(0), PLAIN);
    SentIsTaken(core, Store(half, {}), K, 1, Some(0), PLAIN);
    assert half[K := RowOf(2, 2, Some(0), PLAIN)] == PairRows(2, Some(0));
    ThePairIsTaken(core, Store(half, {}), 1, Some(0), Store(PairRows(2, Some(0)), {}));
  }

  lemma ThePairIsTaken(core: Core, half: Store, baseVersion: nat, deletedAt: Option<int>, after: Store)
    requires Takes(core, core.store, Sent(N, baseVersion, deletedAt, PLAIN), "phone", half)
    requires Takes(core, half, Sent(K, baseVersion, deletedAt, PLAIN), "phone", after)
    ensures Perform(core, Pushed(RawsOf(Pair(baseVersion, deletedAt)), "phone")) ==
            core.(counter := core.counter + 1, store := after)
  {
    PlainIds();
    assert "n" != "k" by { assert "n"[0] != "k"[0]; }
    var changes, stores := Pair(baseVersion, deletedAt), [core.store, half, after];
    assert forall change :: change in changes ==> Sendable(change);
    hide Takes, Perform, RawsOf;
    assert TakesEach(core, stores, changes, "phone");
    hide TakesEach, Sendable;
    ASentBatchIsCommitted(core, stores, changes, "phone");
  }

  lemma TheLonePhonePushes(core: Core, changes: seq<Change>, after: Core, sizes: Sizes)
    requires Reachable(Alone(core, false, true, map[]), sizes)
    requires DistinctKeys(changes) && RankOrdered(changes)
    requires forall change :: change in changes ==>
               Sendable(change) && (change.key.kind.Notebook? ==> change.key.id in {"n", "k"})
    requires Perform(core, Pushed(RawsOf(changes), "phone")) == after
    ensures Reachable(Alone(after, false, true, map[]), sizes)
  {
    hide Reachable, Perform;
    var system, step := Alone(core, false, true, map[]), Push("phone", RawsOf(changes));
    ASentBatchIsReadAsSent(changes);
    assert Conforms(system, step) by { hide Decode, RawsOf, Sendable, DistinctKeys; }
    ReachableByOneMore(system, step, sizes);
    hide RawsOf, Sendable, Conforms, DistinctKeys;
  }

  /** With no active device to wait for, each erasure drops every gravestone but its own. */
  lemma ThePairIsErased()
    ensures EraseNotebook(PairCore(2, Some(0)), map["phone" := DeviceRow(0, true)], "n") ==
            Ok(Core(3, Store(map[K := RowOf(2, 2, Some(0), PLAIN)], {}), map[N := 3], map[]))
    ensures EraseNotebook(Core(3, Store(map[K := RowOf(2, 2, Some(0), PLAIN)], {}), map[N := 3], map[]),
                          map["phone" := DeviceRow(0, true)], "k") ==
            Ok(Core(4, Store(map[], {}), map[K := 4], map[]))
  {
    PlainIds();
    assert "n" != "k" by { assert "n"[0] != "k"[0]; }
    LoneNotebookGoes(PairRows(2, Some(0)), N);
    var left: Rows := map[K := RowOf(2, 2, Some(0), PLAIN)];
    LoneNotebookGoes(left, K);
    var devices := map["phone" := DeviceRow(0, true)];
    assert PrunePurges(map[], devices) == map[] && PrunePurges(map[N := 3], devices) == map[];
    hide Cascade, IdFault, PrunePurges;
    var none: map<Key, nat> := map[];
    assert none[N := 3] == map[N := 3] && none[K := 4] == map[K := 4];
    assert PairRows(2, Some(0)) - {N} == left && left - {K} == map[];
    assert DeleteSubtree(Store(PairRows(2, Some(0)), {}), N) == Store(left, {});
    assert DeleteSubtree(Store(left, {}), K) == Store(map[], {});
  }

  lemma LoneNotebookGoes(rows: Rows, notebook: Key)
    requires forall key :: key in rows ==> key.kind.Notebook?
    ensures Cascade(rows, {notebook}) == {notebook}
  {
    assert Beneath(rows, {notebook}) == {};
  }

  function ReturnedSystem(): System {
    Alone(Core(4, Store(map[], {}), map[K := 4], map[]), false, false, map["n" := 3, "k" := 4])
  }

  lemma ThePhoneIsRevoked(core: Core, sizes: Sizes)
    requires Reachable(Alone(core, false, true, map[]), sizes)
    ensures Reachable(Alone(core, true, false, map[]), sizes)
  {
    hide Reachable, Perform, EraseNotebook, Proceed;
    ReachableByOneMore(Alone(core, false, true, map[]), Revoke("phone"), sizes);
    assert Advance(Alone(core, false, true, map[]), Revoke("phone"), sizes) == Alone(core, true, false, map[]);
  }

  lemma ANotebookIsErased(core: Core, erased: map<string, nat>, id: string, after: Core, sizes: Sizes)
    requires Reachable(Alone(core, true, false, erased), sizes)
    requires EraseNotebook(core, map["phone" := DeviceRow(0, true)], id) == Ok(after)
    ensures Reachable(Alone(after, true, false, erased[id := after.counter]), sizes)
  {
    hide Reachable, Perform, EraseNotebook, Proceed;
    ReachableByOneMore(Alone(core, true, false, erased), Erase(id), sizes);
  }

  lemma ThePhoneSignsInAgain(core: Core, erased: map<string, nat>, sizes: Sizes)
    requires Reachable(Alone(core, true, false, erased), sizes)
    ensures Reachable(Alone(core, false, false, erased), sizes)
  {
    hide Reachable, Perform, EraseNotebook, Proceed;
    ReachableByOneMore(Alone(core, true, false, erased), SignIn("phone", false), sizes);
    assert Advance(Alone(core, true, false, erased), SignIn("phone", false), sizes) ==
        Alone(core, false, false, erased);
  }

  lemma PairsAreSendable(baseVersion: nat, deletedAt: Option<int>)
    ensures DistinctKeys(Pair(baseVersion, deletedAt)) && RankOrdered(Pair(baseVersion, deletedAt))
    ensures forall change :: change in Pair(baseVersion, deletedAt) ==> Sendable(change) && change.key.id in {"n", "k"}
  {
    PlainIds();
    assert "n" != "k" by { assert "n"[0] != "k"[0]; }
  }

  lemma ThePhoneIsCutOff(sizes: Sizes)
    ensures Reachable(Alone(PairCore(2, Some(0)), true, false, map[]), sizes)
  {
    ThePhoneIsAlone(sizes);
    ThePairIsCreated();
    ThePairIsDeleted();
    PairsAreSendable(0, None);
    PairsAreSendable(1, Some(0));
    hide Reachable, Perform, RawsOf, PairCore, Alone, Sendable, DistinctKeys, RankOrdered, Pair;
    TheLonePhonePushes(FRESH_ACCOUNT, Pair(0, None), PairCore(1, None), sizes);
    TheLonePhonePushes(PairCore(1, None), Pair(1, Some(0)), PairCore(2, Some(0)), sizes);
    ThePhoneIsRevoked(PairCore(2, Some(0)), sizes);
  }

  lemma ThePhoneReturns(sizes: Sizes)
    ensures Reachable(ReturnedSystem(), sizes)
  {
    ThePhoneIsCutOff(sizes);
    ThePairIsErased();
    hide Reachable, EraseNotebook, PairCore, Alone;
    var one := Core(3, Store(map[K := RowOf(2, 2, Some(0), PLAIN)], {}), map[N := 3], map[]);
    var two := Core(4, Store(map[], {}), map[K := 4], map[]);
    var none: map<string, nat> := map[];
    ANotebookIsErased(PairCore(2, Some(0)), none, "n", one, sizes);
    assert none["n" := 3] == map["n" := 3] && map["n" := 3]["k" := 4] == map["n" := 3, "k" := 4];
    ANotebookIsErased(one, map["n" := 3], "k", two, sizes);
    ThePhoneSignsInAgain(two, map["n" := 3, "k" := 4], sizes);
  }

  lemma TheErasedIsStored()
    ensures Perform(ReturnedSystem().core, Pushed(RawsOf([Sent(N, 0, None, PLAIN)]), "phone")) ==
            Core(5, Store(map[N := RowOf(1, 5, None, PLAIN)], {}), map[K := 4], map[])
  {
    PlainIds();
    assert "n" != "k" by { assert "n"[0] != "k"[0]; }
    var core := Core(4, Store(map[], {}), map[K := 4], map[]);
    var nothing: Rows := map[];
    assert nothing[N := RowOf(1, 5, None, PLAIN)] == map[N := RowOf(1, 5, None, PLAIN)];
    SentIsTaken(core, core.store, N, 0, None, PLAIN);
    hide Takes, Perform, RawsOf;
    ASentChangeIsCommitted(core, Sent(N, 0, None, PLAIN), "phone", Store(map[N := RowOf(1, 5, None, PLAIN)], {}));
  }

  /**
   Why purge safety is about uninterrupted devices. A device is revoked, the notebooks it has are erased and
   nobody is left for the log to wait for; it signs in again with its data, and pushing a notebook it has
   stores what was erased for good.
   */
  lemma AReturningDeviceBringsItBack(sizes: Sizes)
    ensures Reachable(ReturnedSystem(), sizes) && "n" in ReturnedSystem().erased
    ensures var step := Push("phone", RawsOf([Sent(N, 0, None, PLAIN)]));
            && Active(ReturnedSystem(), "phone") && "n" in ReturnedSystem().clients["phone"].held
            && NotebookKey("n") in Advance(ReturnedSystem(), step, sizes).core.store.rows
  {
    ThePhoneReturns(sizes);
    TheErasedIsStored();
    hide Perform, RawsOf, Reachable;
  }
}
