/**
 A client that follows the delta leaving notebooks out, while anything commits between its reads. Its
 cursor covers what was left out: every row at or below it was told, or was beneath a skipped notebook
 when its page was read. What has come out since is what it will not hear of again.
 */
module Skipping {
  import opened Tables
  import opened Engine
  import opened PushLaws
  import opened AccountRuns
  import opened Delta
  import opened Pull
  import Replica

  datatype Phase =
    | Idle
    | Counted(limit: nat, upper: nat)
    | Bounded(pageEnd: nat)
    | Answered(pageEnd: nat, page: Rows, withheld: Rows)

  /** `told` is everything its answers ever carried, `passed` what they left out beneath skipped notebooks. */
  datatype Reader = Reader(told: Rows, passed: Rows, cursor: nat, phase: Phase)

  datatype View = View(core: Core, reader: Reader)

  datatype Step =
    | Write(op: Op)
    | ReadCounter(limit: nat)
    | ReadBoundary
    | ReadRows
    | Apply
    | Abandon

  /** The rows of a range that a read leaves out. */
  function Withheld(rows: Rows, filter: DeltaFilter, since: nat, upper: nat): Rows {
    map key | key in rows && since < rows[key].changeSeq <= upper && Skipped(rows, filter, key) :: rows[key]
  }

  function Proceed(rows: Rows, counter: nat, reader: Reader, step: Step, filter: DeltaFilter, sizes: Sizes): Reader {
    match step
    case ReadCounter(limit) => if reader.phase.Idle? then reader.(phase := Counted(limit, counter)) else reader
    case ReadBoundary =>
      if !reader.phase.Counted? then reader
      else
        var upper := reader.phase.upper;
        var cutoff := BoundaryOf(rows, Query(reader.cursor, reader.phase.limit, filter), upper, sizes);
        if reader.cursor >= upper || cutoff.empty
        then reader.(phase := Answered(upper, map[], Withheld(rows, filter, reader.cursor, upper)))
        else reader.(phase := Bounded(PageEnd(cutoff, upper)))
    case ReadRows =>
      if !reader.phase.Bounded? then reader
      else
        var pageEnd := reader.phase.pageEnd;
        reader.(phase := Answered(pageEnd, Window(rows, filter, reader.cursor, pageEnd),
                                  Withheld(rows, filter, reader.cursor, pageEnd)))
    case Apply =>
      if !reader.phase.Answered? then reader
      else Reader(reader.told + reader.phase.page, reader.passed + reader.phase.withheld, reader.phase.pageEnd, Idle)
    case Abandon => reader.(phase := Idle)
    case Write(_) => reader
  }

  function Advance(view: View, step: Step, filter: DeltaFilter, sizes: Sizes): View {
    match step
    case Write(op) => view.(core := Perform(view.core, op))
    case _ =>
      view.(reader := Proceed(view.core.store.rows, view.core.counter, view.reader, step, filter, sizes))
  }

  const NEW_READER := Reader(map[], map[], 0, Idle)

  function Run(steps: seq<Step>, filter: DeltaFilter, sizes: Sizes): View {
    if steps == [] then View(FRESH_ACCOUNT, NEW_READER)
    else Advance(Run(steps[..|steps| - 1], filter, sizes), steps[|steps| - 1], filter, sizes)
  }

  // ------------------------------------------------------------------ what the cursor covers

  ghost predicate Has(local: Rows, rows: Rows, key: Key)
    requires key in rows
  {
    key in local && local[key] == rows[key]
  }

  /** Every row stored at or below the cursor was told, or passed over, as it is stored now. */
  ghost predicate Covered(rows: Rows, reader: Reader) {
    forall key :: key in rows && rows[key].changeSeq <= reader.cursor ==>
      Has(reader.told, rows, key) || Has(reader.passed, rows, key)
  }

  /** A row of either half of an answer that is still stored at or below its end is stored as it was read. */
  ghost predicate Faithful(rows: Rows, pageEnd: nat, half: Rows) {
    forall key :: key in rows && key in half && rows[key].changeSeq <= pageEnd ==> half[key] == rows[key]
  }

  ghost predicate AnswerCovers(rows: Rows, cursor: nat, phase: Phase)
    requires phase.Answered?
  {
    && Faithful(rows, phase.pageEnd, phase.page) && Faithful(rows, phase.pageEnd, phase.withheld)
    && forall key :: key in rows && cursor < rows[key].changeSeq <= phase.pageEnd ==>
         key in phase.page || key in phase.withheld
  }

  ghost predicate ReadSoFar(core: Core, reader: Reader) {
    && reader.cursor <= core.counter && Covered(core.store.rows, reader)
    && match reader.phase
       case Idle => true
       case Counted(_, upper) => reader.cursor <= upper <= core.counter
       case Bounded(pageEnd) => reader.cursor <= pageEnd <= core.counter
       case Answered(pageEnd, _, _) =>
         reader.cursor <= pageEnd <= core.counter && AnswerCovers(core.store.rows, reader.cursor, reader.phase)
  }

  lemma WritingKeepsRead(before: Core, after: Core, reader: Reader)
    requires Replica.Stamped(before, after) && ReadSoFar(before, reader)
    ensures ReadSoFar(after, reader)
  {
    var rows, next := before.store.rows, after.store.rows;
    assert forall key :: key in next && next[key].changeSeq <= before.counter ==> key in rows && rows[key] == next[key];
    hide Replica.Stamped;
  }

  /** Between them the two halves of a read are the whole range. */
  lemma ARangeIsReadOrWithheld(rows: Rows, filter: DeltaFilter, cursor: nat, pageEnd: nat)
    requires !filter.treeOnly
    ensures var page, withheld := Window(rows, filter, cursor, pageEnd), Withheld(rows, filter, cursor, pageEnd);
            && Faithful(rows, pageEnd, page) && Faithful(rows, pageEnd, withheld)
            && forall key :: key in rows && cursor < rows[key].changeSeq <= pageEnd ==> key in page || key in withheld
  {
    hide Skipped;
  }

  lemma AnEmptyRangeIsWithheld(rows: Rows, filter: DeltaFilter, cursor: nat, upper: nat)
    requires !filter.treeOnly && (cursor >= upper || Window(rows, filter, cursor, upper) == map[])
    ensures Faithful(rows, upper, Withheld(rows, filter, cursor, upper))
    ensures forall key :: key in rows && cursor < rows[key].changeSeq <= upper ==>
              key in Withheld(rows, filter, cursor, upper)
  {
    ARangeIsReadOrWithheld(rows, filter, cursor, upper);
    hide Window, Withheld;
  }

  lemma ApplyingKeepsRead(core: Core, reader: Reader)
    requires ReadSoFar(core, reader) && reader.phase.Answered?
    ensures ReadSoFar(core, Reader(reader.told + reader.phase.page, reader.passed + reader.phase.withheld,
                                   reader.phase.pageEnd, Idle))
  {
  }

  lemma BoundingKeepsRead(core: Core, reader: Reader, filter: DeltaFilter, sizes: Sizes)
    requires ReadSoFar(core, reader) && !filter.treeOnly && reader.phase.Counted?
    ensures ReadSoFar(core, Proceed(core.store.rows, core.counter, reader, ReadBoundary, filter, sizes))
  {
    var rows, upper := core.store.rows, reader.phase.upper;
    BoundaryIsInside(rows, Query(reader.cursor, reader.phase.limit, filter), upper, sizes);
    if reader.cursor >= upper || Window(rows, filter, reader.cursor, upper) == map[] {
      AnEmptyRangeIsWithheld(rows, filter, reader.cursor, upper);
    }
    hide BoundaryOf, Window, Withheld, Covered, Faithful;
    assert AnswerCovers(rows, reader.cursor, Answered(upper, map[], Withheld(rows, filter, reader.cursor, upper))) ||
           (reader.cursor < upper && Window(rows, filter, reader.cursor, upper) != map[]) by {
      NothingIsFaithful(rows, upper);
    }
    hide AnswerCovers;
  }

  lemma NothingIsFaithful(rows: Rows, pageEnd: nat)
    ensures Faithful(rows, pageEnd, map[])
  {
  }

  lemma ProceedingKeepsRead(core: Core, reader: Reader, step: Step, filter: DeltaFilter, sizes: Sizes)
    requires ReadSoFar(core, reader) && !filter.treeOnly
    ensures ReadSoFar(core, Proceed(core.store.rows, core.counter, reader, step, filter, sizes))
  {
    var rows := core.store.rows;
    if step.ReadBoundary? && reader.phase.Counted? {
      BoundingKeepsRead(core, reader, filter, sizes);
      hide ReadSoFar, Proceed;
    } else if step.ReadRows? && reader.phase.Bounded? {
      ARangeIsReadOrWithheld(rows, filter, reader.cursor, reader.phase.pageEnd);
      hide Window, Withheld, Covered, Faithful;
    } else if step.Apply? && reader.phase.Answered? {
      ApplyingKeepsRead(core, reader);
      hide ReadSoFar;
    } else {
      hide Covered, AnswerCovers;
    }
  }

  lemma AdvanceKeepsRead(view: View, step: Step, filter: DeltaFilter, sizes: Sizes)
    requires Sound(view.core) && ReadSoFar(view.core, view.reader) && !filter.treeOnly
    ensures var after := Advance(view, step, filter, sizes);
            Sound(after.core) && ReadSoFar(after.core, after.reader)
  {
    hide Sound, ReadSoFar, Perform, Proceed, Replica.Stamped;
    if step.Write? {
      Replica.PerformStamps(view.core, step.op);
      PerformKeepsSound(view.core, step.op);
      WritingKeepsRead(view.core, Perform(view.core, step.op), view.reader);
    } else {
      ProceedingKeepsRead(view.core, view.reader, step, filter, sizes);
    }
  }

  lemma {:induction false} EveryRunReads(steps: seq<Step>, filter: DeltaFilter, sizes: Sizes)
    requires !filter.treeOnly
    ensures var view := Run(steps, filter, sizes); Sound(view.core) && ReadSoFar(view.core, view.reader)
  {
    if steps != [] {
      hide Sound, ReadSoFar, Advance;
      EveryRunReads(steps[..|steps| - 1], filter, sizes);
      AdvanceKeepsRead(Run(steps[..|steps| - 1], filter, sizes), steps[|steps| - 1], filter, sizes);
    }
  }

  // ------------------------------------------------------------------ what was passed over was skipped

  ghost predicate SkippedIn(view: View, filter: DeltaFilter, key: Key, row: Row) {
    var rows := view.core.store.rows;
    key in rows && rows[key] == row && Skipped(rows, filter, key)
  }

  /** At some state of the run this row was stored beneath a skipped notebook. */
  ghost predicate WasSkipped(steps: seq<Step>, filter: DeltaFilter, sizes: Sizes, key: Key, row: Row) {
    exists k :: 0 <= k <= |steps| && SkippedIn(Run(steps[..k], filter, sizes), filter, key, row)
  }

  lemma WasSkippedBefore(steps: seq<Step>, filter: DeltaFilter, sizes: Sizes, key: Key, row: Row)
    requires steps != []
    requires var prefix := steps[..|steps| - 1];
             || WasSkipped(prefix, filter, sizes, key, row)
             || SkippedIn(Run(prefix, filter, sizes), filter, key, row)
    ensures WasSkipped(steps, filter, sizes, key, row)
  {
    hide Run, SkippedIn;
    var n := |steps| - 1;
    if WasSkipped(steps[..n], filter, sizes, key, row) {
      var k :| 0 <= k <= n && SkippedIn(Run(steps[..n][..k], filter, sizes), filter, key, row);
      assert steps[..n][..k] == steps[..k];
    }
  }

  /** What a reader has passed over, and what its answer in hand is about to make it pass over. */
  function PassedOrPassing(reader: Reader): Rows {
    if reader.phase.Answered? then reader.passed + reader.phase.withheld else reader.passed
  }

  /** A step passes over nothing new but what it finds skipped. */
  lemma PassingByOneStep(view: View, step: Step, filter: DeltaFilter, sizes: Sizes, key: Key)
    ensures var next := Advance(view, step, filter, sizes).reader;
            && (key in next.passed ==>
                  || (key in view.reader.passed && view.reader.passed[key] == next.passed[key])
                  || (key in PassedOrPassing(view.reader) && PassedOrPassing(view.reader)[key] == next.passed[key]))
            && (key in PassedOrPassing(next) ==>
                  || (key in view.reader.passed && view.reader.passed[key] == PassedOrPassing(next)[key])
                  || (key in PassedOrPassing(view.reader) &&
                      PassedOrPassing(view.reader)[key] == PassedOrPassing(next)[key])
                  || SkippedIn(view, filter, key, PassedOrPassing(next)[key]))
  {
    hide Perform, BoundaryOf, Window, Skipped, PageEnd;
  }

  /** What was passed over was beneath a skipped notebook when it was. */
  lemma {:induction false} PassedWasSkipped(steps: seq<Step>, filter: DeltaFilter, sizes: Sizes, key: Key)
    ensures var reader := Run(steps, filter, sizes).reader;
            && (key in reader.passed ==> WasSkipped(steps, filter, sizes, key, reader.passed[key]))
            && (key in PassedOrPassing(reader) ==> WasSkipped(steps, filter, sizes, key, PassedOrPassing(reader)[key]))
  {
    if steps != [] {
      var prefix, step := steps[..|steps| - 1], steps[|steps| - 1];
      PassedWasSkipped(prefix, filter, sizes, key);
      PassingByOneStep(Run(prefix, filter, sizes), step, filter, sizes, key);
      hide Advance, SkippedIn, WasSkipped, PassedOrPassing;
      var before := Run(prefix, filter, sizes);
      forall row | WasSkipped(prefix, filter, sizes, key, row) || SkippedIn(before, filter, key, row)
        ensures WasSkipped(steps, filter, sizes, key, row)
      {
        WasSkippedBefore(steps, filter, sizes, key, row);
      }
    }
  }

  /**
   The cursor of a client that leaves notebooks out covers what was left out and nothing more: in every
   run, whatever commits between its reads, a row stored at or below it was told, as it is stored now, or
   was in that form beneath a skipped notebook at some state of the run.
   */
  lemma TheCursorCoversWhatWasSkipped(steps: seq<Step>, filter: DeltaFilter, sizes: Sizes, key: Key)
    requires !filter.treeOnly
    ensures var view := Run(steps, filter, sizes);
            var rows := view.core.store.rows;
            key in rows && rows[key].changeSeq <= view.reader.cursor && !Has(view.reader.told, rows, key) ==>
              WasSkipped(steps, filter, sizes, key, rows[key])
  {
    EveryRunReads(steps, filter, sizes);
    PassedWasSkipped(steps, filter, sizes, key);
    hide Run, Sound, AnswerCovers, WasSkipped;
  }

  // ------------------------------------------------------------------ what it misses

  /** Every row at or below the cursor that is not beneath a skipped notebook now was told as it is stored. */
  ghost predicate Complete(view: View, filter: DeltaFilter) {
    var rows := view.core.store.rows;
    forall key :: key in rows && rows[key].changeSeq <= view.reader.cursor && !Skipped(rows, filter, key) ==>
      Has(view.reader.told, rows, key)
  }

  /** A write that brings out a row already passed over, or an answer applied after one brought out its own. */
  ghost predicate BringsOut(view: View, step: Step, filter: DeltaFilter) {
    var rows := view.core.store.rows;
    match step
    case Write(op) =>
      var after := Perform(view.core, op).store.rows;
      exists key :: key in rows && rows[key].changeSeq <= view.reader.cursor && Skipped(rows, filter, key)
                    && key in after && after[key] == rows[key] && !Skipped(after, filter, key)
                    && !Has(view.reader.told, rows, key)
    case Apply =>
      view.reader.phase.Answered? &&
      exists key :: key in rows && view.reader.cursor < rows[key].changeSeq <= view.reader.phase.pageEnd
                    && !Skipped(rows, filter, key) && !Has(view.reader.told + view.reader.phase.page, rows, key)
    case _ => false
  }

  lemma WritingIsExact(view: View, op: Op, filter: DeltaFilter)
    requires ReadSoFar(view.core, view.reader) && Complete(view, filter)
    requires Replica.Stamped(view.core, Perform(view.core, op))
    ensures Complete(view.(core := Perform(view.core, op)), filter) <==> !BringsOut(view, Write(op), filter)
  {
    var rows, after := view.core.store.rows, Perform(view.core, op).store.rows;
    hide Perform, AnswerCovers, Covered, Skipped;
    if key :| key in rows && rows[key].changeSeq <= view.reader.cursor && Skipped(rows, filter, key)
              && key in after && after[key] == rows[key] && !Skipped(after, filter, key)
              && !Has(view.reader.told, rows, key)
    {
      assert !Has(view.reader.told, after, key);
    }
  }

  lemma ApplyingIsExact(view: View, filter: DeltaFilter, sizes: Sizes)
    requires ReadSoFar(view.core, view.reader) && Complete(view, filter)
    ensures Complete(Advance(view, Apply, filter, sizes), filter) <==> !BringsOut(view, Apply, filter)
  {
    hide Covered, Skipped;
  }

  /** From a state in which nothing is missing, a step misses something if and only if it brings it out. */
  lemma RowsAreMissedExactlyByComingOut(view: View, step: Step, filter: DeltaFilter, sizes: Sizes)
    requires Sound(view.core) && ReadSoFar(view.core, view.reader) && Complete(view, filter)
    ensures Complete(Advance(view, step, filter, sizes), filter) <==> !BringsOut(view, step, filter)
  {
    if step.Write? {
      Replica.PerformStamps(view.core, step.op);
      WritingIsExact(view, step.op, filter);
      hide Sound, ReadSoFar, Complete, BringsOut, Perform;
    } else if step.Apply? {
      ApplyingIsExact(view, filter, sizes);
      hide Sound, ReadSoFar, Complete, BringsOut, Advance;
    } else {
      hide Sound, ReadSoFar, Skipped, BoundaryOf, Window, Withheld;
    }
  }

  ghost predicate CompleteThroughout(steps: seq<Step>, filter: DeltaFilter, sizes: Sizes) {
    forall k :: 0 <= k <= |steps| ==> Complete(Run(steps[..k], filter, sizes), filter)
  }

  ghost predicate NothingComesOut(steps: seq<Step>, filter: DeltaFilter, sizes: Sizes) {
    forall k :: 0 <= k < |steps| ==> !BringsOut(Run(steps[..k], filter, sizes), steps[k], filter)
  }

  lemma OneMoreStep(steps: seq<Step>, filter: DeltaFilter, sizes: Sizes, k: nat)
    requires k < |steps|
    ensures Run(steps[..k + 1], filter, sizes) == Advance(Run(steps[..k], filter, sizes), steps[k], filter, sizes)
  {
    hide Advance;
    assert steps[..k + 1][..k] == steps[..k];
  }

  lemma StartingComplete(steps: seq<Step>, filter: DeltaFilter, sizes: Sizes)
    ensures Complete(Run(steps[..0], filter, sizes), filter)
  {
  }

  lemma {:induction false} CompletenessReaches(steps: seq<Step>, filter: DeltaFilter, sizes: Sizes, k: nat)
    requires !filter.treeOnly && k <= |steps| && NothingComesOut(steps, filter, sizes)
    ensures Complete(Run(steps[..k], filter, sizes), filter)
  {
    hide Sound, ReadSoFar, Complete, BringsOut, Advance, Run;
    if k == 0 {
      StartingComplete(steps, filter, sizes);
    } else {
      CompletenessReaches(steps, filter, sizes, k - 1);
      EveryRunReads(steps[..k - 1], filter, sizes);
      OneMoreStep(steps, filter, sizes, k - 1);
      RowsAreMissedExactlyByComingOut(Run(steps[..k - 1], filter, sizes), steps[k - 1], filter, sizes);
    }
  }

  /**
   Over whole runs: a client that leaves notebooks out has been told, throughout, of everything at or below
   its cursor that is not beneath one now, if and only if no row it passed over is brought out.
   */
  lemma NothingIsMissedUnlessItComesOut(steps: seq<Step>, filter: DeltaFilter, sizes: Sizes)
    requires !filter.treeOnly
    ensures CompleteThroughout(steps, filter, sizes) <==> NothingComesOut(steps, filter, sizes)
  {
    hide Sound, ReadSoFar, Complete, BringsOut, Advance, Run;
    if NothingComesOut(steps, filter, sizes) {
      forall k | 0 <= k <= |steps|
        ensures Complete(Run(steps[..k], filter, sizes), filter)
      {
        CompletenessReaches(steps, filter, sizes, k);
      }
    } else if CompleteThroughout(steps, filter, sizes) {
      forall k | 0 <= k < |steps|
        ensures !BringsOut(Run(steps[..k], filter, sizes), steps[k], filter)
      {
        EveryRunReads(steps[..k], filter, sizes);
        OneMoreStep(steps, filter, sizes, k);
        RowsAreMissedExactlyByComingOut(Run(steps[..k], filter, sizes), steps[k], filter, sizes);
      }
    }
  }
}
