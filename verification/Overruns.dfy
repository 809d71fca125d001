/**
 What commits between a pull's boundary read and its row read can do to the page. A window only loses
 rows unless a page leaves a skipped notebook, the overrun check is safe exactly as long as no such
 latecomer shares its page with another sequence value, and a page is left with nothing exactly when
 everything it was measured on has moved on.
 */
module Overruns {
  import opened Tables
  import opened Delta
  import opened Pull

  // ------------------------------------------------------------------ when a window only shrinks

  ghost predicate Inside(earlier: Rows, later: Rows, query: Query, upper: nat) {
    forall key :: key in Window(later, query.filter, query.since, upper) ==>
      key in Window(earlier, query.filter, query.since, upper) && earlier[key] == later[key]
  }

  /** No row of the range has come out of a skipped notebook in between. */
  ghost predicate StaySkipped(earlier: Rows, later: Rows, query: Query, upper: nat) {
    forall key ::
      key in later && key in earlier && query.since < later[key].changeSeq <= upper ==>
        Skipped(earlier, query.filter, key) ==> Skipped(later, query.filter, key)
  }

  /** Commits take rows out of a window and bring none in, if and only if what was skipped stays skipped. */
  lemma AWindowShrinksUnlessUnskipped(earlier: Rows, later: Rows, query: Query, upper: nat)
    requires OnlyLeft(earlier, later, upper)
    ensures Inside(earlier, later, query, upper) <==> StaySkipped(earlier, later, query, upper)
  {
    if Inside(earlier, later, query, upper) {
      forall key | key in later && key in earlier && query.since < later[key].changeSeq <= upper &&
                   Skipped(earlier, query.filter, key)
        ensures Skipped(later, query.filter, key)
      {
        assert key !in Window(earlier, query.filter, query.since, upper);
      }
    }
    hide Skipped;
  }

  /** Whole and tree reads skip nothing, so for them it always holds. */
  lemma NothingSkippedStaysSkipped(earlier: Rows, later: Rows, query: Query, upper: nat)
    requires !ShapeOf(query.filter).SkippingNotebooks?
    ensures StaySkipped(earlier, later, query, upper)
  {
  }

  /** The overrun check for every shape of read, from the commits in between alone. */
  lemma APageOfWhatStaysSkippedNeverOverruns(upper: nat, atBoundary: Rows, atRead: Rows, query: Query, sizes: Sizes)
    requires Estimated(sizes) && OnlyLeft(atBoundary, atRead, upper) && StaySkipped(atBoundary, atRead, query, upper)
    ensures SelectChangePage(upper, atBoundary, atRead, query, sizes).Ok?
  {
    AWindowShrinksUnlessUnskipped(atBoundary, atRead, query, upper);
    hide SelectChangePage, Window, StaySkipped, OnlyLeft;
    TheOverrunCheckNeverFails(upper, atBoundary, atRead, query, sizes);
  }

  // ------------------------------------------------------------------ weights and boundaries

  lemma {:induction false} LighterRunsLighter(entries: seq<Entry>, seqValue: nat, light: Entry -> nat,
                                              heavy: Entry -> nat)
    requires forall i :: 0 <= i < |entries| ==> light(entries[i]) <= heavy(entries[i])
    ensures WeightThrough(entries, seqValue, light) <= WeightThrough(entries, seqValue, heavy)
  {
    if entries != [] {
      LighterRunsLighter(entries[..|entries| - 1], seqValue, light, heavy);
    }
  }

  /** Lighter rows end a page no sooner. */
  lemma LighterEndsNoSooner(entries: seq<Entry>, rowLimit: nat, byteBudget: nat, light: Entry -> nat,
                            heavy: Entry -> nat)
    requires Ordered(entries)
    requires forall i :: 0 <= i < |entries| ==> light(entries[i]) <= heavy(entries[i])
    ensures var early, late := Cutoff(entries, rowLimit, byteBudget, heavy),
              Cutoff(entries, rowLimit, byteBudget, light);
            && early.empty == late.empty && early.sequence <= late.sequence && (early.complete ==> late.complete)
  {
    OrderedRises(entries);
    LargestFittingIsLargest(entries, |entries|, rowLimit, byteBudget, light);
    LargestFittingIsLargest(entries, |entries|, rowLimit, byteBudget, heavy);
    hide LargestFitting, CountThrough, WeightThrough, Ordered;
    forall seqValue
      ensures Fits(entries, seqValue, rowLimit, byteBudget, heavy) ==>
                Fits(entries, seqValue, rowLimit, byteBudget, light)
    {
      LighterRunsLighter(entries, seqValue, light, heavy);
    }
    hide Fits;
  }

  const WEIGHTLESS := Sizes((entry: Entry) => 0, (entry: Entry) => 0)

  /** The furthest a page can reach: its end by the row limit alone. */
  function FurthestEnd(atBoundary: Rows, query: Query, upper: nat): nat {
    PageEnd(BoundaryOf(atBoundary, query, upper, WEIGHTLESS), upper)
  }

  lemma NoPageReachesFurther(atBoundary: Rows, query: Query, upper: nat, sizes: Sizes)
    ensures var cutoff := BoundaryOf(atBoundary, query, upper, sizes);
            && cutoff.empty == BoundaryOf(atBoundary, query, upper, WEIGHTLESS).empty
            && (!cutoff.empty ==> PageEnd(cutoff, upper) <= FurthestEnd(atBoundary, query, upper) <= upper)
  {
    BoundaryIsInside(atBoundary, query, upper, sizes);
    BoundaryIsInside(atBoundary, query, upper, WEIGHTLESS);
    var window := Window(atBoundary, query.filter, query.since, upper);
    ListingLists(window);
    hide Cutoff, Listing, Window, Ordered;
    LighterEndsNoSooner(Listing(window), query.limit, MAX_DELTA_BYTES, WEIGHTLESS.weigh, sizes.weigh);
  }

  /** What weighs nothing on the window read first leaves the boundary where the row limit puts it. */
  lemma OnlyTheWindowWeighs(atBoundary: Rows, query: Query, upper: nat, sizes: Sizes)
    requires forall key :: key in Window(atBoundary, query.filter, query.since, upper) ==>
               sizes.weigh(Entry(key, atBoundary[key])) == 0
    ensures var cutoff := BoundaryOf(atBoundary, query, upper, sizes);
            && cutoff.empty == BoundaryOf(atBoundary, query, upper, WEIGHTLESS).empty
            && (!cutoff.empty ==> PageEnd(cutoff, upper) == FurthestEnd(atBoundary, query, upper))
  {
    var window := Window(atBoundary, query.filter, query.since, upper);
    var entries := Listing(window);
    ListingLists(window);
    forall i | 0 <= i < |entries|
      ensures sizes.weigh(entries[i]) == 0
    {
      ListedRow(window, entries, i);
      assert entries[i] == Entry(entries[i].key, atBoundary[entries[i].key]);
    }
    hide Cutoff, Listing, Window, Ordered;
    LighterEndsNoSooner(entries, query.limit, MAX_DELTA_BYTES, WEIGHTLESS.weigh, sizes.weigh);
    LighterEndsNoSooner(entries, query.limit, MAX_DELTA_BYTES, sizes.weigh, WEIGHTLESS.weigh);
    NoPageReachesFurther(atBoundary, query, upper, sizes);
  }

  // ------------------------------------------------------------------ when the check can fail

  /** A latecomer, and a row of another sequence value on the furthest page it could be on. */
  ghost predicate Intrudes(upper: nat, atBoundary: Rows, atRead: Rows, query: Query, key: Key, other: Key) {
    var page := Window(atRead, query.filter, query.since, FurthestEnd(atBoundary, query, upper));
    && key in page && other in page && page[key].changeSeq != page[other].changeSeq
    && key !in Window(atBoundary, query.filter, query.since, upper)
  }

  ghost predicate CanIntrude(upper: nat, atBoundary: Rows, atRead: Rows, query: Query) {
    && query.since < upper && !BoundaryOf(atBoundary, query, upper, WEIGHTLESS).empty
    && exists key, other :: Intrudes(upper, atBoundary, atRead, query, key, other)
  }

  lemma {:induction false} ListedWeighs(entries: seq<Entry>, i: nat, weigh: Entry -> nat)
    requires i < |entries|
    ensures weigh(entries[i]) <= TotalWeight(entries, weigh)
  {
    if i < |entries| - 1 {
      ListedWeighs(entries[..|entries| - 1], i, weigh);
    }
  }

  lemma TwoSequencesShow(table: Rows, delta: seq<Entry>, key: Key, other: Key)
    requires Lists(table, delta) && key in table && other in table && table[key].changeSeq != table[other].changeSeq
    ensures delta != [] && delta[0].row.changeSeq != delta[|delta| - 1].row.changeSeq
  {
    ListedInOrder(table, delta);
    hide Ordered;
    var i :| 0 <= i < |delta| && delta[i].key == key;
    var j :| 0 <= j < |delta| && delta[j].key == other;
    assert delta[i].row == table[key] && delta[j].row == table[other];
    hide Lists;
    assert delta[0].row.changeSeq <= delta[i].row.changeSeq <= delta[|delta| - 1].row.changeSeq;
    assert delta[0].row.changeSeq <= delta[j].row.changeSeq <= delta[|delta| - 1].row.changeSeq;
  }

  lemma OneRowWeighs(table: Rows, delta: seq<Entry>, key: Key, render: Entry -> nat)
    requires Lists(table, delta) && key in table
    ensures render(Entry(key, table[key])) <= TotalWeight(delta, render)
  {
    hide Ordered;
    var i :| 0 <= i < |delta| && delta[i].key == key;
    assert delta[i] == Entry(key, table[key]);
    hide Lists, TotalWeight;
    ListedWeighs(delta, i, render);
  }

  /** A page of two sequence values that holds one row past the ceiling is over it. */
  lemma AHeavyRowOverruns(table: Rows, key: Key, other: Key, render: Entry -> nat)
    requires key in table && other in table && table[key].changeSeq != table[other].changeSeq
    requires render(Entry(key, table[key])) > MAX_DELTA_BYTES * DELTA_BYTES_OVERRUN_FACTOR
    ensures !WithinBudget(Listing(table), TotalWeight(Listing(table), render))
  {
    ListingLists(table);
    hide Listing, Lists, TotalWeight;
    TwoSequencesShow(table, Listing(table), key, other);
    OneRowWeighs(table, Listing(table), key, render);
  }

  function HeavyAt(key: Key): Entry -> nat {
    (entry: Entry) => if entry.key == key then MAX_DELTA_BYTES * DELTA_BYTES_OVERRUN_FACTOR + 1 else 0
  }

  lemma AnIntruderOverruns(upper: nat, atBoundary: Rows, atRead: Rows, query: Query, key: Key, other: Key)
    requires query.since < upper && !BoundaryOf(atBoundary, query, upper, WEIGHTLESS).empty
    requires Intrudes(upper, atBoundary, atRead, query, key, other)
    ensures Estimated(Sizes(HeavyAt(key), HeavyAt(key)))
    ensures SelectChangePage(upper, atBoundary, atRead, query, Sizes(HeavyAt(key), HeavyAt(key))).Err?
  {
    var sizes := Sizes(HeavyAt(key), HeavyAt(key));
    OnlyTheWindowWeighs(atBoundary, query, upper, sizes);
    var page := Window(atRead, query.filter, query.since, FurthestEnd(atBoundary, query, upper));
    assert page[key] == atRead[key];
    AHeavyRowOverruns(page, key, other, sizes.render);
    hide BoundaryOf, Window, Listing, WithinBudget, TotalWeight, FurthestEnd;
  }

  /** Without an intruder the page is either inside the window it was measured on, or one sequence value. */
  lemma WithoutIntrudersNothingOverruns(upper: nat, atBoundary: Rows, atRead: Rows, query: Query, sizes: Sizes)
    requires OnlyLeft(atBoundary, atRead, upper) && Estimated(sizes) && !CanIntrude(upper, atBoundary, atRead, query)
    ensures SelectChangePage(upper, atBoundary, atRead, query, sizes).Ok?
  {
    var cutoff := BoundaryOf(atBoundary, query, upper, sizes);
    NoPageReachesFurther(atBoundary, query, upper, sizes);
    BoundaryIsInside(atBoundary, query, upper, sizes);
    if query.since < upper && !cutoff.empty {
      var pageEnd := PageEnd(cutoff, upper);
      var window, page := Window(atBoundary, query.filter, query.since, upper),
          Window(atRead, query.filter, query.since, pageEnd);
      if forall key :: key in page ==> key in window {
        APageWithinItsWindow(window, page, atBoundary, atRead, query, upper, sizes);
      } else {
        var key :| key in page && key !in window;
        forall other | other in page
          ensures page[other].changeSeq == page[key].changeSeq
        {
          PageReachesIn(atRead, query, pageEnd, FurthestEnd(atBoundary, query, upper));
          assert !Intrudes(upper, atBoundary, atRead, query, key, other);
        }
        AloneIsExempt(page, page[key].changeSeq, sizes);
      }
    }
    hide BoundaryOf, Window, Listing, WithinBudget, TotalWeight, FurthestEnd, CanIntrude, OnlyLeft;
  }

  lemma PageReachesIn(rows: Rows, query: Query, nearer: nat, further: nat)
    requires nearer <= further
    ensures forall key :: key in Window(rows, query.filter, query.since, nearer) ==>
              key in Window(rows, query.filter, query.since, further)
  {
  }

  lemma APageWithinItsWindow(window: Rows, page: Rows, atBoundary: Rows, atRead: Rows, query: Query, upper: nat,
                             sizes: Sizes)
    requires OnlyLeft(atBoundary, atRead, upper) && Estimated(sizes)
    requires window == Window(atBoundary, query.filter, query.since, upper)
    requires !BoundaryOf(atBoundary, query, upper, sizes).empty
    requires var pageEnd := PageEnd(BoundaryOf(atBoundary, query, upper, sizes), upper);
             pageEnd <= upper && page == Window(atRead, query.filter, query.since, pageEnd)
    requires forall key :: key in page ==> key in window
    ensures WithinBudget(Listing(page), TotalWeight(Listing(page), sizes.render))
  {
    hide Cutoff, Listing, WithinBudget, TotalWeight, Skipped;
    assert forall key :: key in page ==> window[key] == page[key];
    APageKeepsToTheCeiling(window, page, query.limit, sizes);
  }

  lemma AloneIsExempt(page: Rows, seqValue: nat, sizes: Sizes)
    requires forall key :: key in page ==> page[key].changeSeq == seqValue
    ensures WithinBudget(Listing(page), TotalWeight(Listing(page), sizes.render))
  {
    var delta := Listing(page);
    ListingLists(page);
    hide Listing;
    if delta != [] {
      ListedRow(page, delta, 0);
      ListedRow(page, delta, |delta| - 1);
    }
    hide Lists;
  }

  /**
   The overrun check, exactly. Whatever commits between the reads: it passes for every estimate no
   further out than the factor if and only if nothing can intrude.
   */
  lemma TheCheckIsSafeExactlyWithoutIntruders(upper: nat, atBoundary: Rows, atRead: Rows, query: Query)
    requires OnlyLeft(atBoundary, atRead, upper)
    ensures (forall sizes :: Estimated(sizes) ==> SelectChangePage(upper, atBoundary, atRead, query, sizes).Ok?) <==>
            !CanIntrude(upper, atBoundary, atRead, query)
  {
    hide SelectChangePage, BoundaryOf, OnlyLeft;
    if CanIntrude(upper, atBoundary, atRead, query) {
      var key, other :| Intrudes(upper, atBoundary, atRead, query, key, other);
      hide Intrudes, Estimated;
      AnIntruderOverruns(upper, atBoundary, atRead, query, key, other);
    } else {
      hide CanIntrude, Estimated;
      forall sizes | Estimated(sizes)
        ensures SelectChangePage(upper, atBoundary, atRead, query, sizes).Ok?
      {
        WithoutIntrudersNothingOverruns(upper, atBoundary, atRead, query, sizes);
      }
    }
  }

  // ------------------------------------------------------------------ when nothing is left of a page

  /** Every row the page was measured on is rewritten, gone, or beneath a skipped notebook. */
  ghost predicate Vacated(atBoundary: Rows, atRead: Rows, query: Query, pageEnd: nat) {
    forall key ::
      && key in atBoundary && Reads(ShapeOf(query.filter), key.kind)
      && query.since < atBoundary[key].changeSeq <= pageEnd ==>
        key !in atRead || atRead[key] != atBoundary[key] || Skipped(atRead, query.filter, key)
  }

  lemma NothingIsLeftOfIt(atBoundary: Rows, atRead: Rows, query: Query, pageEnd: nat)
    requires OnlyLeft(atBoundary, atRead, pageEnd)
    ensures Vacated(atBoundary, atRead, query, pageEnd) <==>
            Window(atRead, query.filter, query.since, pageEnd) == map[]
  {
    if !Vacated(atBoundary, atRead, query, pageEnd) {
      var key :| && key in atBoundary && Reads(ShapeOf(query.filter), key.kind)
                 && query.since < atBoundary[key].changeSeq <= pageEnd
                 && key in atRead && atRead[key] == atBoundary[key] && !Skipped(atRead, query.filter, key);
      assert key in Window(atRead, query.filter, query.since, pageEnd);
    }
    hide Skipped;
  }

  /**
   When a page carries no change and still promises more, whatever commits between the reads and for every
   shape of read: exactly when it ends short of the counter and every row it was measured on has since been
   rewritten, erased or moved beneath a skipped notebook.
   */
  lemma AnEmptyPageWithMoreToCome(upper: nat, atBoundary: Rows, atRead: Rows, query: Query, sizes: Sizes)
    requires OnlyLeft(atBoundary, atRead, upper)
    ensures var result, cutoff := SelectChangePage(upper, atBoundary, atRead, query, sizes),
              BoundaryOf(atBoundary, query, upper, sizes);
            result.Ok? && result.value.changes == [] && result.value.hasMore <==>
            && query.since < upper && !cutoff.empty && PageEnd(cutoff, upper) < upper
            && Vacated(atBoundary, atRead, query, PageEnd(cutoff, upper))
  {
    var cutoff := BoundaryOf(atBoundary, query, upper, sizes);
    BoundaryIsInside(atBoundary, query, upper, sizes);
    var pageEnd := PageEnd(cutoff, upper);
    if query.since < upper && !cutoff.empty {
      assert OnlyLeft(atBoundary, atRead, pageEnd);
      NothingIsLeftOfIt(atBoundary, atRead, query, pageEnd);
      var window := Window(atRead, query.filter, query.since, pageEnd);
      ListingLists(window);
      EmptyListing(window, Listing(window));
    }
    hide BoundaryOf, Window, Listing, TotalWeight, Vacated, OnlyLeft;
  }

  /** With the gravestones of its window: the whole answer is empty if besides no purge falls in it. */
  lemma AnEmptyAnswerWithMoreToCome(upper: nat, atBoundary: Rows, atRead: Rows, purgesLast: map<Key, nat>, query: Query,
                                    sizes: Sizes)
    requires OnlyLeft(atBoundary, atRead, upper)
    ensures var result, cutoff := PullFiltered(upper, atBoundary, atRead, purgesLast, query, sizes),
              BoundaryOf(atBoundary, query, upper, sizes);
            result.Ok? && result.value.changes == [] && result.value.purges == map[] && result.value.hasMore <==>
            && query.since < upper && !cutoff.empty && PageEnd(cutoff, upper) < upper
            && Vacated(atBoundary, atRead, query, PageEnd(cutoff, upper))
            && (query.filter.treeOnly ||
                forall key :: key in purgesLast ==> !(query.since < purgesLast[key] <= PageEnd(cutoff, upper)))
  {
    AnEmptyPageWithMoreToCome(upper, atBoundary, atRead, query, sizes);
    var page := SelectChangePage(upper, atBoundary, atRead, query, sizes);
    if page.Ok? && page.value.hasMore {
      ItEndsAtTheBoundary(upper, atBoundary, atRead, query, sizes);
      PurgesFallIn(purgesLast, query.since, page.value.cursor);
    }
    hide SelectChangePage, BoundaryOf, Vacated, OnlyLeft, PurgeWindow;
  }

  lemma ItEndsAtTheBoundary(upper: nat, atBoundary: Rows, atRead: Rows, query: Query, sizes: Sizes)
    ensures var result := SelectChangePage(upper, atBoundary, atRead, query, sizes);
            result.Ok? && result.value.hasMore ==>
              result.value.cursor == PageEnd(BoundaryOf(atBoundary, query, upper, sizes), upper)
  {
    hide BoundaryOf, Window, Listing, TotalWeight, WithinBudget;
  }

  lemma PurgesFallIn(purges: map<Key, nat>, since: nat, upper: nat)
    ensures PurgeWindow(purges, since, upper) == map[] <==>
            forall key :: key in purges ==> !(since < purges[key] <= upper)
  {
    forall key | key in purges && since < purges[key] <= upper
      ensures PurgeWindow(purges, since, upper) != map[]
    {
      assert key in PurgeWindow(purges, since, upper);
    }
  }

  /** What whole and tree reads can rely on without a word about the tables in between. */
  lemma WholeAndTreeReadsNeverOverrun(upper: nat, atBoundary: Rows, atRead: Rows, query: Query, sizes: Sizes)
    requires Estimated(sizes) && OnlyLeft(atBoundary, atRead, upper) && !ShapeOf(query.filter).SkippingNotebooks?
    ensures SelectChangePage(upper, atBoundary, atRead, query, sizes).Ok?
  {
    hide SelectChangePage, OnlyLeft, StaySkipped;
    NothingSkippedStaysSkipped(atBoundary, atRead, query, upper);
    APageOfWhatStaysSkippedNeverOverruns(upper, atBoundary, atRead, query, sizes);
  }
}
