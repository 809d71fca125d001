/**
 A pull: four separate reads, each of the tables as they stand at that moment, and the pages that
 following its cursor produces. The stream writer's loop is proved to deliver the whole delta.
 */
module Pull {
  import opened Outcomes
  import opened Tables
  import opened Engine
  import opened Delta

  const MAX_DELTA_BYTES: nat := 8388608
  const DELTA_BYTES_OVERRUN_FACTOR: nat := 4

  /**
   The size estimate the boundary is chosen by, and the size the rendered row turns out to have: each a
   function of kind, id and columns, so of whatever else the tables held of that entity at that read.
   */
  datatype Sizes = Sizes(weigh: Entry -> nat, render: Entry -> nat)

  /** What a caller asks for. */
  datatype Query = Query(since: nat, limit: nat, filter: DeltaFilter)

  datatype ChangePage = ChangePage(changes: seq<Entry>, cursor: nat, hasMore: bool)

  datatype PullResult = PullResult(changes: seq<Entry>, purges: map<Key, nat>, cursor: nat, hasMore: bool)

  datatype Overrun = Overrun(bytesRead: nat)

  /** The second read: where this page ends, from the rows as they were then. */
  function BoundaryOf(rows: Rows, query: Query, upper: nat, sizes: Sizes): DeltaCutoff {
    Cutoff(Listing(Window(rows, query.filter, query.since, upper)), query.limit, MAX_DELTA_BYTES, sizes.weigh)
  }

  function PageEnd(cutoff: DeltaCutoff, upper: nat): nat {
    if cutoff.complete then upper else cutoff.sequence
  }

  predicate WithinBudget(delta: seq<Entry>, bytesRead: nat) {
    || bytesRead <= MAX_DELTA_BYTES * DELTA_BYTES_OVERRUN_FACTOR
    || delta == []
    || delta[0].row.changeSeq == delta[|delta| - 1].row.changeSeq
  }

  /** The delta half of a pull, over the counter and the rows as its three reads found them. */
  function SelectChangePage(upper: nat, atBoundary: Rows, atRead: Rows, query: Query, sizes: Sizes)
    : Result<ChangePage, Overrun>
  {
    if query.since >= upper then Ok(ChangePage([], upper, false))
    else
      var cutoff := BoundaryOf(atBoundary, query, upper, sizes);
      if cutoff.empty then Ok(ChangePage([], upper, false))
      else
        var pageEnd := PageEnd(cutoff, upper);
        var delta := Listing(Window(atRead, query.filter, query.since, pageEnd));
        var bytesRead := TotalWeight(delta, sizes.render);
        if !WithinBudget(delta, bytesRead) then Err(Overrun(bytesRead))
        else Ok(ChangePage(delta, pageEnd, pageEnd < upper))
  }

  /** The gravestones recorded in (since, upper]. */
  function PurgeWindow(purges: map<Key, nat>, since: nat, upper: nat): map<Key, nat> {
    map key | key in purges && since < purges[key] <= upper :: purges[key]
  }

  function PullFiltered(upper: nat, atBoundary: Rows, atRead: Rows, purgesLast: map<Key, nat>, query: Query,
                        sizes: Sizes)
    : Result<PullResult, Overrun>
  {
    match SelectChangePage(upper, atBoundary, atRead, query, sizes)
    case Err(overrun) => Err(overrun)
    case Ok(page) =>
      var purges := if query.filter.treeOnly then map[] else PurgeWindow(purgesLast, query.since, page.cursor);
      Ok(PullResult(page.changes, purges, page.cursor, page.hasMore))
  }

  // ------------------------------------------------------------------ the boundary, in and out of a page

  lemma BoundaryIsInside(rows: Rows, query: Query, upper: nat, sizes: Sizes)
    ensures var cutoff := BoundaryOf(rows, query, upper, sizes);
            && (cutoff.empty <==> Window(rows, query.filter, query.since, upper) == map[])
            && (!cutoff.empty ==> query.since < cutoff.sequence <= upper)
  {
    var window := Window(rows, query.filter, query.since, upper);
    var entries := Listing(window);
    ListingLists(window);
    EmptyListing(window, entries);
    hide Listing;
    if entries != [] {
      BoundaryIsOptimal(entries, query.limit, MAX_DELTA_BYTES, sizes.weigh);
      var n := CountThrough(entries, BoundaryOf(rows, query, upper, sizes).sequence);
      hide Cutoff, CountThrough, Lists;
      assert entries[n - 1].key in window && window[entries[n - 1].key] == entries[n - 1].row by {
        ListedRow(window, entries, n - 1);
      }
    }
  }

  lemma ListedRow(table: Rows, out: seq<Entry>, i: nat)
    requires Lists(table, out) && i < |out|
    ensures out[i].key in table && table[out[i].key] == out[i].row
  {
  }

  /** However the account moves between the reads, a page that promises more has moved its cursor. */
  lemma APageWithMoreToComeAdvances(upper: nat, atBoundary: Rows, atRead: Rows, query: Query, sizes: Sizes)
    ensures var result := SelectChangePage(upper, atBoundary, atRead, query, sizes);
            result.Ok? ==>
              && (result.value.hasMore ==> query.since < result.value.cursor < upper)
              && (!result.value.hasMore ==> result.value.cursor == upper)
  {
    BoundaryIsInside(atBoundary, query, upper, sizes);
    hide Cutoff, BoundaryOf, Listing, Window, TotalWeight;
  }

  lemma TheEarlierComesFirst(window: Rows, entries: seq<Entry>, a: Key, b: Key)
    requires Lists(window, entries) && window.Keys == {a, b} && window[a].changeSeq < window[b].changeSeq
    ensures |entries| >= 2 && entries[0].row.changeSeq == window[a].changeSeq
  {
    ListedInOrder(window, entries);
    hide Ordered;
    var i :| 0 <= i < |entries| && entries[i].key == a;
    var j :| 0 <= j < |entries| && entries[j].key == b;
    assert entries[0].key in window.Keys;
    hide Lists;
  }

  /** A limit of one row ends a page at the first sequence value when more than one row is listed. */
  lemma AOneRowLimit(entries: seq<Entry>, weigh: Entry -> nat)
    requires Ordered(entries) && |entries| >= 2
    ensures var cutoff := Cutoff(entries, 1, MAX_DELTA_BYTES, weigh);
            !cutoff.empty && !cutoff.complete && cutoff.sequence == entries[0].row.changeSeq
  {
    BoundaryIsOptimal(entries, 1, MAX_DELTA_BYTES, weigh);
    var cutoff := Cutoff(entries, 1, MAX_DELTA_BYTES, weigh);
    assert !cutoff.empty;
    hide Cutoff, CountThrough, TotalWeight, WholeSequences, Ordered;
    assert !InBudget(entries, |entries|, 1, MAX_DELTA_BYTES, weigh);
    var n := CountThrough(entries, cutoff.sequence);
    assert InBudget(entries, n, 1, MAX_DELTA_BYTES, weigh) ==> n == 1;
    hide InBudget;
  }

  /** A page of one row, of a listing whose two rows carry different values, ends at the first. */
  lemma AOneRowPageEndsAtTheFirst(window: Rows, a: Key, b: Key, sizes: Sizes)
    requires window.Keys == {a, b} && window[a].changeSeq < window[b].changeSeq
    ensures var cutoff := Cutoff(Listing(window), 1, MAX_DELTA_BYTES, sizes.weigh);
            !cutoff.empty && !cutoff.complete && cutoff.sequence == window[a].changeSeq
  {
    ListingLists(window);
    TheEarlierComesFirst(window, Listing(window), a, b);
    ListedInOrder(window, Listing(window));
    hide Cutoff, Listing, Lists, Ordered;
    AOneRowLimit(Listing(window), sizes.weigh);
  }

  // ------------------------------------------------------------------ the overrun check

  /** Between two reads a row at or below a bound can only have left: writes stamp above it. */
  ghost predicate OnlyLeft(earlier: Rows, later: Rows, upper: nat) {
    forall key :: key in later && later[key].changeSeq <= upper ==> key in earlier && earlier[key] == later[key]
  }

  ghost predicate Estimated(sizes: Sizes) {
    forall entry :: sizes.render(entry) <= DELTA_BYTES_OVERRUN_FACTOR * sizes.weigh(entry)
  }

  lemma {:induction false} SubListingWeighsLess(larger: Rows, smaller: Rows, a: seq<Entry>, b: seq<Entry>, sizes: Sizes)
    requires Lists(larger, a) && Lists(smaller, b)
    requires forall key :: key in smaller ==> key in larger && larger[key] == smaller[key]
    requires Estimated(sizes)
    ensures TotalWeight(b, sizes.render) <= DELTA_BYTES_OVERRUN_FACTOR * TotalWeight(a, sizes.weigh)
    decreases |a|
  {
    hide Before;
    EmptyListing(larger, a);
    EmptyListing(smaller, b);
    if a != [] {
      var n := |a| - 1;
      InitLists(larger, a);
      var key := a[n].key;
      ListedRow(larger, a, n);
      if key in smaller {
        LastOfBoth(larger, smaller, a, b);
        InitLists(smaller, b);
        SubListingWeighsLess(larger - {key}, smaller - {key}, a[..n], b[..|b| - 1], sizes);
      } else {
        SubListingWeighsLess(larger - {key}, smaller, a[..n], b, sizes);
      }
    } else {
      assert smaller == map[];
    }
  }

  lemma InitLists(table: Rows, out: seq<Entry>)
    requires Lists(table, out) && out != []
    ensures Lists(table - {out[|out| - 1].key}, out[..|out| - 1])
  {
    var n := |out| - 1;
    forall i | 0 <= i < n
      ensures out[i].key != out[n].key
    {
      assert Before(out[i], out[n]);
      BeforeIsTotal(out[i], out[n]);
    }
    hide Before;
    forall key | key in table && key != out[n].key
      ensures exists i :: 0 <= i < |out[..n]| && out[..n][i].key == key
    {
      var i :| 0 <= i < |out| && out[i].key == key;
      assert out[..n][i].key == key;
    }
  }

  lemma LastOfBoth(larger: Rows, smaller: Rows, a: seq<Entry>, b: seq<Entry>)
    requires Lists(larger, a) && Lists(smaller, b) && a != []
    requires forall key :: key in smaller ==> key in larger && larger[key] == smaller[key]
    requires a[|a| - 1].key in smaller
    ensures b != [] && b[|b| - 1] == a[|a| - 1]
  {
    hide Before;
    var last := a[|a| - 1];
    var j :| 0 <= j < |b| && b[j].key == last.key;
    var other := b[|b| - 1];
    var i :| 0 <= i < |a| && a[i].key == other.key;
    assert a[i] == other && b[j] == last;
    BeforeIsTotal(last, other);
  }

  /** A page drawn from a window it was measured on keeps to the ceiling, or is one sequence. */
  lemma APageKeepsToTheCeiling(window: Rows, later: Rows, limit: nat, sizes: Sizes)
    requires Estimated(sizes)
    requires var cutoff := Cutoff(Listing(window), limit, MAX_DELTA_BYTES, sizes.weigh);
             forall key :: key in later ==>
               && key in window && window[key] == later[key]
               && (cutoff.complete || later[key].changeSeq <= cutoff.sequence)
    ensures WithinBudget(Listing(later), TotalWeight(Listing(later), sizes.render))
  {
    hide *;
    var entries, delta := Listing(window), Listing(later);
    ListingLists(window);
    ListingLists(later);
    EmptyListing(window, entries);
    var cutoff := Cutoff(entries, limit, MAX_DELTA_BYTES, sizes.weigh);
    if entries != [] {
      FitsOrIsTheFirst(window, entries, limit, sizes);
      if cutoff.complete {
        assert entries[..|entries|] == entries;
        SubListingWeighsLess(window, later, entries, delta, sizes);
        SmallEnough(delta, entries, |entries|, limit, sizes);
      } else {
        var n := CountThrough(entries, cutoff.sequence);
        APartialPage(window, later, entries, delta, cutoff.sequence, sizes);
        if InBudget(entries, n, limit, MAX_DELTA_BYTES, sizes.weigh) {
          SmallEnough(delta, entries, n, limit, sizes);
        } else {
          OneSequenceIsExempt(window, later, entries, delta, n, sizes);
        }
      }
    } else {
      assert later == map[];
      EmptyListing(later, delta);
      NothingIsExempt(delta, sizes);
    }
  }

  lemma FitsOrIsTheFirst(window: Rows, entries: seq<Entry>, limit: nat, sizes: Sizes)
    requires Lists(window, entries) && entries != []
    ensures var cutoff := Cutoff(entries, limit, MAX_DELTA_BYTES, sizes.weigh);
            var n := CountThrough(entries, cutoff.sequence);
            && 0 < n <= |entries| && entries[n - 1].row.changeSeq == cutoff.sequence
            && (cutoff.complete ==> InBudget(entries, |entries|, limit, MAX_DELTA_BYTES, sizes.weigh))
            && (|| InBudget(entries, n, limit, MAX_DELTA_BYTES, sizes.weigh)
                || entries[n - 1].row.changeSeq == entries[0].row.changeSeq)
  {
    BoundaryIsOptimal(entries, limit, MAX_DELTA_BYTES, sizes.weigh);
    hide Cutoff, InBudget, CountThrough, WholeSequences, Ordered;
  }

  lemma ListedInOrder(table: Rows, out: seq<Entry>)
    requires Lists(table, out)
    ensures Ordered(out) && Rising(out)
  {
    OrderedRises(out);
  }

  lemma NothingIsExempt(delta: seq<Entry>, sizes: Sizes)
    ensures delta == [] ==> WithinBudget(delta, TotalWeight(delta, sizes.render))
  {
  }

  lemma SmallEnough(delta: seq<Entry>, entries: seq<Entry>, n: nat, limit: nat, sizes: Sizes)
    requires n <= |entries| && InBudget(entries, n, limit, MAX_DELTA_BYTES, sizes.weigh)
    requires TotalWeight(delta, sizes.render) <= DELTA_BYTES_OVERRUN_FACTOR * TotalWeight(entries[..n], sizes.weigh)
    ensures WithinBudget(delta, TotalWeight(delta, sizes.render))
  {
  }

  lemma APartialPage(window: Rows, later: Rows, entries: seq<Entry>, delta: seq<Entry>, seqValue: nat, sizes: Sizes)
    requires Estimated(sizes) && Lists(window, entries) && Lists(later, delta)
    requires forall key :: key in later ==>
               key in window && window[key] == later[key] && later[key].changeSeq <= seqValue
    ensures var n := CountThrough(entries, seqValue);
            && n <= |entries|
            && TotalWeight(delta, sizes.render) <= DELTA_BYTES_OVERRUN_FACTOR * TotalWeight(entries[..n], sizes.weigh)
  {
    PageIsTheWindow(window, entries, seqValue);
    hide Lists, CountThrough;
    SubListingWeighsLess(Through(window, seqValue), later, entries[..CountThrough(entries, seqValue)], delta, sizes);
  }

  lemma OneSequenceIsExempt(window: Rows, later: Rows, entries: seq<Entry>, delta: seq<Entry>, n: nat, sizes: Sizes)
    requires Lists(window, entries) && Lists(later, delta) && 0 < n <= |entries|
    requires entries[n - 1].row.changeSeq == entries[0].row.changeSeq
    requires forall key :: key in later ==>
               key in window && window[key] == later[key] && later[key].changeSeq <= entries[n - 1].row.changeSeq
    ensures WithinBudget(delta, TotalWeight(delta, sizes.render))
  {
    ListedInOrder(window, entries);
    if delta != [] {
      ListedRow(later, delta, 0);
      ListedRow(later, delta, |delta| - 1);
      OneSequence(window, entries, n, delta[0].key);
      OneSequence(window, entries, n, delta[|delta| - 1].key);
    }
    hide Lists, Ordered;
  }

  /**
   With estimates no further out than the overrun factor, the check never fails, even when rows leave
   the window between the boundary read and the row read. That the later window lies inside the
   earlier one is what the commits in between guarantee; see `CommitsOnlyShrinkAWindow`.
   */
  lemma TheOverrunCheckNeverFails(upper: nat, atBoundary: Rows, atRead: Rows, query: Query, sizes: Sizes)
    requires Estimated(sizes)
    requires forall key :: key in Window(atRead, query.filter, query.since, upper) ==>
               key in Window(atBoundary, query.filter, query.since, upper) && atBoundary[key] == atRead[key]
    ensures SelectChangePage(upper, atBoundary, atRead, query, sizes).Ok?
  {
    var window := Window(atBoundary, query.filter, query.since, upper);
    var cutoff := BoundaryOf(atBoundary, query, upper, sizes);
    BoundaryIsInside(atBoundary, query, upper, sizes);
    var pageEnd := PageEnd(cutoff, upper);
    var later := Window(atRead, query.filter, query.since, pageEnd);
    if query.since < upper && !cutoff.empty {
      forall key | key in later
        ensures key in window && window[key] == later[key]
        ensures cutoff.complete || later[key].changeSeq <= cutoff.sequence
      {
        assert key in Window(atRead, query.filter, query.since, upper);
      }
      APageKeepsToTheCeiling(window, later, query.limit, sizes);
    }
    hide Listing, Cutoff, Window, WithinBudget, TotalWeight;
  }

  /** The part of a table stamped at or below a value. */
  function Through(table: Rows, seqValue: nat): Rows {
    map key | key in table && table[key].changeSeq <= seqValue :: table[key]
  }

  /** Cutting a listing at a sequence value is listing the cut table. */
  lemma PageIsTheWindow(table: Rows, entries: seq<Entry>, seqValue: nat)
    requires Lists(table, entries)
    ensures CountThrough(entries, seqValue) <= |entries|
    ensures Lists(Through(table, seqValue), entries[..CountThrough(entries, seqValue)])
  {
    hide Before, CountThrough, WeightThrough, TotalWeight;
    OrderedRises(entries);
    ThroughIsAPrefix(entries, seqValue, (entry: Entry) => 0);
    var n := CountThrough(entries, seqValue);
    var page := Through(table, seqValue);
    forall key | key in page
      ensures exists i :: 0 <= i < n && entries[..n][i].key == key
    {
      var i :| 0 <= i < |entries| && entries[i].key == key;
      assert entries[..n][i].key == key;
    }
  }

  lemma OneSequence(table: Rows, entries: seq<Entry>, n: nat, key: Key)
    requires Lists(table, entries) && Rising(entries) && 0 < n <= |entries|
    requires entries[n - 1].row.changeSeq == entries[0].row.changeSeq
    requires key in table && table[key].changeSeq <= entries[n - 1].row.changeSeq
    ensures table[key].changeSeq == entries[0].row.changeSeq
  {
    var i :| 0 <= i < |entries| && entries[i].key == key;
    assert entries[0].row.changeSeq <= entries[i].row.changeSeq;
  }

  /** For a whole or a tree read, commits between the two reads only take rows out of the window. */
  lemma CommitsOnlyShrinkAWindow(earlier: Rows, later: Rows, query: Query, upper: nat)
    requires OnlyLeft(earlier, later, upper) && !ShapeOf(query.filter).SkippingNotebooks?
    ensures forall key :: key in Window(later, query.filter, query.since, upper) ==>
              key in Window(earlier, query.filter, query.since, upper) && earlier[key] == later[key]
  {
  }

  // ------------------------------------------------------------------ following the cursor

  /** An account nobody is writing to: every read sees the same tables. */
  function QuietPull(core: Core, query: Query, sizes: Sizes): Result<PullResult, Overrun> {
    PullFiltered(core.counter, core.store.rows, core.store.rows, core.purges, query, sizes)
  }

  lemma AShortPageIsNotEmpty(rows: Rows, query: Query, upper: nat, sizes: Sizes)
    ensures var cutoff := BoundaryOf(rows, query, upper, sizes);
            !cutoff.empty ==> Listing(Window(rows, query.filter, query.since, cutoff.sequence)) != []
  {
    var window := Window(rows, query.filter, query.since, upper);
    var entries := Listing(window);
    ListingLists(window);
    EmptyListing(window, entries);
    if entries != [] {
      ListedInOrder(window, entries);
      BoundaryIsOptimal(entries, query.limit, MAX_DELTA_BYTES, sizes.weigh);
      var sequence := BoundaryOf(rows, query, upper, sizes).sequence;
      var n := CountThrough(entries, sequence);
      ListedRow(window, entries, n - 1);
      hide Listing, Cutoff, CountThrough, Lists, Ordered;
      var page := Window(rows, query.filter, query.since, sequence);
      assert entries[n - 1].key in page;
      ListingLists(page);
      EmptyListing(page, Listing(page));
    }
  }

  lemma AnEmptyWindow(rows: Rows, filter: DeltaFilter, since: nat, upper: nat)
    requires Window(rows, filter, since, upper) == map[] || upper <= since
    ensures Listing(Window(rows, filter, since, upper)) == []
  {
    if upper <= since {
      assert Window(rows, filter, since, upper) == map[];
    }
  }

  /** A page of a quiet account is the next stretch of its delta: never empty with more to come. */
  lemma AQuietPageIsTheNextStretch(core: Core, query: Query, sizes: Sizes)
    ensures var result := QuietPull(core, query, sizes);
            result.Ok? ==>
              var page := result.value;
              && page.cursor <= core.counter
              && (query.since <= core.counter ==> query.since <= page.cursor)
              && (page.hasMore <==> page.cursor < core.counter)
              && (page.hasMore ==> query.since < page.cursor && page.changes != [])
              && page.changes == Listing(Window(core.store.rows, query.filter, query.since, page.cursor))
              && (!query.filter.treeOnly ==> page.purges == PurgeWindow(core.purges, query.since, page.cursor))
  {
    var rows := core.store.rows;
    hide Listing, Cutoff, TotalWeight, Window, BoundaryOf;
    BoundaryIsInside(rows, query, core.counter, sizes);
    AShortPageIsNotEmpty(rows, query, core.counter, sizes);
    if query.since >= core.counter || BoundaryOf(rows, query, core.counter, sizes).empty {
      AnEmptyWindow(rows, query.filter, query.since, core.counter);
    }
  }

  /** Two listings, the second all stamped above the first, run on in order. */
  lemma ListingsRunOn(a: Rows, b: Rows, x: seq<Entry>, y: seq<Entry>, middle: nat)
    requires Lists(a, x) && Lists(b, y)
    requires forall key :: key in a ==> a[key].changeSeq <= middle
    requires forall key :: key in b ==> middle < b[key].changeSeq
    ensures Ordered(x + y)
  {
    hide TextBefore, Rank;
    forall i, j | 0 <= i < j < |x + y|
      ensures Before((x + y)[i], (x + y)[j])
    {
      if i < |x| <= j {
        ListedRow(a, x, i);
        ListedRow(b, y, j - |x|);
      }
    }
  }

  lemma ListingsCover(a: Rows, b: Rows, whole: Rows, x: seq<Entry>, y: seq<Entry>)
    requires Lists(a, x) && Lists(b, y) && Ordered(x + y)
    requires forall key :: key in whole <==> key in a || key in b
    requires forall key :: key in a ==> key in whole && whole[key] == a[key]
    requires forall key :: key in b ==> key in whole && whole[key] == b[key]
    ensures Lists(whole, x + y)
  {
    hide Before;
    forall key | key in whole
      ensures exists i :: 0 <= i < |x + y| && (x + y)[i].key == key
    {
      if key in a {
        var i :| 0 <= i < |x| && x[i].key == key;
        assert (x + y)[i].key == key;
      } else {
        var i :| 0 <= i < |y| && y[i].key == key;
        assert (x + y)[|x| + i].key == key;
      }
    }
    forall i | 0 <= i < |x + y|
      ensures (x + y)[i].key in whole && whole[(x + y)[i].key] == (x + y)[i].row
    {
      if i < |x| {
        ListedRow(a, x, i);
      } else {
        ListedRow(b, y, i - |x|);
      }
    }
  }

  /** Reading to a cursor and on from it is reading past it in one go. */
  lemma StretchesJoin(rows: Rows, filter: DeltaFilter, since: nat, middle: nat, upper: nat)
    requires since <= middle <= upper
    ensures Listing(Window(rows, filter, since, middle)) + Listing(Window(rows, filter, middle, upper)) ==
            Listing(Window(rows, filter, since, upper))
  {
    hide Listing, Skipped, Lists, Ordered;
    var a, b := Window(rows, filter, since, middle), Window(rows, filter, middle, upper);
    var whole := Window(rows, filter, since, upper);
    ListingLists(a);
    ListingLists(b);
    ListingLists(whole);
    ListingsRunOn(a, b, Listing(a), Listing(b), middle);
    ListingsCover(a, b, whole, Listing(a), Listing(b));
    ListingIsUnique(whole, Listing(a) + Listing(b), Listing(whole));
  }

  function PurgesSeen(pages: seq<PullResult>): set<Key> {
    if pages == [] then {} else PurgesSeen(pages[..|pages| - 1]) + pages[|pages| - 1].purges.Keys
  }

  function ChangesSeen(pages: seq<PullResult>): seq<Entry> {
    if pages == [] then [] else ChangesSeen(pages[..|pages| - 1]) + pages[|pages| - 1].changes
  }

  /** How one stream's pages ended. */
  datatype Ending = Delivered | ConnectionLost | PageFailed | DidNotAdvance

  /** One more page: what was sent grows by exactly the next stretch. */
  lemma OneMorePage(core: Core, sizes: Sizes, filter: DeltaFilter, limit: nat, since: nat, cursor: nat,
                    sent: seq<PullResult>, page: PullResult)
    requires QuietPull(core, Query(cursor, limit, filter), sizes) == Ok(page)
    requires since <= cursor <= core.counter || (cursor == since && sent == [])
    requires SentSoFar(core, filter, since, cursor, sent)
    ensures SentSoFar(core, filter, since, page.cursor, sent + [page])
  {
    hide QuietPull, Listing, Window;
    AQuietPageIsTheNextStretch(core, Query(cursor, limit, filter), sizes);
    var rows := core.store.rows;
    assert (sent + [page])[..|sent|] == sent;
    if cursor <= core.counter {
      StretchesJoin(rows, filter, since, cursor, page.cursor);
    } else {
      AnEmptyWindow(rows, filter, since, cursor);
      AnEmptyWindow(rows, filter, since, page.cursor);
    }
  }

  /** What a stream has sent is the delta up to its cursor, with the gravestones of the same window. */
  ghost predicate SentSoFar(core: Core, filter: DeltaFilter, since: nat, cursor: nat, sent: seq<PullResult>) {
    && ChangesSeen(sent) == Listing(Window(core.store.rows, filter, since, cursor))
    && (!filter.treeOnly ==> PurgesSeen(sent) == PurgeWindow(core.purges, since, cursor).Keys)
  }

  /**
   Sends a first page and the pages after it through one stream. `writable` is how many events the
   connection takes before it breaks. On a quiet account the loop ends, the branch for a delta that
   did not advance is dead, and what was sent is the delta: each row once, in order, with its purges.
   */
  method WriteChangePages(core: Core, sizes: Sizes, filter: DeltaFilter, limit: nat, since: nat,
                          firstPage: PullResult, writable: nat)
    returns (cursor: nat, sent: seq<PullResult>, ending: Ending)
    requires QuietPull(core, Query(since, limit, filter), sizes) == Ok(firstPage)
    ensures SentSoFar(core, filter, since, cursor, sent)
    ensures ending.Delivered? ==> cursor == core.counter
    ensures ending.ConnectionLost? ==> |sent| == writable
    ensures !ending.DidNotAdvance?
    ensures Estimated(sizes) ==> !ending.PageFailed?
  {
    hide QuietPull, SentSoFar, Estimated;
    cursor, sent := since, [];
    var page, eventsLeft := firstPage, writable;
    assert SentSoFar(core, filter, since, cursor, sent) by { NothingSentYet(core, filter, since); }
    while true
      invariant since <= cursor <= core.counter || (cursor == since && sent == [])
      invariant QuietPull(core, Query(cursor, limit, filter), sizes) == Ok(page)
      invariant SentSoFar(core, filter, since, cursor, sent)
      invariant eventsLeft + |sent| == writable
      decreases core.counter - cursor
    {
      if eventsLeft == 0 {
        return cursor, sent, ConnectionLost;
      }
      AQuietPageIsTheNextStretch(core, Query(cursor, limit, filter), sizes);
      OneMorePage(core, sizes, filter, limit, since, cursor, sent, page);
      eventsLeft := eventsLeft - 1;
      sent := sent + [page];
      var previous := cursor;
      cursor := page.cursor;
      if !page.hasMore {
        return cursor, sent, Delivered;
      }
      if cursor <= previous {
        return cursor, sent, DidNotAdvance;
      }
      var next := QuietPull(core, Query(cursor, limit, filter), sizes);
      QuietPagesNeverFail(core, Query(cursor, limit, filter), sizes);
      if next.Err? {
        return cursor, sent, PageFailed;
      }
      page := next.value;
    }
  }

  lemma QuietPagesNeverFail(core: Core, query: Query, sizes: Sizes)
    ensures Estimated(sizes) ==> QuietPull(core, query, sizes).Ok?
  {
    if Estimated(sizes) {
      TheOverrunCheckNeverFails(core.counter, core.store.rows, core.store.rows, query, sizes);
    }
    hide SelectChangePage;
  }

  lemma NothingSentYet(core: Core, filter: DeltaFilter, since: nat)
    ensures SentSoFar(core, filter, since, since, [])
  {
    AnEmptyWindow(core.store.rows, filter, since, since);
  }
}
