/**
 What one pull answers, said of the rows as its last read found them, for every shape of read and whatever
 committed between its reads.
 */
module PullAnswers {
  import opened Outcomes
  import opened Tables
  import opened Delta
  import opened Pull
  import opened Overruns

  predicate IndexesTheAccount(kind: Kind) {
    match kind
    case Notebook => true
    case Section => true
    case Page => true
    case PageContent => false
    case InkStroke => false
    case InkErase => false
    case InkMove => false
    case Attachment => false
  }

  predicate HangsFromAPage(kind: Kind) {
    match kind
    case Notebook => false
    case Section => false
    case Page => false
    case PageContent => true
    case InkStroke => true
    case InkErase => true
    case InkMove => true
    case Attachment => false
  }

  /** The row is one this read is to answer with, of the range up to a cursor. */
  ghost predicate BelongsOn(rows: Rows, key: Key, since: int, cursor: nat, treeOnly: bool, skipNotebooks: seq<string>) {
    && key in rows && since < rows[key].changeSeq <= cursor
    && (treeOnly ==> IndexesTheAccount(key.kind))
    && (HangsFromAPage(key.kind) ==>
          forall id :: id in skipNotebooks ==> treeOnly || !Under(rows, key, Key(Notebook, id)))
  }

  /** Exactly the rows that belong on it, each once, by sequence value and parents first. */
  ghost predicate Carries(rows: Rows, changes: seq<Entry>, since: int, cursor: nat, treeOnly: bool,
                          skipNotebooks: seq<string>) {
    && (forall i :: 0 <= i < |changes| ==>
          BelongsOn(rows, changes[i].key, since, cursor, treeOnly, skipNotebooks) &&
          changes[i].row == rows[changes[i].key])
    && (forall key :: BelongsOn(rows, key, since, cursor, treeOnly, skipNotebooks) ==>
          exists i :: 0 <= i < |changes| && changes[i].key == key)
    && (forall i, j :: 0 <= i < j < |changes| ==>
          && changes[i].key != changes[j].key
          && changes[i].row.changeSeq <= changes[j].row.changeSeq
          && (changes[i].row.changeSeq == changes[j].row.changeSeq ==>
                RowParent(rows, changes[i].key) != Some(changes[j].key)))
  }

  /** The gravestones recorded in the window. */
  ghost predicate CarriesPurges(purges: map<Key, nat>, answered: map<Key, nat>, since: int, cursor: nat) {
    && (forall key :: key in answered ==>
          key in purges && answered[key] == purges[key] && since < purges[key] <= cursor)
    && (forall key :: key in purges && since < purges[key] <= cursor ==> key in answered)
  }

  lemma WindowsHoldWhatBelongs(rows: Rows, filter: DeltaFilter, since: nat, cursor: nat, key: Key)
    requires Closed(rows)
    ensures key in Window(rows, filter, since, cursor) <==>
            BelongsOn(rows, key, since, cursor, filter.treeOnly, filter.skipNotebooks)
    ensures key in Window(rows, filter, since, cursor) ==> Window(rows, filter, since, cursor)[key] == rows[key]
  {
    if key in rows {
      SkippedIsBeneath(rows, filter, key);
    }
    hide Closed, Under, Skipped;
  }

  lemma ParentsComeFirst(rows: Rows, a: Entry, b: Entry)
    requires Before(a, b) && a.key in rows && a.row.changeSeq == b.row.changeSeq
    ensures RowParent(rows, a.key) != Some(b.key)
  {
    hide TextBefore;
  }

  lemma TwoOfAWindow(rows: Rows, window: Rows, changes: seq<Entry>, i: nat, j: nat)
    requires Lists(window, changes) && i < j < |changes|
    requires forall key :: key in window ==> key in rows
    ensures changes[i].key != changes[j].key && changes[i].row.changeSeq <= changes[j].row.changeSeq
    ensures changes[i].key in rows
    ensures changes[i].row.changeSeq == changes[j].row.changeSeq ==>
              RowParent(rows, changes[i].key) != Some(changes[j].key)
  {
    assert Before(changes[i], changes[j]);
    BeforeIsTotal(changes[i], changes[j]);
    ListedInOrder(window, changes);
    hide Before;
    if changes[i].row.changeSeq == changes[j].row.changeSeq {
      ParentsComeFirst(rows, changes[i], changes[j]);
    }
  }

  lemma AWindowIsCarried(rows: Rows, filter: DeltaFilter, since: nat, cursor: nat)
    requires Closed(rows)
    ensures Carries(rows, Listing(Window(rows, filter, since, cursor)), since, cursor, filter.treeOnly,
                    filter.skipNotebooks)
  {
    var window := Window(rows, filter, since, cursor);
    var changes := Listing(window);
    ListingLists(window);
    forall key
      ensures key in window <==> BelongsOn(rows, key, since, cursor, filter.treeOnly, filter.skipNotebooks)
      ensures key in window ==> key in rows && window[key] == rows[key]
    {
      WindowsHoldWhatBelongs(rows, filter, since, cursor, key);
      hide Window;
    }
    hide Window, Listing, BelongsOn, Closed, Before;
    forall i, j | 0 <= i < j < |changes|
      ensures changes[i].key != changes[j].key && changes[i].row.changeSeq <= changes[j].row.changeSeq
      ensures changes[i].key in rows
      ensures changes[i].row.changeSeq == changes[j].row.changeSeq ==>
                RowParent(rows, changes[i].key) != Some(changes[j].key)
    {
      TwoOfAWindow(rows, window, changes, i, j);
    }
    hide Ordered;
  }

  lemma NothingIsCarried(rows: Rows, since: int, cursor: nat, treeOnly: bool, skipNotebooks: seq<string>)
    requires cursor <= since
    ensures Carries(rows, [], since, cursor, treeOnly, skipNotebooks)
  {
  }

  /**
   What a pull answers: the rows of its range as its last read found them, the tree alone or without what lies
   beneath the notebooks it leaves out, and the gravestones of the same range; a tree read has none. It
   promises more exactly when it stops short of the counter it began with.
   */
  lemma WhatAPullAnswers(upper: nat, atBoundary: Rows, atRead: Rows, purgesLast: map<Key, nat>, query: Query,
                         sizes: Sizes)
    requires Closed(atRead) && OnlyLeft(atBoundary, atRead, upper) && StaySkipped(atBoundary, atRead, query, upper)
    requires PullFiltered(upper, atBoundary, atRead, purgesLast, query, sizes).Ok?
    ensures var result := PullFiltered(upper, atBoundary, atRead, purgesLast, query, sizes).value;
            && Carries(atRead, result.changes, query.since, result.cursor, query.filter.treeOnly,
                       query.filter.skipNotebooks)
            && (query.filter.treeOnly ==> result.purges == map[])
            && (!query.filter.treeOnly ==> CarriesPurges(purgesLast, result.purges, query.since, result.cursor))
            && result.cursor <= upper && (result.hasMore <==> result.cursor < upper)
            && (result.hasMore ==> query.since < result.cursor)
  {
    var cutoff := BoundaryOf(atBoundary, query, upper, sizes);
    APageWithMoreToComeAdvances(upper, atBoundary, atRead, query, sizes);
    BoundaryIsInside(atBoundary, query, upper, sizes);
    if query.since >= upper {
      NothingIsCarried(atRead, query.since, upper, query.filter.treeOnly, query.filter.skipNotebooks);
    } else if cutoff.empty {
      NothingComesIn(atBoundary, atRead, query, upper);
      AWindowIsCarried(atRead, query.filter, query.since, upper);
      AnEmptyWindow(atRead, query.filter, query.since, upper);
    } else {
      AWindowIsCarried(atRead, query.filter, query.since, PageEnd(cutoff, upper));
    }
    hide BoundaryOf, Window, Listing, TotalWeight, WithinBudget, Carries, Closed, OnlyLeft, StaySkipped;
  }

  /** What fits in both budgets is one page, to the counter it was read under, with nothing more promised. */
  lemma AWindowThatFitsIsOnePage(upper: nat, atBoundary: Rows, atRead: Rows, purgesLast: map<Key, nat>, query: Query,
                                 sizes: Sizes)
    requires var window := Listing(Window(atBoundary, query.filter, query.since, upper));
             |window| <= query.limit && TotalWeight(window, sizes.weigh) <= MAX_DELTA_BYTES
    requires PullFiltered(upper, atBoundary, atRead, purgesLast, query, sizes).Ok?
    ensures var result := PullFiltered(upper, atBoundary, atRead, purgesLast, query, sizes).value;
            result.cursor == upper && !result.hasMore
  {
    var window := Window(atBoundary, query.filter, query.since, upper);
    var entries := Listing(window);
    ListingLists(window);
    ListedInOrder(window, entries);
    EmptyListing(window, entries);
    BoundaryIsInside(atBoundary, query, upper, sizes);
    if entries != [] {
      assert entries[..|entries|] == entries;
      CompleteMeansAllFit(entries, query.limit, MAX_DELTA_BYTES, sizes.weigh);
    }
    hide Window, Listing, TotalWeight, WithinBudget, Cutoff, Ordered, Lists;
  }

  lemma NothingComesIn(atBoundary: Rows, atRead: Rows, query: Query, upper: nat)
    requires OnlyLeft(atBoundary, atRead, upper) && StaySkipped(atBoundary, atRead, query, upper)
    requires Window(atBoundary, query.filter, query.since, upper) == map[]
    ensures Window(atRead, query.filter, query.since, upper) == map[]
  {
    AWindowShrinksUnlessUnskipped(atBoundary, atRead, query, upper);
    hide OnlyLeft, StaySkipped, Window;
    assert forall key :: key !in Window(atRead, query.filter, query.since, upper);
  }
}
