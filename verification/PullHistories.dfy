/**
 Runs of one account, from nothing, in which pulls meet what their reads leave room for: a row that comes
 out of a skipped notebook between two of them, one that comes out after its pull and is never sent, and a
 page that has nothing left on it and still promises more.
 */
module PullHistories {
  import opened Outcomes
  import opened Tables
  import opened Changes
  import opened Notebooks
  import opened Engine
  import opened PushPull
  import opened AccountRuns
  import opened Delta
  import opened Pull
  import opened Overruns
  import opened References
  import opened Sending
  import opened Histories
  import opened Handlers
  import Skipping

  // ------------------------------------------------------------------ one change at a time

  /** The account after one more push of one entity. */
  function Written(core: Core, key: Key, version: nat, fields: Fields): Core {
    core.(counter := core.counter + 1,
          store := core.store.(rows := core.store.rows[key := RowOf(version, core.counter + 1, None, fields)]))
  }

  function WriteOf(key: Key, baseVersion: nat, fields: Fields): Op {
    Pushed(RawsOf([Sent(key, baseVersion, None, fields)]), "phone")
  }

  lemma APlainWrite(core: Core, key: Key, baseVersion: nat, fields: Fields)
    requires Reached(core) && core.purges == map[] && IdFault(key.id).None?
    requires FieldsFit(key.kind, fields) && !key.kind.PageContent? && !key.kind.Attachment?
    requires fields.NotebookFields? ==> fields == PLAIN
    requires ParentOf(key.kind, fields).Some? ==> ParentOf(key.kind, fields).value in core.store.rows
    requires BaseOf(if key in core.store.rows then Some(core.store.rows[key]) else None) == baseVersion
    requires key in core.store.rows ==> ShelfOf(Some(core.store.rows[key])).closedAt.None?
    ensures SendsDocumentsByPage(WriteOf(key, baseVersion, fields))
    ensures Perform(core, WriteOf(key, baseVersion, fields)) == Written(core, key, baseVersion + 1, fields)
    ensures Reached(Written(core, key, baseVersion + 1, fields))
  {
    var change := Sent(key, baseVersion, None, fields);
    assert Sendable(change);
    SentByPage([change], "phone");
    SentIsTaken(core, core.store, key, baseVersion, None, fields);
    hide Takes, RawsOf, Perform, Reached, Sendable, SendsDocumentsByPage;
    ASentChangeIsCommitted(core, change, "phone", Written(core, key, baseVersion + 1, fields).store);
    ReachedByOneMore(core, WriteOf(key, baseVersion, fields));
  }

  // ------------------------------------------------------------------ a reader that pulls after every write

  /** A reader that has pulled after every write, and has not been told of this row. */
  ghost predicate KeepsUpWithout(core: Core, filter: DeltaFilter, sizes: Sizes, key: Key) {
    exists steps :: UpWithout(Skipping.Run(steps, filter, sizes), core, key)
  }

  ghost predicate UpWithout(view: Skipping.View, core: Core, key: Key) {
    view.core == core && view.reader.cursor == core.counter && view.reader.phase.Idle? && key !in view.reader.told
  }

  lemma OneMore(steps: seq<Skipping.Step>, step: Skipping.Step, filter: DeltaFilter, sizes: Sizes)
    ensures Skipping.Run(steps + [step], filter, sizes) ==
            Skipping.Advance(Skipping.Run(steps, filter, sizes), step, filter, sizes)
  {
    hide Skipping.Advance;
    assert (steps + [step])[..|steps|] == steps;
  }

  /** A pull of what one write stamped: one page, ending at the counter, whatever the rows weigh. */
  lemma OnePull(core: Core, reader: Skipping.Reader, filter: DeltaFilter, sizes: Sizes, key: Key)
    requires reader.phase.Idle? && reader.cursor + 1 == core.counter && key !in reader.told
    requires key !in Window(core.store.rows, filter, reader.cursor, core.counter)
    ensures var rows := core.store.rows;
            var counted := Skipping.Proceed(rows, core.counter, reader, Skipping.ReadCounter(1), filter, sizes);
            var bounded := Skipping.Proceed(rows, core.counter, counted, Skipping.ReadBoundary, filter, sizes);
            var read := Skipping.Proceed(rows, core.counter, bounded, Skipping.ReadRows, filter, sizes);
            var after := Skipping.Proceed(rows, core.counter, read, Skipping.Apply, filter, sizes);
            after.phase.Idle? && after.cursor == core.counter && key !in after.told
  {
    BoundaryIsInside(core.store.rows, Query(reader.cursor, 1, filter), core.counter, sizes);
    hide BoundaryOf, Window, Skipping.Withheld;
  }

  lemma AWriteIsPulled(core: Core, op: Op, filter: DeltaFilter, sizes: Sizes, key: Key)
    requires KeepsUpWithout(core, filter, sizes, key) && Perform(core, op).counter == core.counter + 1
    requires key !in Window(Perform(core, op).store.rows, filter, core.counter, core.counter + 1)
    ensures KeepsUpWithout(Perform(core, op), filter, sizes, key)
  {
    hide Perform, Window, Skipping.Run, Skipping.Proceed;
    var steps :| UpWithout(Skipping.Run(steps, filter, sizes), core, key);
    var after, reader := Perform(core, op), Skipping.Run(steps, filter, sizes).reader;
    OnePull(after, reader, filter, sizes, key);
    OneMore(steps, Skipping.Write(op), filter, sizes);
    var one := steps + [Skipping.Write(op)];
    OneMore(one, Skipping.ReadCounter(1), filter, sizes);
    var two := one + [Skipping.ReadCounter(1)];
    OneMore(two, Skipping.ReadBoundary, filter, sizes);
    var three := two + [Skipping.ReadBoundary];
    OneMore(three, Skipping.ReadRows, filter, sizes);
    var four := three + [Skipping.ReadRows];
    OneMore(four, Skipping.Apply, filter, sizes);
    assert UpWithout(Skipping.Run(four + [Skipping.Apply], filter, sizes), after, key);
  }

  lemma NothingWrittenNothingTold(filter: DeltaFilter, sizes: Sizes, key: Key)
    ensures KeepsUpWithout(FRESH_ACCOUNT, filter, sizes, key)
  {
    var steps: seq<Skipping.Step> := [];
    assert UpWithout(Skipping.Run(steps, filter, sizes), FRESH_ACCOUNT, key);
  }

  lemma ReachedIsSequenced(core: Core)
    requires Reached(core)
    ensures forall key :: key in core.store.rows ==> core.store.rows[key].changeSeq <= core.counter
  {
    var ops :| After(FRESH_ACCOUNT, ops) == core;
    EveryRunIsSound(FRESH_ACCOUNT, ops);
    hide Perform, Closed;
  }

  /** A write of another row, or of this one beneath a skipped notebook. */
  lemma AWriteLeavesItUntold(core: Core, written: Key, baseVersion: nat, fields: Fields, filter: DeltaFilter,
                             sizes: Sizes, key: Key)
    requires Reached(core) && KeepsUpWithout(core, filter, sizes, key)
    requires Perform(core, WriteOf(written, baseVersion, fields)) == Written(core, written, baseVersion + 1, fields)
    requires written == key ==> Skipped(Written(core, written, baseVersion + 1, fields).store.rows, filter, key)
    ensures KeepsUpWithout(Written(core, written, baseVersion + 1, fields), filter, sizes, key)
  {
    ReachedIsSequenced(core);
    hide Reached, KeepsUpWithout, Perform, WriteOf, Skipped;
    AWriteIsPulled(core, WriteOf(written, baseVersion, fields), filter, sizes, key);
  }

  // ------------------------------------------------------------------ an account with ink in one of two notebooks

  const S := Key(Section, "s")
  const T := Key(Section, "t")
  const P := Key(Page, "p")
  const I := Key(InkStroke, "i")

  /** Two notebooks, a section in each, a page in the first, and in the end ink on it. */
  function Drawn(home: string, away: string): Core {
    Core(6, Store(map[Key(Notebook, home) := RowOf(1, 1, None, PLAIN), Key(Notebook, away) := RowOf(1, 2, None, PLAIN),
                      S := RowOf(1, 3, None, ChildFields("", home)), T := RowOf(1, 4, None, ChildFields("", away)),
                      P := RowOf(1, 5, None, ChildFields("", "s")), I := RowOf(1, 6, None, ChildFields("", "p"))], {}),
         map[], map[])
  }

  /** The second notebook edited, and then the page moved into it. */
  function Edited(home: string, away: string): Core { Written(Drawn(home, away), Key(Notebook, away), 2, PLAIN) }
  function Moved(home: string, away: string): Core { Written(Edited(home, away), P, 2, ChildFields("", "t")) }

  lemma LettersDiffer()
    ensures S != T && IdFault("s").None? && IdFault("t").None? && IdFault("p").None? && IdFault("i").None?
  {
    assert "s"[0] != "t"[0];
    assert '\0' !in "s" && '\0' !in "t" && '\0' !in "p" && '\0' !in "i";
  }

  /** Reached by a run, and by one in which a reader that leaves notebooks out has not been told of the ink. */
  ghost predicate Undisclosed(core: Core, filter: DeltaFilter, sizes: Sizes) {
    Reached(core) && core.purges == map[] && KeepsUpWithout(core, filter, sizes, I)
  }

  lemma ANewNotebook(core: Core, id: string, filter: DeltaFilter, sizes: Sizes)
    requires Undisclosed(core, filter, sizes) && IdFault(id).None? && Key(Notebook, id) !in core.store.rows
    ensures var after := Written(core, Key(Notebook, id), 1, PLAIN);
            Undisclosed(after, filter, sizes) && after.store.rows.Keys == core.store.rows.Keys + {Key(Notebook, id)}
  {
    hide Reached, Perform, IdFault, WriteOf, SendsDocumentsByPage, KeepsUpWithout, Skipped;
    APlainWrite(core, Key(Notebook, id), 0, PLAIN);
    AWriteLeavesItUntold(core, Key(Notebook, id), 0, PLAIN, filter, sizes, I);
  }

  /** A section, a page or ink, where its parent is and it is not. */
  lemma ANewChild(core: Core, key: Key, parent: Key, filter: DeltaFilter, sizes: Sizes)
    requires Undisclosed(core, filter, sizes) && IdFault(key.id).None?
    requires key.kind.Section? || key.kind.Page? || key.kind.InkStroke?
    requires ParentKind(key.kind) == Some(parent.kind) && parent in core.store.rows && key !in core.store.rows
    requires key == I ==> Skipped(Written(core, key, 1, ChildFields("", parent.id)).store.rows, filter, key)
    ensures var after := Written(core, key, 1, ChildFields("", parent.id));
            Undisclosed(after, filter, sizes) && after.store.rows.Keys == core.store.rows.Keys + {key}
  {
    hide Reached, Perform, IdFault, WriteOf, SendsDocumentsByPage, KeepsUpWithout, Skipped;
    APlainWrite(core, key, 0, ChildFields("", parent.id));
    AWriteLeavesItUntold(core, key, 0, ChildFields("", parent.id), filter, sizes, I);
  }

  lemma ThisIsDrawn(home: string, away: string)
    requires home != away
    ensures var four := Written(Written(Opened(home, away), S, 1, ChildFields("", home)), T, 1, ChildFields("", away));
            Written(Written(four, P, 1, ChildFields("", "s")), I, 1, ChildFields("", "p")) == Drawn(home, away)
  {
    LettersDiffer();
    var four := Written(Written(Opened(home, away), S, 1, ChildFields("", home)), T, 1, ChildFields("", away));
    var six := Written(Written(four, P, 1, ChildFields("", "s")), I, 1, ChildFields("", "p"));
    assert six.store.rows == Drawn(home, away).store.rows;
  }

  function Opened(home: string, away: string): Core {
    Written(Written(FRESH_ACCOUNT, Key(Notebook, home), 1, PLAIN), Key(Notebook, away), 1, PLAIN)
  }

  lemma TheNotebooksAreOpened(home: string, away: string, filter: DeltaFilter, sizes: Sizes)
    requires home != away && IdFault(home).None? && IdFault(away).None?
    ensures Undisclosed(Opened(home, away), filter, sizes)
    ensures Opened(home, away).store.rows.Keys == {Key(Notebook, home), Key(Notebook, away)}
  {
    FreshIsReached();
    NothingWrittenNothingTold(filter, sizes, I);
    assert Undisclosed(FRESH_ACCOUNT, filter, sizes);
    hide Undisclosed, IdFault, Written;
    ANewNotebook(FRESH_ACCOUNT, home, filter, sizes);
    ANewNotebook(Written(FRESH_ACCOUNT, Key(Notebook, home), 1, PLAIN), away, filter, sizes);
  }

  lemma ANewSection(core: Core, key: Key, notebookId: string, filter: DeltaFilter, sizes: Sizes)
    requires Undisclosed(core, filter, sizes) && key.kind.Section? && IdFault(key.id).None?
    requires Key(Notebook, notebookId) in core.store.rows && key !in core.store.rows
    ensures var after := Written(core, key, 1, ChildFields("", notebookId));
            Undisclosed(after, filter, sizes) && after.store.rows.Keys == core.store.rows.Keys + {key}
  {
    hide Undisclosed, IdFault, Written, Skipped;
    ANewChild(core, key, Key(Notebook, notebookId), filter, sizes);
  }

  lemma ANewDrawing(core: Core, filter: DeltaFilter, sizes: Sizes)
    requires Undisclosed(core, filter, sizes) && S in core.store.rows
    requires P !in core.store.rows && I !in core.store.rows
    requires var page := Written(core, P, 1, ChildFields("", "s"));
             Skipped(Written(page, I, 1, ChildFields("", "p")).store.rows, filter, I)
    ensures Undisclosed(Written(Written(core, P, 1, ChildFields("", "s")), I, 1, ChildFields("", "p")), filter, sizes)
  {
    LettersDiffer();
    hide Undisclosed, IdFault, Written, Skipped;
    ANewChild(core, P, S, filter, sizes);
    ANewChild(Written(core, P, 1, ChildFields("", "s")), I, P, filter, sizes);
  }

  /** What this reader leaves out of the account is the ink. */
  lemma TheInkIsSkipped(filter: DeltaFilter, home: string, away: string)
    requires home != away && !filter.treeOnly && home in filter.skipNotebooks
    ensures Skipped(Drawn(home, away).store.rows, filter, I)
  {
    LettersDiffer();
  }

  lemma TheInkIsPassedOver(filter: DeltaFilter, sizes: Sizes, home: string, away: string)
    requires home != away && IdFault(home).None? && IdFault(away).None?
    requires !filter.treeOnly && home in filter.skipNotebooks
    ensures Undisclosed(Drawn(home, away), filter, sizes)
  {
    TheNotebooksAreOpened(home, away, filter, sizes);
    LettersDiffer();
    ThisIsDrawn(home, away);
    TheInkIsSkipped(filter, home, away);
    hide Undisclosed, IdFault, Written, Drawn, Opened, Skipped;
    var two := Opened(home, away);
    var three := Written(two, S, 1, ChildFields("", home));
    ANewSection(two, S, home, filter, sizes);
    ANewSection(three, T, away, filter, sizes);
    ANewDrawing(Written(three, T, 1, ChildFields("", away)), filter, sizes);
  }

  lemma TheInkIsDrawn(home: string, away: string)
    requires home != away && IdFault(home).None? && IdFault(away).None?
    ensures Reached(Drawn(home, away))
  {
    TheInkIsPassedOver(DeltaFilter(false, [home]), WEIGHTLESS, home, away);
    hide Reached, KeepsUpWithout, Drawn, IdFault;
  }

  // ------------------------------------------------------------------ every list that skips can be surprised

  /** A length no id on the list has. */
  ghost function FreeLength(ids: seq<string>, least: nat): (length: nat)
    ensures least <= length <= least + |ids|
    ensures forall id :: id in ids ==> |id| != length
  {
    if i: nat :| i < |ids| && |ids[i]| == least then FreeLength(ids[..i] + ids[i + 1..], least + 1) else least
  }

  lemma {:induction false} LettersAreAnId(length: nat)
    requires 0 < length <= MAX_ID_CHARS
    ensures IdFault(Letters(length)).None? && |Letters(length)| == length
  {
  }

  function Letters(length: nat): string {
    seq(length, i => 'a')
  }

  lemma ThePageIsMoved(home: string, away: string)
    requires home != away && IdFault(home).None? && IdFault(away).None?
    ensures Reached(Edited(home, away))
    ensures SendsDocumentsByPage(WriteOf(P, 1, ChildFields("", "t")))
    ensures Perform(Edited(home, away), WriteOf(P, 1, ChildFields("", "t"))) == Moved(home, away)
  {
    TheInkIsDrawn(home, away);
    LettersDiffer();
    hide Reached, Perform, IdFault, WriteOf, SendsDocumentsByPage;
    APlainWrite(Drawn(home, away), Key(Notebook, away), 1, PLAIN);
    APlainWrite(Edited(home, away), P, 1, ChildFields("", "t"));
  }

  lemma TheMoveUnskips(filter: DeltaFilter, home: string, away: string)
    requires !filter.treeOnly && home in filter.skipNotebooks && away !in filter.skipNotebooks
    ensures var earlier, later := Edited(home, away).store.rows, Moved(home, away).store.rows;
            && OnlyLeft(earlier, later, 7)
            && I !in Window(earlier, filter, 5, 7) && I in Window(later, filter, 5, 7)
            && Key(Notebook, away) in Window(earlier, filter, 5, 7)
            && Key(Notebook, away) in Window(later, filter, 5, 7)
            && (forall key :: key in Window(earlier, filter, 5, 7) ==> earlier[key].changeSeq == 7)
            && later[I].changeSeq == 6 && later[Key(Notebook, away)].changeSeq == 7
  {
    LettersDiffer();
    var earlier, later := Edited(home, away).store.rows, Moved(home, away).store.rows;
    assert Skipped(earlier, filter, I);
    assert !Skipped(later, filter, I);
  }

  /** A window stamped with one value ends there. */
  lemma OneStampOneEnd(rows: Rows, query: Query, upper: nat, key: Key)
    requires key in Window(rows, query.filter, query.since, upper)
    requires forall other :: other in Window(rows, query.filter, query.since, upper) ==> rows[other].changeSeq == upper
    ensures !BoundaryOf(rows, query, upper, WEIGHTLESS).empty && FurthestEnd(rows, query, upper) == upper
  {
    BoundaryIsInside(rows, query, upper, WEIGHTLESS);
    var window := Window(rows, query.filter, query.since, upper);
    var entries := Listing(window);
    ListingLists(window);
    EmptyListing(window, entries);
    BoundaryIsOptimal(entries, query.limit, MAX_DELTA_BYTES, WEIGHTLESS.weigh);
    var n := CountThrough(entries, BoundaryOf(rows, query, upper, WEIGHTLESS).sequence);
    hide Cutoff, CountThrough, Lists, Listing, InBudget, WholeSequences;
    assert entries[n - 1].key in window && window[entries[n - 1].key] == entries[n - 1].row by {
      ListedRow(window, entries, n - 1);
    }
  }

  lemma WindowKeepsRows(rows: Rows, filter: DeltaFilter, since: nat, upper: nat)
    ensures forall key :: key in Window(rows, filter, since, upper) ==>
              key in rows && Window(rows, filter, since, upper)[key] == rows[key]
  {
  }

  lemma TheInkIntrudes(filter: DeltaFilter, limit: nat, home: string, away: string)
    requires !filter.treeOnly && home in filter.skipNotebooks && away !in filter.skipNotebooks
    ensures var earlier, later := Edited(home, away).store.rows, Moved(home, away).store.rows;
            && OnlyLeft(earlier, later, 7) && !Inside(earlier, later, Query(5, limit, filter), 7)
            && CanIntrude(7, earlier, later, Query(5, limit, filter))
  {
    var query, other := Query(5, limit, filter), Key(Notebook, away);
    var earlier, later := Edited(home, away).store.rows, Moved(home, away).store.rows;
    TheMoveUnskips(filter, home, away);
    WindowKeepsRows(earlier, filter, 5, 7);
    WindowKeepsRows(later, filter, 5, 7);
    hide Window, BoundaryOf, Edited, Moved, OnlyLeft;
    OneStampOneEnd(earlier, query, 7, other);
    assert Intrudes(7, earlier, later, query, I, other);
  }

  /** An id within the limit that is not on an accepted list. */
  ghost function Unlisted(ids: seq<string>): (id: string)
    requires |ids| <= MAX_SKIPPED_NOTEBOOKS
    ensures id !in ids && IdFault(id).None?
  {
    var length := FreeLength(ids, 1);
    LettersAreAnId(length);
    Letters(length)
  }

  /** Two states of one account with one push between them: what a pull's two reads can find. */
  ghost predicate OnePushApart(before: Core, after: Core) {
    Reached(before) && exists op: Op :: op.Pushed? && SendsDocumentsByPage(op) && Perform(before, op) == after
  }

  /**
   Whatever notebooks an accepted read skips, and whatever its limit: a run reaches an account of which a
   page moved out of one of them, between the two reads, brings an old row into the window; and the check
   can fail.
   */
  lemma EverySkippingReadCanBeSurprised(filter: DeltaFilter, limit: nat)
    requires ReadDeltaFilter("", filter.skipNotebooks) == Ok(filter) && filter.skipNotebooks != []
    ensures exists before, after, since: nat ::
              && OnePushApart(before, after)
              && !Inside(before.store.rows, after.store.rows, Query(since, limit, filter), before.counter)
              && CanIntrude(before.counter, before.store.rows, after.store.rows, Query(since, limit, filter))
  {
    var home, away := filter.skipNotebooks[0], Unlisted(filter.skipNotebooks);
    assert home in filter.skipNotebooks;
    TheInkIntrudes(filter, limit, home, away);
    ThePageIsMoved(home, away);
    var before, after := Edited(home, away), Moved(home, away);
    assert before.counter == 7;
    hide Inside, CanIntrude, Reached, Perform, WriteOf, SendsDocumentsByPage, Edited, Moved;
    assert WriteOf(P, 1, ChildFields("", "t")).Pushed? by { IsAPush(P, 1, ChildFields("", "t")); }
    assert OnePushApart(before, after);
  }

  lemma IsAPush(key: Key, baseVersion: nat, fields: Fields)
    ensures WriteOf(key, baseVersion, fields).Pushed?
  {
  }

  // ------------------------------------------------------------------ what a skipping client never hears of

  /** The page moved out of the skipped notebook. */
  function Shifted(home: string, away: string): Core { Written(Drawn(home, away), P, 2, ChildFields("", "t")) }

  lemma TheInkComesOut(filter: DeltaFilter, home: string, away: string)
    requires home != away && away !in filter.skipNotebooks
    ensures I in Shifted(home, away).store.rows && !Skipped(Shifted(home, away).store.rows, filter, I)
  {
    LettersDiffer();
  }

  lemma TheInkStaysUntold(filter: DeltaFilter, sizes: Sizes, home: string, away: string)
    requires home != away && IdFault(home).None? && IdFault(away).None?
    requires !filter.treeOnly && home in filter.skipNotebooks
    ensures KeepsUpWithout(Shifted(home, away), filter, sizes, I)
  {
    TheInkIsPassedOver(filter, sizes, home, away);
    LettersDiffer();
    hide Reached, KeepsUpWithout, Perform, IdFault, WriteOf, SendsDocumentsByPage, Skipped;
    APlainWrite(Drawn(home, away), P, 1, ChildFields("", "t"));
    AWriteLeavesItUntold(Drawn(home, away), P, 1, ChildFields("", "t"), filter, sizes, I);
  }

  /** A row that is beneath no skipped notebook, at or below the cursor of a reader that was never told of it. */
  ghost predicate IsWithheld(view: Skipping.View, filter: DeltaFilter, key: Key) {
    && key in view.core.store.rows && !Skipped(view.core.store.rows, filter, key)
    && view.reader.phase.Idle? && view.reader.cursor == view.core.counter && key !in view.reader.told
  }

  /**
   Content is withheld on the strength of where its page used to be. Whatever notebooks an accepted read
   leaves out, and whatever the rows weigh: a run ends with its reader caught up, and ink of a page that was
   moved out of one of them, before the last pull, is on no answer it ever had.
   */
  lemma AMovedPagesInkIsWithheld(filter: DeltaFilter, sizes: Sizes)
    requires ReadDeltaFilter("", filter.skipNotebooks) == Ok(filter) && filter.skipNotebooks != []
    ensures exists steps, key :: IsWithheld(Skipping.Run(steps, filter, sizes), filter, key)
  {
    var home, away := filter.skipNotebooks[0], Unlisted(filter.skipNotebooks);
    assert home in filter.skipNotebooks;
    TheInkStaysUntold(filter, sizes, home, away);
    TheInkComesOut(filter, home, away);
    hide Shifted, Skipped, Skipping.Run;
    var steps :| UpWithout(Skipping.Run(steps, filter, sizes), Shifted(home, away), I);
    assert IsWithheld(Skipping.Run(steps, filter, sizes), filter, I);
  }

  // ------------------------------------------------------------------ nothing left, and more to come

  const M := Key(Notebook, "m")
  const N := Key(Notebook, "n")

  function Two(): Core {
    Core(2, Store(map[M := RowOf(1, 1, None, PLAIN), N := RowOf(1, 2, None, PLAIN)], {}), map[], map[])
  }

  function Three(): Core { Written(Two(), M, 2, PLAIN) }

  lemma TwoLetters()
    ensures M != N && IdFault("m").None? && IdFault("n").None?
  {
    assert "m"[0] != "n"[0];
    assert '\0' !in "m" && '\0' !in "n";
  }

  lemma TwoAreWritten()
    ensures Reached(Two())
  {
    FreshIsReached();
    TwoLetters();
    hide Reached, Perform, IdFault, WriteOf, SendsDocumentsByPage;
    var one := Written(FRESH_ACCOUNT, M, 1, PLAIN);
    APlainWrite(FRESH_ACCOUNT, M, 0, PLAIN);
    APlainWrite(one, N, 0, PLAIN);
    assert Written(one, N, 1, PLAIN).store.rows == Two().store.rows;
  }

  lemma TheFirstIsRewritten()
    ensures Reached(Two()) && SendsDocumentsByPage(WriteOf(M, 1, PLAIN))
    ensures Perform(Two(), WriteOf(M, 1, PLAIN)) == Three()
  {
    TwoAreWritten();
    TwoLetters();
    hide Reached, Perform, IdFault, WriteOf, SendsDocumentsByPage;
    APlainWrite(Two(), M, 1, PLAIN);
  }

  lemma TheFirstIsGone()
    ensures OnlyLeft(Two().store.rows, Three().store.rows, 2)
    ensures Vacated(Two().store.rows, Three().store.rows, Query(0, 1, WHOLE), 1)
  {
    TwoLetters();
  }

  lemma TheirPageEndsAtTheFirst(sizes: Sizes)
    ensures var cutoff := BoundaryOf(Two().store.rows, Query(0, 1, WHOLE), 2, sizes);
            !cutoff.empty && PageEnd(cutoff, 2) == 1
  {
    TwoLetters();
    var window := Window(Two().store.rows, WHOLE, 0, 2);
    assert window == Two().store.rows;
    hide Cutoff, Listing, Window;
    AOneRowPageEndsAtTheFirst(window, M, N, sizes);
  }

  /**
   An empty page that promises more can be answered, whatever the rows weigh: in a run of three pushes, a
   pull of one row finds its page's end before the third of them and its rows after it.
   */
  lemma AnEmptyPageCanPromiseMore(sizes: Sizes)
    ensures OnePushApart(Two(), Three())
    ensures var result := PullFiltered(Two().counter, Two().store.rows, Three().store.rows, Three().purges,
                                       Query(0, 1, WHOLE), sizes);
            result.Ok? && result.value.changes == [] && result.value.purges == map[] && result.value.hasMore
  {
    TheFirstIsRewritten();
    TheFirstIsGone();
    TheirPageEndsAtTheFirst(sizes);
    IsAPush(M, 1, PLAIN);
    var before, after := Two().store.rows, Three().store.rows;
    hide Perform, WriteOf, Reached, SendsDocumentsByPage, BoundaryOf, PageEnd, Vacated, PullFiltered, OnlyLeft;
    assert OnePushApart(Two(), Three());
    AnEmptyAnswerWithMoreToCome(2, before, after, Three().purges, Query(0, 1, WHOLE), sizes);
  }
}
