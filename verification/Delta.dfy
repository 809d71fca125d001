/**
 The delta queries: which rows a pull's window holds, the one order they come in, and where a page
 ends. The boundary is chosen from row counts and size estimates before anything is rendered.
 */
module Delta {
  import opened Outcomes
  import opened Tables

  // ------------------------------------------------------------------ ORDER BY change_seq, kind_rank, id

  predicate TextBefore(a: string, b: string) {
    b != "" && (a == "" || a[0] < b[0] || (a[0] == b[0] && TextBefore(a[1..], b[1..])))
  }

  lemma {:induction false} TextIsTotal(a: string, b: string)
    ensures a != b ==> TextBefore(a, b) || TextBefore(b, a)
    ensures !(TextBefore(a, b) && TextBefore(b, a))
    ensures !TextBefore(a, a)
  {
    if a != "" {
      if b != "" {
        TextIsTotal(a[1..], b[1..]);
        assert a == [a[0]] + a[1..] && b == [b[0]] + b[1..];
      }
      TextIsTotal(a[1..], a[1..]);
    }
  }

  lemma {:induction false} TextIsTransitive(a: string, b: string, c: string)
    requires TextBefore(a, b) && TextBefore(b, c)
    ensures TextBefore(a, c)
  {
    if a != "" && a[0] == b[0] == c[0] {
      TextIsTransitive(a[1..], b[1..], c[1..]);
    }
  }

  datatype Entry = Entry(key: Key, row: Row)

  predicate Before(a: Entry, b: Entry) {
    || a.row.changeSeq < b.row.changeSeq
    || (a.row.changeSeq == b.row.changeSeq &&
        (Rank(a.key.kind) < Rank(b.key.kind) ||
         (Rank(a.key.kind) == Rank(b.key.kind) && TextBefore(a.key.id, b.key.id))))
  }

  lemma RankNamesTheKind(a: Kind, b: Kind)
    ensures Rank(a) == Rank(b) ==> a == b
  {
  }

  lemma BeforeIsTotal(a: Entry, b: Entry)
    ensures a.key != b.key ==> Before(a, b) || Before(b, a)
    ensures !(Before(a, b) && Before(b, a))
    ensures !Before(a, a)
  {
    TextIsTotal(a.key.id, b.key.id);
    TextIsTotal(a.key.id, a.key.id);
    RankNamesTheKind(a.key.kind, b.key.kind);
    hide TextBefore, Rank;
  }

  lemma BeforeIsTransitive(a: Entry, b: Entry, c: Entry)
    requires Before(a, b) && Before(b, c)
    ensures Before(a, c)
  {
    if TextBefore(a.key.id, b.key.id) && TextBefore(b.key.id, c.key.id) {
      TextIsTransitive(a.key.id, b.key.id, c.key.id);
    }
    hide TextBefore, Rank;
  }

  ghost predicate Ordered(out: seq<Entry>) {
    forall i, j :: 0 <= i < j < |out| ==> Before(out[i], out[j])
  }

  /** A result set: exactly the table's rows, each once, in the order of the query. */
  ghost predicate Lists(table: Rows, out: seq<Entry>) {
    && Ordered(out)
    && (forall i :: 0 <= i < |out| ==> out[i].key in table && table[out[i].key] == out[i].row)
    && (forall key :: key in table ==> exists i :: 0 <= i < |out| && out[i].key == key)
  }

  predicate Least(table: Rows, key: Key) {
    key in table &&
    forall other :: other in table && other != key ==> Before(Entry(key, table[key]), Entry(other, table[other]))
  }

  lemma {:induction false} LeastExists(table: Rows)
    requires table != map[]
    ensures exists key :: Least(table, key)
    decreases |table|
  {
    var some :| some in table;
    var rest := table - {some};
    if rest == map[] {
      assert table.Keys == {some} + rest.Keys;
      assert Least(table, some);
    } else {
      LeastExists(rest);
      var least :| Least(rest, least);
      var a, b := Entry(some, table[some]), Entry(least, table[least]);
      BeforeIsTotal(a, b);
      if Before(b, a) {
        assert Least(table, least);
      } else {
        forall other | other in table && other != some
          ensures Before(a, Entry(other, table[other]))
        {
          if other != least {
            assert other in rest;
            BeforeIsTransitive(a, b, Entry(other, table[other]));
          }
        }
        assert Least(table, some);
      }
    }
  }

  lemma LeastIsOne(table: Rows, a: Key, b: Key)
    requires Least(table, a) && Least(table, b)
    ensures a == b
  {
    BeforeIsTotal(Entry(a, table[a]), Entry(b, table[b]));
    hide Before;
  }

  lemma OnlyOneLeast(table: Rows)
    ensures forall a, b :: Least(table, a) && Least(table, b) ==> a == b
  {
    forall a, b | Least(table, a) && Least(table, b)
      ensures a == b
    {
      LeastIsOne(table, a, b);
    }
    hide Least;
  }

  /** The query's result: the rows of a table in order. */
  function Listing(table: Rows): (out: seq<Entry>)
    decreases |table|
  {
    if table == map[] then []
    else
      LeastExists(table);
      OnlyOneLeast(table);
      var key :| Least(table, key);
      [Entry(key, table[key])] + Listing(table - {key})
  }

  lemma LeastThenRest(table: Rows, key: Key, rest: seq<Entry>)
    requires Least(table, key) && Lists(table - {key}, rest)
    ensures Lists(table, [Entry(key, table[key])] + rest)
  {
    hide Before;
    var out := [Entry(key, table[key])] + rest;
    forall i, j | 0 <= i < j < |out|
      ensures Before(out[i], out[j])
    {
      assert out[j] == rest[j - 1];
    }
    forall other | other in table
      ensures exists i :: 0 <= i < |out| && out[i].key == other
    {
      if other == key {
        assert out[0].key == other;
      } else {
        assert other in table - {key};
        var i :| 0 <= i < |rest| && rest[i].key == other;
        assert out[i + 1].key == other;
      }
    }
  }

  lemma {:induction false} ListingLists(table: Rows)
    ensures Lists(table, Listing(table))
    decreases |table|
  {
    if table != map[] {
      hide Least, Before;
      LeastExists(table);
      OnlyOneLeast(table);
      var key :| Least(table, key);
      assert key in table by { LeastIsStored(table, key); }
      ListingLists(table - {key});
      LeastThenRest(table, key, Listing(table - {key}));
      hide Lists;
    }
  }

  lemma LeastIsStored(table: Rows, key: Key)
    requires Least(table, key)
    ensures key in table
  {
  }

  lemma EmptyListing(table: Rows, out: seq<Entry>)
    requires Lists(table, out)
    ensures out == [] <==> table == map[]
  {
    hide Before;
    assert out != [] ==> out[0].key in table;
    if table != map[] {
      var key :| key in table;
    }
  }

  /** A table has one ordered listing, so any two ways of producing it agree. */
  lemma {:induction false} ListingIsUnique(table: Rows, a: seq<Entry>, b: seq<Entry>)
    requires Lists(table, a) && Lists(table, b)
    ensures a == b
  {
    hide Before;
    EmptyListing(table, a);
    EmptyListing(table, b);
    if table != map[] {
      var i :| 0 <= i < |a| && a[i].key == b[0].key;
      var j :| 0 <= j < |b| && b[j].key == a[0].key;
      assert a[i] == b[0] && b[j] == a[0];
      BeforeIsTotal(a[0], b[0]);
      assert a[0] == b[0];
      TailLists(table, a);
      TailLists(table, b);
      ListingIsUnique(table - {a[0].key}, a[1..], b[1..]);
    }
  }

  lemma TailLists(table: Rows, out: seq<Entry>)
    requires Lists(table, out) && out != []
    ensures Lists(table - {out[0].key}, out[1..])
  {
    var rest := table - {out[0].key};
    forall i | 0 <= i < |out[1..]|
      ensures out[1..][i].key in rest
    {
      assert Before(out[0], out[i + 1]);
      BeforeIsTotal(out[0], out[i + 1]);
      assert out[0].row == table[out[0].key];
    }
    hide Before;
    forall key | key in rest
      ensures exists i :: 0 <= i < |out[1..]| && out[1..][i].key == key
    {
      var i :| 0 <= i < |out| && out[i].key == key;
      assert out[1..][i - 1].key == key;
    }
  }

  // ------------------------------------------------------------------ WHERE

  datatype DeltaFilter = DeltaFilter(treeOnly: bool, skipNotebooks: seq<string>)

  const WHOLE := DeltaFilter(false, [])

  datatype Shape = Whole | TreeOnly | SkippingNotebooks

  function ShapeOf(filter: DeltaFilter): Shape {
    if filter.treeOnly then TreeOnly
    else if |filter.skipNotebooks| > 0 then SkippingNotebooks
    else Whole
  }

  predicate Reads(shape: Shape, kind: Kind) {
    !shape.TreeOnly? || InTree(kind)
  }

  /** A page's child is left out while the page sits in a skipped notebook, judged by where it is now. */
  predicate Skipped(rows: Rows, filter: DeltaFilter, key: Key)
    requires key in rows
  {
    && ShapeOf(filter).SkippingNotebooks?
    && ParentKind(key.kind) == Some(Page)
    && var page := Key(Page, ParentId(rows[key].fields));
       && page in rows
       && var section := Key(Section, ParentId(rows[page].fields));
          && section in rows
          && ParentId(rows[section].fields) in filter.skipNotebooks
  }

  /** In a closed table what a skipping read leaves out is the pages' children beneath a skipped notebook,
      pages and sections themselves staying in. */
  lemma SkippedIsBeneath(rows: Rows, filter: DeltaFilter, key: Key)
    requires Closed(rows) && key in rows
    ensures Skipped(rows, filter, key) <==>
            && ShapeOf(filter).SkippingNotebooks? && ParentKind(key.kind) == Some(Page)
            && exists id :: id in filter.skipNotebooks && Under(rows, key, Key(Notebook, id))
  {
    if ParentKind(key.kind) == Some(Page) {
      var page := RowParent(rows, key).value;
      var section := RowParent(rows, page).value;
      var notebook := RowParent(rows, section).value;
      assert page in rows && section in rows;
      forall id
        ensures Under(rows, key, Key(Notebook, id)) <==> notebook.id == id
      {
        assert Under(rows, key, Key(Notebook, id)) <==> Under(rows, page, Key(Notebook, id));
        assert Under(rows, page, Key(Notebook, id)) <==> Under(rows, section, Key(Notebook, id));
        assert Under(rows, section, Key(Notebook, id)) <==> notebook == Key(Notebook, id);
      }
    }
  }

  /** The rows of (since, upper] a statement of this filter has a branch for. */
  function Window(rows: Rows, filter: DeltaFilter, since: nat, upper: nat): Rows {
    map key | key in rows && Reads(ShapeOf(filter), key.kind) && since < rows[key].changeSeq <= upper &&
              !Skipped(rows, filter, key)
      :: rows[key]
  }

  // ------------------------------------------------------------------ where a page ends

  function CountThrough(entries: seq<Entry>, seqValue: nat): nat {
    if entries == [] then 0
    else
      CountThrough(entries[..|entries| - 1], seqValue) +
      (if entries[|entries| - 1].row.changeSeq <= seqValue then 1 else 0)
  }

  function WeightThrough(entries: seq<Entry>, seqValue: nat, weigh: Entry -> nat): nat {
    if entries == [] then 0
    else
      WeightThrough(entries[..|entries| - 1], seqValue, weigh) +
      (if entries[|entries| - 1].row.changeSeq <= seqValue then weigh(entries[|entries| - 1]) else 0)
  }

  /** The running totals through one sequence value are inside both budgets. */
  predicate Fits(entries: seq<Entry>, seqValue: nat, rowLimit: nat, byteBudget: nat, weigh: Entry -> nat) {
    CountThrough(entries, seqValue) <= rowLimit && WeightThrough(entries, seqValue, weigh) <= byteBudget
  }

  /** max(change_seq) FILTER (WHERE fits), over the first `n` rows. */
  function LargestFitting(entries: seq<Entry>, n: nat, rowLimit: nat, byteBudget: nat, weigh: Entry -> nat): Option<nat>
    requires n <= |entries|
  {
    if n == 0 then None
    else
      var rest := LargestFitting(entries, n - 1, rowLimit, byteBudget, weigh);
      var here := entries[n - 1].row.changeSeq;
      if !Fits(entries, here, rowLimit, byteBudget, weigh) then rest
      else if rest.Some? && rest.value > here then rest
      else Some(here)
  }

  datatype DeltaCutoff = DeltaCutoff(sequence: nat, complete: bool, empty: bool)

  /** The boundary query, over a window's rows in order: `min(change_seq)` is then the first row's. */
  function Cutoff(entries: seq<Entry>, rowLimit: nat, byteBudget: nat, weigh: Entry -> nat): DeltaCutoff {
    if entries == [] then DeltaCutoff(0, true, true)
    else
      var largest := LargestFitting(entries, |entries|, rowLimit, byteBudget, weigh);
      DeltaCutoff(if largest.Some? then largest.value else entries[0].row.changeSeq,
                  forall i :: 0 <= i < |entries| ==>
                      Fits(entries, entries[i].row.changeSeq, rowLimit, byteBudget, weigh),
                  false)
  }

  // ------------------------------------------------------------------ the boundary is the best one

  function TotalWeight(entries: seq<Entry>, weigh: Entry -> nat): nat {
    if entries == [] then 0
    else TotalWeight(entries[..|entries| - 1], weigh) + weigh(entries[|entries| - 1])
  }

  /** The first `n` rows end where a sequence value ends. */
  ghost predicate WholeSequences(entries: seq<Entry>, n: nat) {
    n <= |entries| && (0 < n < |entries| ==> entries[n - 1].row.changeSeq < entries[n].row.changeSeq)
  }

  ghost predicate InBudget(entries: seq<Entry>, n: nat, rowLimit: nat, byteBudget: nat, weigh: Entry -> nat)
    requires n <= |entries|
  {
    n <= rowLimit && TotalWeight(entries[..n], weigh) <= byteBudget
  }

  ghost predicate Rising(entries: seq<Entry>) {
    forall i, j :: 0 <= i < j < |entries| ==> entries[i].row.changeSeq <= entries[j].row.changeSeq
  }

  lemma OrderedRises(entries: seq<Entry>)
    requires Ordered(entries)
    ensures Rising(entries)
  {
    hide TextBefore, Rank;
    forall i, j | 0 <= i < j < |entries|
      ensures entries[i].row.changeSeq <= entries[j].row.changeSeq
    {
      assert Before(entries[i], entries[j]);
    }
  }

  /** The running totals through a value are the totals of a prefix that splits no sequence. */
  lemma {:induction false} ThroughIsAPrefix(entries: seq<Entry>, seqValue: nat, weigh: Entry -> nat)
    requires Rising(entries)
    ensures var n := CountThrough(entries, seqValue);
            && n <= |entries|
            && (forall i :: 0 <= i < |entries| ==> (entries[i].row.changeSeq <= seqValue <==> i < n))
            && WeightThrough(entries, seqValue, weigh) == TotalWeight(entries[..n], weigh)
  {
    if entries != [] {
      var prefix, last := entries[..|entries| - 1], entries[|entries| - 1];
      ThroughIsAPrefix(prefix, seqValue, weigh);
      var n := CountThrough(prefix, seqValue);
      assert forall i :: 0 <= i < |prefix| ==> prefix[i] == entries[i];
      if last.row.changeSeq <= seqValue {
        assert forall i :: 0 <= i < |prefix| ==> prefix[i].row.changeSeq <= last.row.changeSeq;
        assert entries[..|entries|] == entries && prefix[..n] == prefix;
      } else {
        assert entries[..n] == prefix[..n];
      }
      forall i | 0 <= i < |entries|
        ensures entries[i].row.changeSeq <= seqValue <==> i < CountThrough(entries, seqValue)
      {
        assert i < |prefix| ==> entries[i] == prefix[i];
      }
    }
  }

  lemma {:induction false} WeightGrows(entries: seq<Entry>, m: nat, n: nat, weigh: Entry -> nat)
    requires m <= n <= |entries|
    ensures TotalWeight(entries[..m], weigh) <= TotalWeight(entries[..n], weigh)
  {
    if m < n {
      assert entries[..n][..n - 1] == entries[..n - 1];
      WeightGrows(entries, m, n - 1, weigh);
    }
  }

  lemma {:induction false} LargestFittingIsLargest(entries: seq<Entry>, n: nat, rowLimit: nat, byteBudget: nat,
                                                   weigh: Entry -> nat)
    requires n <= |entries|
    ensures var largest := LargestFitting(entries, n, rowLimit, byteBudget, weigh);
            && (largest.Some? ==>
                  Fits(entries, largest.value, rowLimit, byteBudget, weigh) &&
                  exists i :: 0 <= i < n && entries[i].row.changeSeq == largest.value)
            && (forall i :: 0 <= i < n && Fits(entries, entries[i].row.changeSeq, rowLimit, byteBudget, weigh) ==>
                  largest.Some? && entries[i].row.changeSeq <= largest.value)
  {
    hide Fits;
    if n > 0 {
      LargestFittingIsLargest(entries, n - 1, rowLimit, byteBudget, weigh);
    }
  }

  /** A prefix of whole sequences is the rows through its last row's value, and fits exactly when that does. */
  lemma WholePrefixFits(entries: seq<Entry>, n: nat, rowLimit: nat, byteBudget: nat, weigh: Entry -> nat)
    requires Rising(entries) && 0 < n && WholeSequences(entries, n)
    ensures CountThrough(entries, entries[n - 1].row.changeSeq) == n
    ensures InBudget(entries, n, rowLimit, byteBudget, weigh) <==>
            Fits(entries, entries[n - 1].row.changeSeq, rowLimit, byteBudget, weigh)
  {
    ThroughIsAPrefix(entries, entries[n - 1].row.changeSeq, weigh);
    var count := CountThrough(entries, entries[n - 1].row.changeSeq);
    assert n - 1 < count;
    if n < |entries| {
      assert !(n < count);
    }
  }

  /**
   The page the boundary query chooses is the longest prefix of whole sequences inside both budgets,
   or, when none fits, exactly the first sequence. It is never empty and never splits a sequence.
   */
  lemma {:induction false} BoundaryIsOptimal(entries: seq<Entry>, rowLimit: nat, byteBudget: nat, weigh: Entry -> nat)
    requires Ordered(entries) && entries != []
    ensures var cutoff := Cutoff(entries, rowLimit, byteBudget, weigh);
            var n := CountThrough(entries, cutoff.sequence);
            && 0 < n && WholeSequences(entries, n) && entries[n - 1].row.changeSeq == cutoff.sequence
            && (cutoff.complete <==> InBudget(entries, |entries|, rowLimit, byteBudget, weigh))
            && (|| (InBudget(entries, n, rowLimit, byteBudget, weigh) &&
                    forall m :: n < m && WholeSequences(entries, m) ==>
                      !InBudget(entries, m, rowLimit, byteBudget, weigh))
                || (entries[n - 1].row.changeSeq == entries[0].row.changeSeq &&
                    forall m :: 0 < m && WholeSequences(entries, m) ==>
                      !InBudget(entries, m, rowLimit, byteBudget, weigh)))
  {
    OrderedRises(entries);
    LargestFittingIsLargest(entries, |entries|, rowLimit, byteBudget, weigh);
    var cutoff := Cutoff(entries, rowLimit, byteBudget, weigh);
    hide Ordered, LargestFitting, CountThrough, WeightThrough;
    var n := CountThrough(entries, cutoff.sequence);
    ThroughIsAPrefix(entries, cutoff.sequence, weigh);
    var at :| 0 <= at < |entries| && entries[at].row.changeSeq == cutoff.sequence;
    assert at < n;
    assert at == n - 1 || entries[at].row.changeSeq <= entries[n - 1].row.changeSeq;
    forall m | 0 < m && WholeSequences(entries, m)
      ensures InBudget(entries, m, rowLimit, byteBudget, weigh) <==>
              Fits(entries, entries[m - 1].row.changeSeq, rowLimit, byteBudget, weigh)
    {
      WholePrefixFits(entries, m, rowLimit, byteBudget, weigh);
    }
    CompleteMeansAllFit(entries, rowLimit, byteBudget, weigh);
  }

  lemma CompleteMeansAllFit(entries: seq<Entry>, rowLimit: nat, byteBudget: nat, weigh: Entry -> nat)
    requires Rising(entries) && entries != []
    ensures Cutoff(entries, rowLimit, byteBudget, weigh).complete <==>
            InBudget(entries, |entries|, rowLimit, byteBudget, weigh)
  {
    hide LargestFitting, CountThrough, WeightThrough;
    WholePrefixFits(entries, |entries|, rowLimit, byteBudget, weigh);
    forall i | 0 <= i < |entries| && InBudget(entries, |entries|, rowLimit, byteBudget, weigh)
      ensures Fits(entries, entries[i].row.changeSeq, rowLimit, byteBudget, weigh)
    {
      ThroughIsAPrefix(entries, entries[i].row.changeSeq, weigh);
      var n := CountThrough(entries, entries[i].row.changeSeq);
      WeightGrows(entries, n, |entries|, weigh);
    }
  }
}
