/**
 What deleting a notebook means. A notebook on a shelf is not erased by a device's tombstone: the
 tombstone becomes retention, and the row stays live in the cloud.
 */
module Notebooks {
  import opened Outcomes
  import opened Tables

  /** The part of a stored notebook that decides what its deletion means. */
  datatype Shelf = Shelf(closedAt: Option<int>, cloudOnlyAt: Option<int>, hosted: bool)

  function ShelfOf(stored: Option<Row>): Shelf {
    match stored
    case None => Shelf(None, None, false)
    case Some(row) =>
      if row.fields.NotebookFields?
      then Shelf(row.fields.closedAt, row.fields.cloudOnlyAt, row.deletedAt.None?)
      else Shelf(None, None, false)
  }

  function Either(first: Option<int>, second: Option<int>): Option<int> {
    if first.Some? then first else second
  }

  /** The fields a tombstone is stored with when it is retained, or nothing when it is not. */
  function RetainedFields(fields: Fields, stored: Option<Row>, deletedAt: int): Option<Fields> {
    if !fields.NotebookFields? then None
    else
      var shelf := ShelfOf(stored);
      var closedAt := Either(fields.closedAt, shelf.closedAt);
      if !shelf.hosted || closedAt.None? then None
      else
        Some(fields.(closedAt := closedAt,
                     cloudOnlyAt := Either(Either(fields.cloudOnlyAt, shelf.cloudOnlyAt), Some(deletedAt))))
  }

  /**
   A tombstone for an open or never-hosted notebook is still a tombstone; one for a hosted notebook that
   either side calls closed never is. What is stored instead is on the cloud shelf, each time the change's
   own where it has one, else the stored one, and the deletion's where the cloud has none.
   */
  lemma RetentionRule(fields: Fields, stored: Option<Row>, deletedAt: int)
    requires fields.NotebookFields?
    ensures RetainedFields(fields, stored, deletedAt).Some? <==>
            stored.Some? && stored.value.fields.NotebookFields? && stored.value.deletedAt.None? &&
            (fields.closedAt.Some? || stored.value.fields.closedAt.Some?)
    ensures RetainedFields(fields, stored, deletedAt).Some? ==>
            var kept, before := RetainedFields(fields, stored, deletedAt).value, stored.value.fields;
            && kept.NotebookFields? && kept.body == fields.body
            && kept.closedAt.Some? && kept.cloudOnlyAt.Some?
            && (fields.closedAt.Some? ==> kept.closedAt == fields.closedAt)
            && (fields.closedAt.None? ==> kept.closedAt == before.closedAt)
            && (fields.cloudOnlyAt.Some? ==> kept.cloudOnlyAt == fields.cloudOnlyAt)
            && (fields.cloudOnlyAt.None? && before.cloudOnlyAt.Some? ==> kept.cloudOnlyAt == before.cloudOnlyAt)
            && (fields.cloudOnlyAt.None? && before.cloudOnlyAt.None? ==> kept.cloudOnlyAt == Some(deletedAt))
  {
  }

  /** Deleting a notebook that is already in the cloud again, and again, leaves both its times where they were. */
  lemma RetainingAgainKeepsTheTimes(fields: Fields, stored: Row, deletedAt: int)
    requires fields.NotebookFields? && fields.closedAt.None? && fields.cloudOnlyAt.None?
    requires stored.fields.NotebookFields? && stored.deletedAt.None?
    requires stored.fields.closedAt.Some? && stored.fields.cloudOnlyAt.Some?
    ensures RetainedFields(fields, Some(stored), deletedAt) ==
            Some(NotebookFields(fields.body, stored.fields.closedAt, stored.fields.cloudOnlyAt))
  {
  }

  /** The decoded notebook, updated in place the way the push path updates it. */
  class NotebookDraft {
    var body: string
    var closedAt: Option<int>
    var cloudOnlyAt: Option<int>

    function View(): Fields
      reads this
    {
      NotebookFields(body, closedAt, cloudOnlyAt)
    }

    constructor (fields: Fields)
      requires fields.NotebookFields?
      ensures View() == fields
    {
      body, closedAt, cloudOnlyAt := fields.body, fields.closedAt, fields.cloudOnlyAt;
    }

    method RetainOnDelete(stored: Option<Row>, deletedAt: int) returns (retained: bool)
      modifies this
      ensures retained <==> RetainedFields(old(View()), stored, deletedAt).Some?
      ensures View() == if retained then RetainedFields(old(View()), stored, deletedAt).value else old(View())
      ensures retained <==>
                stored.Some? && stored.value.fields.NotebookFields? && stored.value.deletedAt.None? &&
                (old(closedAt).Some? || stored.value.fields.closedAt.Some?)
      ensures body == old(body)
      ensures retained ==>
                var before := stored.value.fields;
                && closedAt == (if old(closedAt).Some? then old(closedAt) else before.closedAt)
                && cloudOnlyAt == (if old(cloudOnlyAt).Some? then old(cloudOnlyAt)
                                   else if before.cloudOnlyAt.Some? then before.cloudOnlyAt
                                   else Some(deletedAt))
    {
      var shelf := ShelfOf(stored);
      if !shelf.hosted {
        return false;
      }
      if closedAt.None? {
        closedAt := shelf.closedAt;
      }
      if closedAt.None? {
        return false;
      }
      if cloudOnlyAt.None? {
        cloudOnlyAt := shelf.cloudOnlyAt;
      }
      if cloudOnlyAt.None? {
        cloudOnlyAt := Some(deletedAt);
      }
      return true;
    }
  }
}
