/**
 The synced tables of one account: the eight entity kinds, the rows that hold them, the page
 reference table beside them, and the three primitives the database offers over them: a guarded
 upsert, a pipeline of upserts, and a cascading delete.
 */
module Tables {
  import opened Outcomes

  /** The registry, in apply order. */
  datatype Kind = Notebook | Section | Page | PageContent | InkStroke | InkErase | InkMove | Attachment

  const KIND_COUNT: nat := 8

  function Rank(kind: Kind): (rank: nat)
    ensures rank < KIND_COUNT
  {
    match kind
    case Notebook => 0
    case Section => 1
    case Page => 2
    case PageContent => 3
    case InkStroke => 4
    case InkErase => 5
    case InkMove => 6
    case Attachment => 7
  }

  function ParentKind(kind: Kind): (parent: Option<Kind>)
    ensures parent.Some? ==> Rank(parent.value) < Rank(kind)
  {
    match kind
    case Notebook => None
    case Section => Some(Notebook)
    case Page => Some(Section)
    case PageContent => Some(Page)
    case InkStroke => Some(Page)
    case InkErase => Some(Page)
    case InkMove => Some(Page)
    case Attachment => None
  }

  /** The kinds that index an account rather than hold its content. */
  predicate InTree(kind: Kind) {
    kind.Notebook? || kind.Section? || kind.Page?
  }

  function KindName(kind: Kind): string {
    match kind
    case Notebook => "notebook"
    case Section => "section"
    case Page => "page"
    case PageContent => "pageContent"
    case InkStroke => "inkStroke"
    case InkErase => "inkErase"
    case InkMove => "inkMove"
    case Attachment => "attachment"
  }

  /** The digest of an attachment's bytes, in the lower-case hexadecimal form it travels in. */
  type Digest = string

  datatype Key = Key(kind: Kind, id: string)

  /** The kind-specific half of a row. `body` stands for every column no rule here depends on. */
  datatype Fields =
    | NotebookFields(body: string, closedAt: Option<int>, cloudOnlyAt: Option<int>)
    | ChildFields(body: string, parentId: string)
    | ContentFields(body: string, pageId: string, blobRefs: seq<Digest>)
    | AttachmentFields(body: string, byteCount: int)

  predicate FieldsFit(kind: Kind, fields: Fields) {
    match kind
    case Notebook => fields.NotebookFields?
    case PageContent => fields.ContentFields?
    case Attachment => fields.AttachmentFields?
    case _ => fields.ChildFields?
  }

  function ParentId(fields: Fields): string {
    match fields
    case NotebookFields(_, _, _) => ""
    case ChildFields(_, parentId) => parentId
    case ContentFields(_, pageId, _) => pageId
    case AttachmentFields(_, _) => ""
  }

  datatype Row = Row(version: nat, changeSeq: nat, deletedAt: Option<int>, updatedAt: int,
                     writer: Option<string>, fields: Fields)

  type Rows = map<Key, Row>

  function ParentOf(kind: Kind, fields: Fields): (parent: Option<Key>)
    ensures parent.Some? ==> Rank(parent.value.kind) < Rank(kind)
  {
    match ParentKind(kind)
    case None => None
    case Some(parentKind) => Some(Key(parentKind, ParentId(fields)))
  }

  function RowParent(rows: Rows, key: Key): (parent: Option<Key>)
    requires key in rows
    ensures parent.Some? ==> Rank(parent.value.kind) < Rank(key.kind)
  {
    ParentOf(key.kind, rows[key].fields)
  }

  /** Every stored child's parent is stored. */
  ghost predicate Closed(rows: Rows) {
    forall key :: key in rows && RowParent(rows, key).Some? ==> RowParent(rows, key).value in rows
  }

  /** A row of page_blob_refs: this page's document names this digest. */
  datatype PageRef = PageRef(pageId: string, digest: Digest)

  datatype Store = Store(rows: Rows, refs: set<PageRef>)

  // ------------------------------------------------------------------ guarded upserts

  /** One entity that passed every check and is waiting to be written. */
  datatype PendingWrite = PendingWrite(key: Key, baseVersion: nat, deletedAt: Option<int>, updatedAt: int,
                                       writer: string, fields: Fields)

  function Stamp(write: PendingWrite, seqValue: nat): Row {
    Row(write.baseVersion + 1, seqValue, write.deletedAt, write.updatedAt, Some(write.writer), write.fields)
  }

  datatype WriteError =
    | ConcurrentWrite(key: Key)
    | ParentNotStored(key: Key)
    | SecondBodyForPage(key: Key)

  /** The UNIQUE (account_id, page_id) constraint on page_content, asked of one write. */
  predicate PageTaken(rows: Rows, write: PendingWrite) {
    write.key.kind.PageContent? &&
    exists other :: other in rows && other.kind.PageContent? && other != write.key &&
                    ParentId(rows[other].fields) == ParentId(write.fields)
  }

  /** The references a document leaves behind: replaced, not merged, and none for a tombstone. */
  function RefsAfter(refs: set<PageRef>, write: PendingWrite): set<PageRef> {
    if !write.fields.ContentFields? then refs
    else
      (set ref | ref in refs && ref.pageId != write.fields.pageId) +
      (if write.deletedAt.Some? then {}
       else set digest | digest in write.fields.blobRefs :: PageRef(write.fields.pageId, digest))
  }

  function WriteOne(store: Store, write: PendingWrite, seqValue: nat): (result: Result<Store, WriteError>)
  {
    var parent := ParentOf(write.key.kind, write.fields);
    if write.key in store.rows && store.rows[write.key].version != write.baseVersion then
      Err(ConcurrentWrite(write.key))
    else if PageTaken(store.rows, write) then
      Err(SecondBodyForPage(write.key))
    else if parent.Some? && parent.value !in store.rows then
      Err(ParentNotStored(write.key))
    else
      Ok(Store(store.rows[write.key := Stamp(write, seqValue)], RefsAfter(store.refs, write)))
  }

  /** The pipeline: every write in order, the first failure failing the whole. */
  function WriteAll(store: Store, writes: seq<PendingWrite>, seqValue: nat): Result<Store, WriteError> {
    if writes == [] then Ok(store)
    else
      match WriteAll(store, writes[..|writes| - 1], seqValue)
      case Err(error) => Err(error)
      case Ok(before) => WriteOne(before, writes[|writes| - 1], seqValue)
  }

  // ------------------------------------------------------------------ cascading delete

  /** The rows whose foreign key points into a set that is going. */
  function Beneath(rows: Rows, doomed: set<Key>): set<Key> {
    set key | key in rows && RowParent(rows, key).Some? && RowParent(rows, key).value in doomed
  }

  /** ON DELETE CASCADE: keep taking what points into the doomed set until nothing new does. */
  function Cascade(rows: Rows, doomed: set<Key>): set<Key>
    decreases |rows.Keys - doomed|
  {
    var more := Beneath(rows, doomed);
    if more <= doomed then doomed
    else
      CascadeAdvances(rows, doomed);
      Cascade(rows, doomed + more)
  }

  lemma CascadeAdvances(rows: Rows, doomed: set<Key>)
    requires !(Beneath(rows, doomed) <= doomed)
    ensures |rows.Keys - (doomed + Beneath(rows, doomed))| < |rows.Keys - doomed|
  {
    var taken :| taken in Beneath(rows, doomed) && taken !in doomed;
    assert taken in rows.Keys - doomed;
    ShrinkingSet(rows.Keys - (doomed + Beneath(rows, doomed)), rows.Keys - doomed);
  }

  lemma ShrinkingSet<T>(smaller: set<T>, larger: set<T>)
    requires smaller < larger
    ensures |smaller| < |larger|
  {
    assert larger == smaller + (larger - smaller);
    assert |larger| == |smaller| + |larger - smaller|;
  }

  /** The independent reading of a subtree: the chain of parents reaches the root. */
  ghost predicate Under(rows: Rows, key: Key, root: Key)
    decreases Rank(key.kind)
  {
    key == root ||
    (key in rows && RowParent(rows, key).Some? && Under(rows, RowParent(rows, key).value, root))
  }

  /** A key whose chain of parents reaches one of the roots. */
  ghost predicate BeneathAny(rows: Rows, key: Key, roots: set<Key>) {
    exists root :: root in roots && Under(rows, key, root)
  }

  lemma {:induction false} CascadeStaysBeneath(rows: Rows, doomed: set<Key>, roots: set<Key>)
    requires forall key :: key in doomed ==> BeneathAny(rows, key, roots)
    ensures forall key :: key in Cascade(rows, doomed) ==> BeneathAny(rows, key, roots)
    ensures doomed <= Cascade(rows, doomed)
    ensures Beneath(rows, Cascade(rows, doomed)) <= Cascade(rows, doomed)
    decreases |rows.Keys - doomed|
  {
    var more := Beneath(rows, doomed);
    if !(more <= doomed) {
      CascadeAdvances(rows, doomed);
      forall key | key in more
        ensures BeneathAny(rows, key, roots)
      {
        var root :| root in roots && Under(rows, RowParent(rows, key).value, root);
        assert Under(rows, key, root);
      }
      CascadeStaysBeneath(rows, doomed + more, roots);
    }
  }

  lemma {:induction false} ClosedSetHoldsSubtree(rows: Rows, gone: set<Key>, root: Key, key: Key)
    requires root in gone && Beneath(rows, gone) <= gone
    requires Under(rows, key, root)
    ensures key in gone
    decreases Rank(key.kind)
  {
    if key != root {
      ClosedSetHoldsSubtree(rows, gone, root, RowParent(rows, key).value);
      assert key in Beneath(rows, gone);
    }
  }

  /** A cascade takes exactly the subtrees of its roots, whatever the order the foreign keys fire in. */
  lemma CascadeIsTheSubtree(rows: Rows, roots: set<Key>)
    ensures forall key :: key in Cascade(rows, roots) <==> BeneathAny(rows, key, roots)
    ensures Beneath(rows, Cascade(rows, roots)) <= Cascade(rows, roots)
  {
    hide Cascade;
    forall key | key in roots
      ensures BeneathAny(rows, key, roots)
    {
      assert Under(rows, key, key);
    }
    CascadeStaysBeneath(rows, roots, roots);
    forall key | BeneathAny(rows, key, roots)
      ensures key in Cascade(rows, roots)
    {
      var root :| root in roots && Under(rows, key, root);
      ClosedSetHoldsSubtree(rows, Cascade(rows, roots), root, key);
    }
  }

  /** The subtree of one root, as a set of keys. */
  lemma CascadeOfOne(rows: Rows, root: Key)
    ensures forall key :: key in Cascade(rows, {root}) <==> Under(rows, key, root)
    ensures Beneath(rows, Cascade(rows, {root})) <= Cascade(rows, {root})
  {
    hide Cascade, Under;
    CascadeIsTheSubtree(rows, {root});
    forall key
      ensures BeneathAny(rows, key, {root}) <==> Under(rows, key, root)
    {
      assert root in {root};
    }
  }

  /** DELETE of one row with everything its foreign keys cascade to, references included. */
  function DeleteSubtree(store: Store, root: Key): Store {
    var gone := Cascade(store.rows, {root});
    Store(store.rows - gone, set ref | ref in store.refs && Key(Page, ref.pageId) !in gone)
  }

  lemma DeletingKeepsClosed(store: Store, root: Key)
    requires Closed(store.rows)
    ensures Closed(DeleteSubtree(store, root).rows)
  {
    var gone := Cascade(store.rows, {root});
    CascadeOfOne(store.rows, root);
    var kept := DeleteSubtree(store, root).rows;
    forall key | key in kept && RowParent(kept, key).Some?
      ensures RowParent(kept, key).value in kept
    {
      assert key !in Beneath(store.rows, gone);
      assert RowParent(store.rows, key).value in store.rows;
    }
  }
}
