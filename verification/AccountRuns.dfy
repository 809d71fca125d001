/**
 Whole histories of one account: any sequence of pushes and administrator actions, in commit order.
 What holds of every reachable state, what the counter and the versions count, and which shelves a
 notebook can move between.
 */
module AccountRuns {
  import opened Outcomes
  import opened Tables
  import opened Changes
  import opened Notebooks
  import opened Engine
  import opened PushLaws
  import opened Admin
  import opened BlobTables

  datatype Op =
    | Pushed(raws: seq<RawChange>, writer: string)
    | Erased(id: string, devices: Devices)
    | Unhosted(id: string, nowMillis: int)
    | Uploaded(digest: Digest, byteCount: nat)
    | Swept(digest: Digest)
    | ReferencesPruned

  /** The commit an operation makes, if it makes one: a refused push or action leaves nothing. */
  function Commit(core: Core, op: Op): Option<Core> {
    match op
    case Pushed(raws, writer) =>
      (match ApplyEach(core, Decode(raws), writer)
       case Err(_) => None
       case Ok(effect) => if effect.answer.applied == [] then None else Some(effect.core))
    case Erased(id, devices) =>
      (match EraseNotebook(core, devices, id) case Err(_) => None case Ok(after) => Some(after))
    case Unhosted(id, nowMillis) =>
      (match UnhostNotebook(core, id, nowMillis) case Err(_) => None case Ok(after) => Some(after))
    case _ => None
  }

  /** Work on the attachment tables takes no sequence value and touches no row. */
  function Beside(core: Core, op: Op): Core {
    match op
    case Uploaded(digest, byteCount) =>
      if digest in core.blobs then core else core.(blobs := core.blobs[digest := byteCount])
    case Swept(digest) => if Named(core.store, digest) then core else core.(blobs := core.blobs - {digest})
    case ReferencesPruned =>
      core.(store := core.store.(refs := set ref | ref in core.store.refs && !DeletedPage(core.store.rows, ref.pageId)))
    case _ => core
  }

  function Perform(core: Core, op: Op): Core {
    match Commit(core, op)
    case None => Beside(core, op)
    case Some(after) => after
  }

  function After(core: Core, ops: seq<Op>): Core {
    if ops == [] then core else Perform(After(core, ops[..|ops| - 1]), ops[|ops| - 1])
  }

  const FRESH_ACCOUNT := Core(0, Store(map[], {}), map[], map[])

  // ------------------------------------------------------------------ every reachable state

  lemma CommitKeepsSound(core: Core, op: Op)
    requires Sound(core)
    ensures Commit(core, op).Some? ==> Sound(Commit(core, op).value)
  {
    hide Sound, ApplyEach, Decode, EraseNotebook, UnhostNotebook;
    match op
    case Pushed(raws, writer) => PushKeepsSound(core, raws, writer);
    case Erased(id, devices) => ErasingKeepsSound(core, devices, id);
    case Unhosted(id, nowMillis) => UnhostingKeepsSound(core, id, nowMillis);
    case _ =>
  }

  lemma BesideKeepsSound(core: Core, op: Op)
    requires Sound(core)
    ensures Sound(Beside(core, op))
    ensures Beside(core, op).store.rows == core.store.rows && Beside(core, op).purges == core.purges
    ensures Beside(core, op).counter == core.counter
  {
    hide DeletedPage;
  }

  lemma PerformKeepsSound(core: Core, op: Op)
    requires Sound(core)
    ensures Sound(Perform(core, op))
  {
    CommitKeepsSound(core, op);
    BesideKeepsSound(core, op);
    hide Sound, Commit, Beside;
  }

  /**
   Every reachable state of an account, uploads and sweeps included, is sound: every stored child's
   parent is stored, no id is both stored and retired, every stamp is at or below the counter, and
   every reference names a held blob.
   */
  lemma {:induction false} EveryRunIsSound(core: Core, ops: seq<Op>)
    requires Sound(core)
    ensures Sound(After(core, ops))
  {
    if ops != [] {
      hide Sound, Perform;
      EveryRunIsSound(core, ops[..|ops| - 1]);
      PerformKeepsSound(After(core, ops[..|ops| - 1]), ops[|ops| - 1]);
    }
  }

  // ------------------------------------------------------------------ what the numbers count

  function Commits(core: Core, ops: seq<Op>): nat {
    if ops == [] then 0
    else
      var prefix := ops[..|ops| - 1];
      Commits(core, prefix) + (if Commit(After(core, prefix), ops[|ops| - 1]).Some? then 1 else 0)
  }

  lemma CommitCountsOne(core: Core, op: Op)
    ensures Commit(core, op).Some? ==> Commit(core, op).value.counter == core.counter + 1
  {
    hide ApplyEach, Decode;
    match op
    case Pushed(raws, writer) => PushAdvances(core, raws, writer);
    case Erased(id, devices) =>
    case Unhosted(id, nowMillis) =>
    case _ =>
  }

  /** How many writes each stored row's present incarnation has had. */
  function Tally(before: Rows, after: Rows, counted: map<Key, nat>): map<Key, nat>
    requires before.Keys <= counted.Keys
    ensures Tally(before, after, counted).Keys == after.Keys
  {
    map key | key in after ::
      if key !in before then 1
      else if after[key].changeSeq == before[key].changeSeq then counted[key]
      else counted[key] + 1
  }

  function Writes(core: Core, ops: seq<Op>): (counted: map<Key, nat>)
    ensures counted.Keys == After(core, ops).store.rows.Keys
  {
    if ops == [] then map key | key in core.store.rows :: core.store.rows[key].version
    else
      var prefix := ops[..|ops| - 1];
      Tally(After(core, prefix).store.rows, After(core, ops).store.rows, Writes(core, prefix))
  }

  /** A committed step, row by row: kept as it was, written once more, written first, or gone. */
  ghost predicate RowMoved(before: Core, after: Core, key: Key) {
    key in after.store.rows ==>
      if key in before.store.rows then
        || after.store.rows[key] == before.store.rows[key]
        || (after.store.rows[key].changeSeq == before.counter + 1 &&
            after.store.rows[key].version == before.store.rows[key].version + 1)
      else after.store.rows[key].changeSeq == before.counter + 1 && after.store.rows[key].version == 1
  }

  lemma PerformMovesRows(core: Core, op: Op)
    ensures forall key :: RowMoved(core, Perform(core, op), key)
  {
    hide ApplyEach, Decode, EraseNotebook, UnhostNotebook;
    match op
    case Pushed(raws, writer) => PushAdvances(core, raws, writer);
    case Erased(id, devices) => ErasingOnlyRemoves(core, devices, id);
    case Unhosted(id, nowMillis) => UnhostingAdvances(core, id, nowMillis);
    case _ => hide Named, DeletedPage;
  }

  /**
   From a fresh account the counter is the number of effective commits, refused work counting for
   nothing, and a row's version is the number of writes its present incarnation has had.
   */
  lemma {:induction false} TheNumbersCount(ops: seq<Op>)
    ensures After(FRESH_ACCOUNT, ops).counter == Commits(FRESH_ACCOUNT, ops)
    ensures forall key :: key in After(FRESH_ACCOUNT, ops).store.rows ==>
              After(FRESH_ACCOUNT, ops).store.rows[key].version == Writes(FRESH_ACCOUNT, ops)[key]
  {
    if ops != [] {
      var prefix, op := ops[..|ops| - 1], ops[|ops| - 1];
      TheNumbersCount(prefix);
      var before := After(FRESH_ACCOUNT, prefix);
      CommitCountsOne(before, op);
      PerformMovesRows(before, op);
      EveryRunIsSound(FRESH_ACCOUNT, prefix);
      hide Commit;
      var after := After(FRESH_ACCOUNT, ops);
      forall key | key in after.store.rows
        ensures after.store.rows[key].version == Writes(FRESH_ACCOUNT, ops)[key]
      {
        assert RowMoved(before, after, key);
      }
    }
  }

  /** A refused push moves nothing: not the counter, not a row, not a reference. */
  lemma ARefusedPushMovesNothing(core: Core, raws: seq<RawChange>, writer: string)
    ensures var result := ApplyEach(core, Decode(raws), writer);
            result.Ok? && result.value.answer.applied == [] ==> result.value.core == core
  {
    PushAdvances(core, raws, writer);
  }

  // ------------------------------------------------------------------ the shelves of a notebook

  datatype Place = Absent | Open | Shelved | Archived

  /** On the rail, on a shelf (closed, or in the cloud), archived, or not there. */
  function PlaceOf(rows: Rows, key: Key): Place {
    if key !in rows then Absent
    else if rows[key].deletedAt.Some? then Archived
    else if ShelfOf(Some(rows[key])).closedAt.Some? then Shelved
    else Open
  }

  /** The client's rule: a notebook in the cloud is a closed one. */
  predicate CloudMeansClosed(fields: Fields) {
    fields.NotebookFields? && fields.cloudOnlyAt.Some? ==> fields.closedAt.Some?
  }

  ghost predicate CloudIsClosed(rows: Rows) {
    forall key :: key in rows ==> CloudMeansClosed(rows[key].fields)
  }

  ghost predicate FollowsTheClient(op: Op) {
    op.Pushed? ==> forall raw :: raw in op.raws && raw.RawChange? ==> CloudMeansClosed(raw.fields)
  }

  lemma WriteKeepsShelved(core: Core, store: Store, change: Change, writer: string, key: Key)
    requires Judge(change, FactsIn(core, store.rows, change), writer).Accept?
    requires change.Decoded? ==> FieldsFit(change.key.kind, change.fields)
    requires key.kind.Notebook? && PlaceOf(store.rows, key).Shelved?
    ensures var written := WriteOne(store, Judge(change, FactsIn(core, store.rows, change), writer).write,
                                    core.counter + 1);
            written.Ok? ==> !PlaceOf(written.value.rows, key).Archived? && !PlaceOf(written.value.rows, key).Absent?
  {
    hide PageTaken, RefsAfter;
    AcceptedIsFresh(core, store, change, writer);
  }

  lemma {:induction false} SequentialKeepsShelved(core: Core, changes: seq<Change>, writer: string, key: Key)
    requires DistinctKeys(changes)
    requires forall change :: change in changes && change.Decoded? ==> FieldsFit(change.key.kind, change.fields)
    requires key.kind.Notebook? && PlaceOf(core.store.rows, key).Shelved?
    ensures var place := PlaceOf(Sequential(core, changes, writer).store.rows, key);
            place.Open? || place.Shelved?
    ensures (forall i :: 0 <= i < |changes| && changes[i].Decoded? ==> changes[i].key != key) ==>
              PlaceOf(Sequential(core, changes, writer).store.rows, key).Shelved?
  {
    if changes != [] {
      var prefix, change := changes[..|changes| - 1], changes[|changes| - 1];
      SequentialKeepsShelved(core, prefix, writer, key);
      LastStep(core, changes, writer);
      var stage := Sequential(core, prefix, writer);
      if stage.failure.None? && Judge(change, FactsIn(core, stage.store.rows, change), writer).Accept? {
        AcceptedIsFresh(core, stage.store, change, writer);
        if change.key == key {
          UntouchedSoFar(core, changes, writer);
          assert PlaceOf(stage.store.rows, key).Shelved?;
          WriteKeepsShelved(core, stage.store, change, writer, key);
        } else {
          WriteElsewhere(core, stage.store, Judge(change, FactsIn(core, stage.store.rows, change), writer).write, key);
        }
      }
      hide *;
    }
  }

  lemma WriteElsewhere(core: Core, store: Store, write: PendingWrite, key: Key)
    requires write.key != key
    ensures var written := WriteOne(store, write, core.counter + 1);
            written.Ok? ==> PlaceOf(written.value.rows, key) == PlaceOf(store.rows, key)
  {
  }

  /** No push archives a shelved notebook, and none makes it vanish: at most it is reopened. */
  lemma NoPushArchivesAShelvedNotebook(core: Core, raws: seq<RawChange>, writer: string, id: string)
    requires PlaceOf(core.store.rows, NotebookKey(id)).Shelved?
    ensures var after := Perform(core, Pushed(raws, writer));
            PlaceOf(after.store.rows, NotebookKey(id)).Open? || PlaceOf(after.store.rows, NotebookKey(id)).Shelved?
  {
    DecodeIsOrderedAndDistinct(raws);
    DecodeIsFitting(raws);
    SequentialKeepsShelved(core, Decode(raws), writer, NotebookKey(id));
    hide Sequential, Decode, PlaceOf, AppliedIn;
  }

  ghost predicate Reopened(core: Core, ops: seq<Op>, start: nat, finish: nat, key: Key) {
    exists k :: start < k <= finish <= |ops| && PlaceOf(After(core, ops[..k]).store.rows, key).Open?
  }

  ghost predicate UnhostedBetween(ops: seq<Op>, start: nat, finish: nat, id: string) {
    exists k :: start <= k < finish <= |ops| && ops[k].Unhosted? && ops[k].id == id
  }

  /** One step away from the shelf: reopened by a push, or unhosted by the administrator. */
  lemma StepOffTheShelf(core: Core, op: Op, id: string)
    requires PlaceOf(core.store.rows, NotebookKey(id)).Shelved?
    ensures var place := PlaceOf(Perform(core, op).store.rows, NotebookKey(id));
            place.Open? || place.Shelved? || (place.Archived? && op.Unhosted? && op.id == id)
  {
    match op
    case Pushed(raws, writer) => NoPushArchivesAShelvedNotebook(core, raws, writer, id);
    case Erased(other, devices) =>
      if EraseNotebook(core, devices, other).Ok? {
        CascadeOfOne(core.store.rows, NotebookKey(other));
      }
    case Unhosted(other, nowMillis) =>
    case _ => hide Named, DeletedPage;
  }

  /**
   A run that leads from the shelf to the archive passes through a reopening, or through the
   administrator's decision to stop hosting that very notebook.
   */
  lemma {:induction false} FromShelfToArchive(core: Core, ops: seq<Op>, start: nat, finish: nat, id: string)
    requires start <= finish <= |ops|
    requires PlaceOf(After(core, ops[..start]).store.rows, NotebookKey(id)).Shelved?
    ensures PlaceOf(After(core, ops[..finish]).store.rows, NotebookKey(id)) in {Archived, Absent} ==>
              Reopened(core, ops, start, finish, NotebookKey(id)) || UnhostedBetween(ops, start, finish, id)
    decreases finish - start
  {
    if start < finish {
      var before := After(core, ops[..start]);
      assert ops[..start + 1][..start] == ops[..start];
      assert After(core, ops[..start + 1]) == Perform(before, ops[start]);
      StepOffTheShelf(before, ops[start], id);
      var place := PlaceOf(After(core, ops[..start + 1]).store.rows, NotebookKey(id));
      if place.Shelved? {
        hide *;
        FromShelfToArchive(core, ops, start + 1, finish, id);
        ReachedLater(core, ops, start, finish, id);
      }
    }
  }

  lemma ReachedLater(core: Core, ops: seq<Op>, start: nat, finish: nat, id: string)
    ensures Reopened(core, ops, start + 1, finish, NotebookKey(id)) || UnhostedBetween(ops, start + 1, finish, id) ==>
            Reopened(core, ops, start, finish, NotebookKey(id)) || UnhostedBetween(ops, start, finish, id)
  {
  }

  /** Only erasing makes a stored notebook vanish, and only an archived one can be erased. */
  lemma OnlyErasingMakesItVanish(core: Core, op: Op, id: string)
    requires NotebookKey(id) in core.store.rows && NotebookKey(id) !in Perform(core, op).store.rows
    ensures op.Erased? && op.id == id && PlaceOf(core.store.rows, NotebookKey(id)).Archived?
  {
    match op
    case Pushed(raws, writer) => PushAdvances(core, raws, writer);
    case Erased(other, devices) =>
      CascadeOfOne(core.store.rows, NotebookKey(other));
    case Unhosted(other, nowMillis) =>
    case _ => hide Named, DeletedPage;
  }

  // ------------------------------------------------------------------ in the cloud means closed

  lemma {:induction false} DecodeEachFollows(raws: seq<RawChange>)
    requires FollowsTheClient(Pushed(raws, ""))
    ensures forall change :: change in DecodeEach(raws) && change.Decoded? ==> CloudMeansClosed(change.fields)
  {
    if raws != [] {
      assert forall raw :: raw in raws[..|raws| - 1] ==> raw in raws;
      DecodeEachFollows(raws[..|raws| - 1]);
    }
  }

  lemma {:induction false} SequentialKeepsCloudClosed(core: Core, changes: seq<Change>, writer: string)
    requires CloudIsClosed(core.store.rows)
    requires forall change :: change in changes && change.Decoded? ==> CloudMeansClosed(change.fields)
    ensures CloudIsClosed(Sequential(core, changes, writer).store.rows)
  {
    if changes != [] {
      var prefix, change := changes[..|changes| - 1], changes[|changes| - 1];
      SequentialKeepsCloudClosed(core, prefix, writer);
      LastStep(core, changes, writer);
      var stage := Sequential(core, prefix, writer);
      AcceptedIsCloudClosed(change, FactsIn(core, stage.store.rows, change), writer);
      hide Sequential, Judge, FactsIn, CloudMeansClosed, PageTaken, RefsAfter;
    }
  }

  lemma AcceptedIsCloudClosed(change: Change, facts: Facts, writer: string)
    requires change.Decoded? ==> CloudMeansClosed(change.fields)
    ensures Judge(change, facts, writer).Accept? ==> CloudMeansClosed(Judge(change, facts, writer).write.fields)
  {
  }

  /** While clients put a notebook in the cloud only by closing it, every notebook in the cloud is on
      the shelf, so no push can archive one: only the administrator can. */
  lemma InTheCloudIsOnTheShelf(core: Core, op: Op)
    requires CloudIsClosed(core.store.rows) && FollowsTheClient(op)
    ensures CloudIsClosed(Perform(core, op).store.rows)
    ensures forall key :: key in core.store.rows && core.store.rows[key].deletedAt.None? &&
                          ShelfOf(Some(core.store.rows[key])).cloudOnlyAt.Some? ==>
              PlaceOf(core.store.rows, key).Shelved?
  {
    match op
    case Pushed(raws, writer) =>
      DecodeEachFollows(raws);
      SortByRankIsStable(DecodeEach(raws));
      forall change | change in Decode(raws) && change.Decoded?
        ensures CloudMeansClosed(change.fields)
      {
        assert change in multiset(Decode(raws));
        assert change in DecodeEach(raws);
      }
      SequentialKeepsCloudClosed(core, Decode(raws), writer);
      hide Sequential, Decode, AppliedIn, CloudMeansClosed;
    case Erased(id, devices) => ErasingOnlyRemoves(core, devices, id);
    case Unhosted(id, nowMillis) =>
    case _ => hide Named, DeletedPage;
  }
}
