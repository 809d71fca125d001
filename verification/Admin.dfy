/**
 The two actions an administrator has on a notebook, and the log that tells the devices: erasing an
 archived notebook for good, and deleting a notebook only the server still holds.
 */
module Admin {
  import opened Outcomes
  import opened Tables
  import opened Changes
  import opened Notebooks
  import opened Engine
  import opened PushPath
  import opened PushLaws

  /** What the purge log asks of a device: the highest cursor it presented, and whether it may return. */
  datatype DeviceRow = DeviceRow(lastPulledSeq: nat, revoked: bool)

  type Devices = map<string, DeviceRow>

  datatype AdminError = NotebookNotFound | NotebookNotArchived | NotebookNotCloudHosted

  /** An active device that has not yet presented a cursor at or past a gravestone. */
  predicate StillWaiting(devices: Devices, device: string, seqValue: nat) {
    device in devices && !devices[device].revoked && devices[device].lastPulledSeq < seqValue
  }

  /** The gravestones some active device has still to hear about. */
  function PrunePurges(purges: map<Key, nat>, devices: Devices): map<Key, nat> {
    map key | key in purges && exists device :: device in devices && StillWaiting(devices, device, purges[key])
      :: purges[key]
  }

  function NotebookKey(id: string): Key { Key(Notebook, id) }

  function EraseNotebook(core: Core, devices: Devices, id: string): Result<Core, AdminError> {
    var key := NotebookKey(id);
    if IdFault(id).Some? || key !in core.store.rows then Err(NotebookNotFound)
    else if core.store.rows[key].deletedAt.None? then Err(NotebookNotArchived)
    else
      Ok(core.(counter := core.counter + 1,
               store := DeleteSubtree(core.store, key),
               purges := PrunePurges(core.purges, devices)[key := core.counter + 1]))
  }

  function Tombstoned(row: Row, seqValue: nat, nowMillis: int): Row {
    row.(version := row.version + 1, changeSeq := seqValue, deletedAt := Some(nowMillis),
         updatedAt := nowMillis, writer := None)
  }

  function UnhostNotebook(core: Core, id: string, nowMillis: int): Result<Core, AdminError> {
    var key := NotebookKey(id);
    if IdFault(id).Some? || key !in core.store.rows then Err(NotebookNotFound)
    else
      var row := core.store.rows[key];
      if row.deletedAt.Some? || ShelfOf(Some(row)).cloudOnlyAt.None? then Err(NotebookNotCloudHosted)
      else
        Ok(core.(counter := core.counter + 1,
                 store := core.store.(rows := core.store.rows[key := Tombstoned(row, core.counter + 1, nowMillis)])))
  }

  // ------------------------------------------------------------------ the actions as they run

  /** Writes a gravestone; reports whether one for the same id was already standing. */
  method RecordPurge(database: AccountDatabase, key: Key, seqValue: nat) returns (replaced: bool)
    modifies database`purges
    ensures database.purges == old(database.purges)[key := seqValue]
    ensures replaced <==> key in old(database.purges)
  {
    replaced := key in database.purges;
    database.purges := database.purges[key := seqValue];
  }

  method DeleteArchivedNotebook(database: AccountDatabase, devices: Devices, id: string)
    returns (failure: Option<AdminError>)
    modifies database
    ensures database.batches == old(database.batches)
    ensures match EraseNotebook(old(database.CoreView()), devices, id)
            case Err(error) => failure == Some(error) && database.CoreView() == old(database.CoreView())
            case Ok(core) => failure == None && database.CoreView() == core
  {
    if IdFault(id).Some? {
      return Some(NotebookNotFound);
    }
    var key := NotebookKey(id);
    if key !in database.rows {
      return Some(NotebookNotFound);
    }
    if database.rows[key].deletedAt.None? {
      return Some(NotebookNotArchived);
    }
    var kept := DeleteSubtree(Store(database.rows, database.refs), key);
    database.rows, database.refs := kept.rows, kept.refs;
    // Pruned before the new gravestone is written, so it is never a candidate itself.
    database.purges := PrunePurges(database.purges, devices);
    database.changeSeq := database.changeSeq + 1;
    var _ := RecordPurge(database, key, database.changeSeq);
    return None;
  }

  method StopHostingCloudNotebook(database: AccountDatabase, id: string, nowMillis: int)
    returns (failure: Option<AdminError>)
    modifies database
    ensures database.batches == old(database.batches)
    ensures match UnhostNotebook(old(database.CoreView()), id, nowMillis)
            case Err(error) => failure == Some(error) && database.CoreView() == old(database.CoreView())
            case Ok(core) => failure == None && database.CoreView() == core
    ensures failure == None <==>
              && IdFault(id).None? && Key(Notebook, id) in old(database.rows)
              && old(database.rows)[Key(Notebook, id)].deletedAt.None?
              && old(database.rows)[Key(Notebook, id)].fields.NotebookFields?
              && old(database.rows)[Key(Notebook, id)].fields.cloudOnlyAt.Some?
    ensures failure == None ==>
              var key := Key(Notebook, id);
              var before := old(database.rows)[key];
              && database.changeSeq == old(database.changeSeq) + 1
              && database.rows == old(database.rows)[key := Row(before.version + 1, database.changeSeq, Some(nowMillis),
                                                                nowMillis, None, before.fields)]
  {
    if IdFault(id).Some? {
      return Some(NotebookNotFound);
    }
    var key := NotebookKey(id);
    if key !in database.rows {
      return Some(NotebookNotFound);
    }
    var row := database.rows[key];
    if row.deletedAt.Some? || ShelfOf(Some(row)).cloudOnlyAt.None? {
      return Some(NotebookNotCloudHosted);
    }
    database.changeSeq := database.changeSeq + 1;
    database.rows := database.rows[key := Tombstoned(row, database.changeSeq, nowMillis)];
    return None;
  }

  // ------------------------------------------------------------------ what the actions keep

  /** Erasing takes the notebook and everything whose parents lead to it, and nothing else. */
  lemma ErasingTakesTheSubtree(core: Core, devices: Devices, id: string)
    ensures var result := EraseNotebook(core, devices, id);
            result.Ok? ==>
              && NotebookKey(id) !in result.value.store.rows
              && result.value.store.rows.Keys <= core.store.rows.Keys
              && (forall key :: key in core.store.rows ==>
                    (key in result.value.store.rows <==> !Under(core.store.rows, key, NotebookKey(id))))
              && (forall key :: key in result.value.store.rows ==>
                    result.value.store.rows[key] == core.store.rows[key])
  {
    if EraseNotebook(core, devices, id).Ok? {
      CascadeOfOne(core.store.rows, NotebookKey(id));
    }
  }

  lemma ErasingOnlyRemoves(core: Core, devices: Devices, id: string)
    ensures var result := EraseNotebook(core, devices, id);
            result.Ok? ==>
              && result.value.store.rows.Keys <= core.store.rows.Keys
              && (forall key :: key in result.value.store.rows ==> result.value.store.rows[key] == core.store.rows[key])
              && NotebookKey(id) in core.store.rows && NotebookKey(id) !in result.value.store.rows
              && result.value.counter == core.counter + 1
  {
    if EraseNotebook(core, devices, id).Ok? {
      CascadeOfOne(core.store.rows, NotebookKey(id));
    }
  }

  lemma ErasingKeepsSound(core: Core, devices: Devices, id: string)
    requires Sound(core)
    ensures var result := EraseNotebook(core, devices, id);
            result.Ok? ==> Sound(result.value)
  {
    var result := EraseNotebook(core, devices, id);
    if result.Ok? {
      ErasingOnlyRemoves(core, devices, id);
      DeletingKeepsClosed(core.store, NotebookKey(id));
      hide Cascade, Closed, Under;
    }
  }

  lemma UnhostingKeepsSound(core: Core, id: string, nowMillis: int)
    requires Sound(core)
    ensures var result := UnhostNotebook(core, id, nowMillis);
            result.Ok? ==> Sound(result.value)
  {
    var result := UnhostNotebook(core, id, nowMillis);
    if result.Ok? {
      var rows := result.value.store.rows;
      forall key | key in rows && RowParent(rows, key).Some?
        ensures RowParent(rows, key).value in rows
      {
        assert RowParent(core.store.rows, key) == RowParent(rows, key);
      }
    }
  }

  /** Unhosting is an ordinary write: one row, one more version, the new sequence value. */
  lemma UnhostingAdvances(core: Core, id: string, nowMillis: int)
    ensures var result := UnhostNotebook(core, id, nowMillis);
            result.Ok? ==> Advanced(core, result.value) && result.value.counter == core.counter + 1
  {
  }

  /**
   Unhosting, exactly: it goes through for a sound id whose notebook is stored live and in the cloud, on
   whatever shelf. The notebook is then archived, with no device for an author and its shelf as it was, no
   other row has moved, and it can be erased.
   */
  lemma UnhostingIsExact(core: Core, devices: Devices, id: string, nowMillis: int)
    ensures var result, key := UnhostNotebook(core, id, nowMillis), Key(Notebook, id);
            && (result.Ok? <==>
                  && IdFault(id).None? && key in core.store.rows && core.store.rows[key].deletedAt.None?
                  && core.store.rows[key].fields.NotebookFields? && core.store.rows[key].fields.cloudOnlyAt.Some?)
            && (result.Err? ==>
                  result.error == if IdFault(id).Some? || key !in core.store.rows then NotebookNotFound
                                  else NotebookNotCloudHosted)
            && (result.Ok? ==>
                  var before, after := core.store.rows[key], result.value;
                  && key in after.store.rows && after.store.rows[key].deletedAt == Some(nowMillis)
                  && after.store.rows[key].updatedAt == nowMillis && after.store.rows[key].writer == None
                  && after.store.rows[key].fields == before.fields
                  && after.store.rows[key].version == before.version + 1
                  && after.store.rows[key].changeSeq == after.counter == core.counter + 1
                  && after.store.rows.Keys == core.store.rows.Keys && after.store.refs == core.store.refs
                  && (forall other :: other in core.store.rows && other != key ==>
                        after.store.rows[other] == core.store.rows[other])
                  && after.purges == core.purges && after.blobs == core.blobs
                  && EraseNotebook(after, devices, id).Ok?)
  {
  }

  /** Erasing, exactly: it goes through for a sound id whose notebook is stored as a tombstone. */
  lemma ErasingIsExact(core: Core, devices: Devices, id: string)
    ensures var result, key := EraseNotebook(core, devices, id), Key(Notebook, id);
            && (result.Ok? <==> IdFault(id).None? && key in core.store.rows && core.store.rows[key].deletedAt.Some?)
            && (result.Err? ==>
                  result.error == if IdFault(id).Some? || key !in core.store.rows then NotebookNotFound
                                  else NotebookNotArchived)
            && (result.Ok? ==>
                  var after := result.value;
                  && after.counter == core.counter + 1 && after.blobs == core.blobs
                  && (forall ref :: ref in after.store.refs <==>
                        ref in core.store.refs && !Under(core.store.rows, Key(Page, ref.pageId), key))
                  && key in after.purges && after.purges[key] == core.counter + 1
                  && (forall other :: other in after.purges && other != key ==>
                        other in core.purges && after.purges[other] == core.purges[other])
                  && (forall other :: other in core.purges && other != key ==>
                        (other in after.purges <==>
                           exists device :: device in devices && !devices[device].revoked &&
                                            devices[device].lastPulledSeq < core.purges[other])))
  {
    var key := Key(Notebook, id);
    if EraseNotebook(core, devices, id).Ok? {
      CascadeOfOne(core.store.rows, key);
      forall other | other in core.purges && other != key
        ensures other in EraseNotebook(core, devices, id).value.purges <==>
                  exists device :: device in devices && !devices[device].revoked &&
                                   devices[device].lastPulledSeq < core.purges[other]
      {
        PruningWaitsForEveryone(core.purges, devices, other);
      }
      hide Under, Cascade, PrunePurges, IdFault;
      assert PrunePurges(core.purges, devices).Keys <= core.purges.Keys by { PruningOnlyDrops(core.purges, devices); }
    }
  }

  lemma PruningOnlyDrops(purges: map<Key, nat>, devices: Devices)
    ensures forall key :: key in PrunePurges(purges, devices) ==>
              key in purges && PrunePurges(purges, devices)[key] == purges[key]
  {
  }

  /** The conflict branch of the gravestone's upsert is out of reach: a stored id has no gravestone. */
  lemma NoGravestoneStandsTwice(core: Core, devices: Devices, id: string)
    requires Retired(core) && EraseNotebook(core, devices, id).Ok?
    ensures NotebookKey(id) !in PrunePurges(core.purges, devices)
  {
    assert NotebookKey(id) in core.store.rows.Keys;
  }

  /** A gravestone is dropped only once every active device has presented a cursor at or past it. */
  lemma PruningWaitsForEveryone(purges: map<Key, nat>, devices: Devices, key: Key)
    requires key in purges
    ensures key in PrunePurges(purges, devices) <==>
            !(forall device :: device in devices && !devices[device].revoked ==>
                devices[device].lastPulledSeq >= purges[key])
    ensures key in PrunePurges(purges, devices) ==> PrunePurges(purges, devices)[key] == purges[key]
  {
    if device :| device in devices && !devices[device].revoked && devices[device].lastPulledSeq < purges[key] {
      assert StillWaiting(devices, device, purges[key]);
    }
  }
}
