/**
 The device rows behind sign-in, authentication and revocation: one row per installation, one token per
 row, and the acknowledged cursor the purge log waits for.
 */
module DeviceTable {
  import opened Outcomes
  import opened Admin

  /** `installation` is absent for clients that send none; those get a row per sign-in. */
  datatype DeviceEntry = DeviceEntry(account: string, installation: Option<string>, tokenHash: string,
                                     lastPulledSeq: nat, revoked: bool)

  type DeviceEntries = map<string, DeviceEntry>

  datatype DeviceError = DeviceNotFound | DeviceStillActive

  predicate SameInstallation(entry: DeviceEntry, account: string, installation: Option<string>) {
    installation.Some? && entry.account == account && entry.installation == installation
  }

  /** The two unique indexes. */
  ghost predicate Unique(entries: DeviceEntries) {
    && (forall a, b :: a in entries && b in entries && a != b ==> entries[a].tokenHash != entries[b].tokenHash)
    && (forall a, b :: a in entries && b in entries && a != b ==>
          !SameInstallation(entries[b], entries[a].account, entries[a].installation))
  }

  /** What the purge log sees of one account's devices. */
  function SeenByTheLog(entries: DeviceEntries, account: string): Devices {
    map id | id in entries && entries[id].account == account ::
        DeviceRow(entries[id].lastPulledSeq, entries[id].revoked)
  }

  predicate Authenticates(entries: DeviceEntries, tokenHash: string, id: string) {
    id in entries && entries[id].tokenHash == tokenHash && !entries[id].revoked
  }

  /** Signing in keeps both indexes: the installation's own row is the one replaced, and the token is new. */
  lemma RegisteringKeepsUnique(entries: DeviceEntries, id: string, entry: DeviceEntry)
    requires Unique(entries)
    requires forall other :: other in entries ==> entries[other].tokenHash != entry.tokenHash
    requires forall other :: other in entries && other != id ==>
               !SameInstallation(entries[other], entry.account, entry.installation)
    ensures Unique(entries[id := entry])
  {
    var after := entries[id := entry];
    forall a, b | a in after && b in after && a != b
      ensures after[a].tokenHash != after[b].tokenHash
      ensures !SameInstallation(after[b], after[a].account, after[a].installation)
    {
      if a != id && b != id {
        assert entries[a].tokenHash != entries[b].tokenHash;
        assert !SameInstallation(entries[b], entries[a].account, entries[a].installation);
      }
    }
  }

  /** The installation's row, if it has one, is its only one. */
  lemma OnlyOneRow(entries: DeviceEntries, found: string, account: string, installation: Option<string>)
    requires Unique(entries) && found in entries && SameInstallation(entries[found], account, installation)
    ensures forall other :: other in entries && other != found ==>
              !SameInstallation(entries[other], account, installation)
  {
    forall other | other in entries && other != found
      ensures !SameInstallation(entries[other], account, installation)
    {
      assert !SameInstallation(entries[other], entries[found].account, entries[found].installation);
    }
  }

  /** The token a replaced row had is nobody's any more. */
  lemma TheOldTokenIsGone(entries: DeviceEntries, id: string, after: DeviceEntries)
    requires Unique(entries) && id in entries && id in after && after == entries[id := after[id]]
    requires after[id].tokenHash != entries[id].tokenHash
    ensures forall other :: other in after ==> after[other].tokenHash != entries[id].tokenHash
  {
  }

  /** The purge log sees a sign-in as a device that has presented nothing yet. */
  lemma SeenAfterSignIn(entries: DeviceEntries, id: string, entry: DeviceEntry)
    requires id in entries ==> entries[id].account == entry.account
    ensures SeenByTheLog(entries[id := entry], entry.account) ==
            SeenByTheLog(entries, entry.account)[id := DeviceRow(entry.lastPulledSeq, entry.revoked)]
  {
  }

  class DeviceStore {
    var entries: DeviceEntries

    ghost predicate Valid()
      reads this
    {
      Unique(entries)
    }

    constructor ()
      ensures Valid() && entries == map[]
    {
      entries := map[];
    }

    /**
     Signing in. An installation that has a row gets its token replaced, its revocation cleared and its
     acknowledgement reset; anything else gets a new row. Whatever the row's token was stops working.
     */
    method RegisterDevice(account: string, installation: Option<string>, tokenHash: string, freshId: string)
      returns (id: string)
      requires Valid() && freshId !in entries
      requires forall other :: other in entries ==> entries[other].tokenHash != tokenHash
      modifies this
      ensures Valid()
      ensures id in old(entries) ==>
                && installation.Some? && old(entries)[id].account == account
                && old(entries)[id].installation == installation
      ensures id !in old(entries) ==>
                id == freshId &&
                forall other :: other in old(entries) && installation.Some? ==>
                  old(entries)[other].account != account || old(entries)[other].installation != installation
      ensures id in entries && entries == old(entries)[id := DeviceEntry(account, installation, tokenHash, 0, false)]
      ensures SeenByTheLog(entries, account) == SeenByTheLog(old(entries), account)[id := DeviceRow(0, false)]
      ensures Authenticates(entries, tokenHash, id)
      ensures id in old(entries) ==> forall other :: !Authenticates(entries, old(entries)[id].tokenHash, other)
    {
      id := freshId;
      if exists other :: other in entries && SameInstallation(entries[other], account, installation) {
        var found :| found in entries && SameInstallation(entries[found], account, installation);
        id := found;
        OnlyOneRow(entries, found, account, installation);
        TheOldTokenIsGone(entries, id, entries[id := DeviceEntry(account, installation, tokenHash, 0, false)]);
      }
      RegisteringKeepsUnique(entries, id, DeviceEntry(account, installation, tokenHash, 0, false));
      SeenAfterSignIn(entries, id, DeviceEntry(account, installation, tokenHash, 0, false));
      hide Unique, SeenByTheLog;
      entries := entries[id := DeviceEntry(account, installation, tokenHash, 0, false)];
    }

    /** The lookup behind every request: a revoked device is the same as an unknown one. */
    method AuthenticateDeviceToken(tokenHash: string) returns (caller: Result<(string, string), DeviceError>)
      requires Valid()
      ensures caller.Ok? <==>
              exists id :: id in entries && entries[id].tokenHash == tokenHash && !entries[id].revoked
      ensures caller.Ok? ==>
                var (id, account) := caller.value;
                && id in entries && entries[id].tokenHash == tokenHash && !entries[id].revoked
                && entries[id].account == account
                && forall other :: other in entries && entries[other].tokenHash == tokenHash ==> other == id
      ensures caller.Err? ==> caller.error == DeviceNotFound
    {
      if exists id :: id in entries && Authenticates(entries, tokenHash, id) {
        var id :| id in entries && Authenticates(entries, tokenHash, id);
        return Ok((id, entries[id].account));
      }
      return Err(DeviceNotFound);
    }

    /** Revoking is scoped to the account, and doing it again is not an error. */
    method RevokeDevice(account: string, id: string) returns (fault: Option<DeviceError>)
      requires Valid()
      modifies this
      ensures Valid()
      ensures fault.None? <==> id in old(entries) && old(entries)[id].account == account
      ensures fault.None? ==> entries == old(entries)[id := old(entries)[id].(revoked := true)]
      ensures fault.None? ==> forall other :: !Authenticates(entries, entries[id].tokenHash, other)
      ensures fault.Some? ==> fault.value == DeviceNotFound && entries == old(entries)
    {
      if id !in entries || entries[id].account != account {
        return Some(DeviceNotFound);
      }
      entries := entries[id := entries[id].(revoked := true)];
      return None;
    }

    /** Removing is housekeeping: a device that still works is refused, not disconnected. */
    method DeleteRevokedDevice(account: string, id: string) returns (fault: Option<DeviceError>)
      requires Valid()
      modifies this
      ensures Valid()
      ensures fault.None? <==> id in old(entries) && old(entries)[id].account == account && old(entries)[id].revoked
      ensures fault == Some(DeviceStillActive) <==>
                id in old(entries) && old(entries)[id].account == account && !old(entries)[id].revoked
      ensures entries == if fault.None? then old(entries) - {id} else old(entries)
      ensures forall tokenHash, other ::
                Authenticates(entries, tokenHash, other) <==> Authenticates(old(entries), tokenHash, other)
    {
      if id in entries && entries[id].account == account && entries[id].revoked {
        entries := entries - {id};
        return None;
      }
      if id in entries && entries[id].account == account {
        return Some(DeviceStillActive);
      }
      return Some(DeviceNotFound);
    }

    /** A presented cursor only ever moves a device forward. */
    method RecordAcknowledgedSeq(id: string, cursor: nat)
      requires Valid()
      modifies this
      ensures Valid()
      ensures entries ==
              if id !in old(entries) then old(entries)
              else old(entries)[id := old(entries)[id].(lastPulledSeq :=
                     if old(entries)[id].lastPulledSeq < cursor then cursor else old(entries)[id].lastPulledSeq)]
    {
      if id in entries && entries[id].lastPulledSeq < cursor {
        entries := entries[id := entries[id].(lastPulledSeq := cursor)];
      }
    }
  }
}
