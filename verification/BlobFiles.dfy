/**
 The content-addressed files attachments live in. A digest names bytes that hash to it, whole or not
 at all; uploads grow in a staging directory that nothing reads and a restart empties. Hashing is a
 function this model knows nothing about.
 */
module BlobFiles {
  import opened Outcomes
  import opened Tables
  import opened Changes

  newtype byte = x: int | 0 <= x < 256

  type Bytes = seq<byte>

  type Hash = Bytes -> Digest

  /** What survives a crash: partial uploads by their temporary name, and stored bytes by digest. */
  datatype Disk = Disk(staging: map<nat, Bytes>, files: map<Digest, Bytes>)

  /** A received upload that has not been published. */
  datatype StagedContent = StagedContent(name: nat, digest: Digest, byteCount: nat)

  datatype BlobError = InvalidDigest | ReadFailed | DigestMismatch | FileFault | NotFound

  /** A body as it arrives: some bytes, and whether reading it broke off after them. */
  datatype Source = Source(bytes: Bytes, broken: bool)

  /** Where staging can fail, apart from the body itself. */
  datatype StageFault = Creating | Syncing | Closing

  /** Where publishing can fail. Flushing fails after the rename: the file is there all the same. */
  datatype PublishFault = MakingDirectory | Checking | Renaming | Flushing

  ghost predicate Content(disk: Disk, hash: Hash) {
    forall digest :: digest in disk.files ==> hash(disk.files[digest]) == digest
  }

  /** Staged content whose partial is still there hashes to the digest it was received under. */
  ghost predicate StagedWhole(disk: Disk, staged: StagedContent, hash: Hash) {
    staged.name in disk.staging ==>
      hash(disk.staging[staged.name]) == staged.digest && |disk.staging[staged.name]| == staged.byteCount
  }

  function Discarded(disk: Disk, staged: StagedContent): Disk {
    disk.(staging := disk.staging - {staged.name})
  }

  /** The rename, when it is reached: the partial becomes the stored file. */
  function Renamed(disk: Disk, staged: StagedContent): Disk
    requires staged.name in disk.staging
  {
    Disk(disk.staging - {staged.name}, disk.files[staged.digest := disk.staging[staged.name]])
  }

  datatype Published = Published(disk: Disk, ok: bool)

  /** Publishing: nothing to do when the digest is stored, a failed rename when the partial is gone. */
  function PublishOn(disk: Disk, staged: StagedContent, fault: Option<PublishFault>): Published {
    if fault == Some(MakingDirectory) then Published(disk, false)
    else if fault == Some(Checking) then Published(disk, false)
    else if staged.digest in disk.files then Published(Discarded(disk, staged), true)
    else if fault == Some(Renaming) || staged.name !in disk.staging then Published(disk, false)
    else Published(Renamed(disk, staged), fault.None?)
  }

  /** Whatever fails, every stored file keeps its promise, nothing stored is touched, and success means stored. */
  lemma PublishingKeepsContent(disk: Disk, staged: StagedContent, fault: Option<PublishFault>, hash: Hash)
    requires Content(disk, hash) && StagedWhole(disk, staged, hash)
    ensures var published := PublishOn(disk, staged, fault);
            && Content(published.disk, hash)
            && (forall digest :: digest in disk.files ==>
                  digest in published.disk.files && published.disk.files[digest] == disk.files[digest])
            && (published.ok ==> staged.digest in published.disk.files && staged.name !in published.disk.staging)
            && published.disk.files.Keys <= disk.files.Keys + {staged.digest}
            && published.disk.staging.Keys <= disk.staging.Keys
  {
  }

  /**
   Publishing, exactly: it succeeds if the digest is stored already or the partial is there and nothing
   fails; the partial's bytes are then what is stored, also when all that fails is the flush after the
   rename; and the partial is used up by whatever got that far.
   */
  lemma PublishingIsExact(disk: Disk, staged: StagedContent, fault: Option<PublishFault>)
    ensures var published := PublishOn(disk, staged, fault);
            var reached := fault != Some(MakingDirectory) && fault != Some(Checking);
            var there := staged.digest in disk.files;
            var moves := reached && !there && staged.name in disk.staging && fault != Some(Renaming);
            && (published.ok <==> reached && (there || (staged.name in disk.staging && fault == None)))
            && (forall digest :: digest in published.disk.files <==>
                  digest in disk.files || (moves && digest == staged.digest))
            && (moves ==> published.disk.files[staged.digest] == disk.staging[staged.name])
            && (forall digest :: digest in disk.files ==> published.disk.files[digest] == disk.files[digest])
            && (forall name :: name in published.disk.staging <==>
                  name in disk.staging && !(name == staged.name && reached && (there || moves)))
            && (forall name :: name in published.disk.staging ==>
                  published.disk.staging[name] == disk.staging[name])
  {
  }

  class FileStore {
    const hash: Hash
    var staging: map<nat, Bytes>
    var files: map<Digest, Bytes>
    var nextName: nat

    ghost function View(): Disk
      reads this
    {
      Disk(staging, files)
    }

    ghost predicate Valid()
      reads this
    {
      Content(View(), hash) && forall name :: name in staging ==> name < nextName
    }

    /** Opening clears what interrupted uploads left behind and leaves every stored file alone. */
    constructor (hash: Hash, disk: Disk)
      requires Content(disk, hash)
      ensures Valid() && this.hash == hash
      ensures View() == Disk(map[], disk.files)
    {
      this.hash := hash;
      staging, files, nextName := map[], disk.files, 0;
    }

    /** Reads a body to its end without publishing it; whatever goes wrong, the partial is gone again. */
    method Stage(expectedDigest: Digest, source: Source, fault: Option<StageFault>)
      returns (staged: Result<StagedContent, BlobError>)
      requires Valid()
      modifies this
      ensures Valid() && files == old(files)
      ensures staged.Ok? <==>
                ValidDigest(expectedDigest) && !source.broken && hash(source.bytes) == expectedDigest && fault.None?
      ensures staged.Ok? ==>
                && staged.value.digest == expectedDigest && staged.value.byteCount == |source.bytes|
                && staged.value.name !in old(staging)
                && staging == old(staging)[staged.value.name := source.bytes]
                && StagedWhole(View(), staged.value, hash)
      ensures staged.Err? ==>
                staging == old(staging) &&
                staged.error ==
                  if !ValidDigest(expectedDigest) then InvalidDigest
                  else if fault == Some(Creating) then FileFault
                  else if source.broken then ReadFailed
                  else if hash(source.bytes) != expectedDigest then DigestMismatch
                  else FileFault
    {
      if !ValidDigest(expectedDigest) {
        return Err(InvalidDigest);
      }
      if fault == Some(Creating) {
        return Err(FileFault);
      }
      var name := nextName;
      nextName := nextName + 1;
      var arrived: Bytes := [];
      staging := staging[name := arrived];
      for i := 0 to |source.bytes|
        invariant arrived == source.bytes[..i]
        invariant staging == old(staging)[name := arrived]
        invariant Valid() && nextName == name + 1 && files == old(files)
      {
        arrived := arrived + [source.bytes[i]];
        staging := staging[name := arrived];
      }
      assert source.bytes[..|source.bytes|] == source.bytes;
      if source.broken {
        staging := staging - {name};
        assert staging == old(staging);
        return Err(ReadFailed);
      }
      if hash(arrived) != expectedDigest {
        staging := staging - {name};
        assert staging == old(staging);
        return Err(DigestMismatch);
      }
      if fault.Some? {
        staging := staging - {name};
        assert staging == old(staging);
        return Err(FileFault);
      }
      return Ok(StagedContent(name, expectedDigest, |arrived|));
    }

    method Publish(staged: StagedContent, fault: Option<PublishFault>) returns (ok: bool)
      requires Valid() && StagedWhole(View(), staged, hash)
      modifies this
      ensures Valid()
      ensures Published(View(), ok) == PublishOn(old(View()), staged, fault)
    {
      PublishingKeepsContent(View(), staged, fault, hash);
      if fault == Some(MakingDirectory) || fault == Some(Checking) {
        return false;
      }
      if staged.digest in files {
        Discard(staged);
        return true;
      }
      if fault == Some(Renaming) || staged.name !in staging {
        return false;
      }
      files := files[staged.digest := staging[staged.name]];
      staging := staging - {staged.name};
      return fault.None?;
    }

    /** Discarding what is already gone is not an error. */
    method Discard(staged: StagedContent)
      requires Valid()
      modifies this
      ensures Valid() && View() == Discarded(old(View()), staged) && nextName == old(nextName)
    {
      staging := staging - {staged.name};
    }

    method Exists(digest: Digest) returns (found: Result<bool, BlobError>)
      ensures found == if ValidDigest(digest) then Ok(digest in files) else Err(InvalidDigest)
    {
      return if ValidDigest(digest) then Ok(digest in files) else Err(InvalidDigest);
    }

    /** What is handed back hashes to what was asked for. */
    method Open(digest: Digest) returns (content: Result<Bytes, BlobError>)
      requires Valid()
      ensures content.Ok? <==> ValidDigest(digest) && digest in files
      ensures content.Ok? ==> hash(content.value) == digest
      ensures content.Err? ==> content.error == if ValidDigest(digest) then NotFound else InvalidDigest
    {
      if !ValidDigest(digest) {
        return Err(InvalidDigest);
      }
      if digest !in files {
        return Err(NotFound);
      }
      return Ok(files[digest]);
    }

    /** Removing what is not there is not an error; an unlink the file system refuses is. */
    method Remove(digest: Digest, refused: bool) returns (fault: Option<BlobError>)
      requires Valid()
      modifies this
      ensures Valid() && staging == old(staging)
      ensures fault == if !ValidDigest(digest) then Some(InvalidDigest) else if refused then Some(FileFault) else None
      ensures files == if fault.None? then old(files) - {digest} else old(files)
    {
      if !ValidDigest(digest) {
        return Some(InvalidDigest);
      }
      if refused {
        return Some(FileFault);
      }
      files := files - {digest};
      return None;
    }
  }
}
