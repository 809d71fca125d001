/**
 Two runs of the attachment protocol from nothing, both with a change that arrives between a pass's
 clearing and its deletion. One shows what the foreign key is there for, the other what it does not cover.
 */
module BlobHistories {
  import opened Outcomes
  import opened Tables
  import opened Changes
  import opened Engine
  import opened AccountRuns
  import opened Sending
  import opened BlobFiles
  import opened BlobTables
  import opened BlobProtocol

  ghost predicate Reaches(server: Server, setting: Setting) {
    exists steps :: Run(steps, setting) == server
  }

  lemma NewServerIsReached(setting: Setting)
    ensures Reaches(NEW_SERVER, setting)
  {
    var steps: seq<Step> := [];
    assert Run(steps, setting) == NEW_SERVER;
  }

  lemma ReachesOneMore(server: Server, step: Step, setting: Setting)
    requires Reaches(server, setting)
    ensures Reaches(Advance(server, step, setting), setting)
  {
    hide Advance;
    var steps :| Run(steps, setting) == server;
    assert (steps + [step])[..|steps|] == steps;
    assert Run(steps + [step], setting) == Advance(server, step, setting);
  }

  // ------------------------------------------------------------------ an upload nobody refers to yet

  const EMPTY := Store(map[], {})

  function Nothing(setting: Setting): Digest { setting.hash([]) }

  /** One account holding one file of no bytes. */
  function Holder(setting: Setting, store: Store, mark: Option<int>): Server {
    Server(Disk(map[], map[Nothing(setting) := []]), 1,
           map["a" := Ledger(store, map[Nothing(setting) := Claim(0, mark)], 0)], map[], map[])
  }

  /** The publisher half way: one job, holding its lock or not yet. */
  function Uploading(setting: Setting, disk: Disk, locked: bool, job: Job): Server {
    Server(disk, 1, map["a" := Ledger(EMPTY, map[], 0)],
           if locked then map[setting.lockKey(Nothing(setting)) := 0] else map[], map[0 := job])
  }

  lemma AnUploadStarts(setting: Setting)
    ensures var staged := StagedContent(0, Nothing(setting), 0);
            Reaches(Uploading(setting, Disk(map[0 := []], map[]), true, Publishing("a", staged)), setting)
  {
    hide Reaches;
    var digest := Nothing(setting);
    var staged := StagedContent(0, digest, 0);
    NewServerIsReached(setting);
    ReachesOneMore(NEW_SERVER, OpenAccount("a"), setting);
    var ready := Server(Disk(map[], map[]), 0, map["a" := Ledger(EMPTY, map[], 0)], map[], map[]);
    assert Advance(NEW_SERVER, OpenAccount("a"), setting) == ready;
    ReachesOneMore(ready, Receive(0, "a", digest, Source([], false)), setting);
    var received := Uploading(setting, Disk(map[0 := []], map[]), false, Received("a", staged));
    assert Advance(ready, Receive(0, "a", digest, Source([], false)), setting) == received;
    ReachesOneMore(received, TakeLock(0), setting);
    assert Advance(received, TakeLock(0), setting) ==
           Uploading(setting, Disk(map[0 := []], map[]), true, Publishing("a", staged));
  }

  lemma AnUploadIsPublished(setting: Setting)
    ensures Reaches(Uploading(setting, Disk(map[], map[Nothing(setting) := []]), true,
                              Recording("a", StagedContent(0, Nothing(setting), 0))), setting)
  {
    hide Reaches;
    var digest := Nothing(setting);
    var staged := StagedContent(0, digest, 0);
    AnUploadStarts(setting);
    hide Nothing;
    var publishing := Uploading(setting, Disk(map[0 := []], map[]), true, Publishing("a", staged));
    ReachesOneMore(publishing, Publish(0, None), setting);
    var recording := Uploading(setting, Disk(map[], map[digest := []]), true, Recording("a", staged));
    assert PublishOn(publishing.disk, staged, None) == Published(recording.disk, true);
    assert Advance(publishing, Publish(0, None), setting) == recording;
  }

  lemma AnUploadEnds(setting: Setting)
    ensures Reaches(Holder(setting, EMPTY, None), setting)
  {
    hide Reaches;
    var digest := Nothing(setting);
    AnUploadIsPublished(setting);
    hide Nothing;
    var recording := Uploading(setting, Disk(map[], map[digest := []]), true,
                               Recording("a", StagedContent(0, digest, 0)));
    ReachesOneMore(recording, Record(0, Committed), setting);
    var recorded := Server(recording.disk, 1, Holder(setting, EMPTY, None).ledgers, recording.locks,
                           map[0 := Releasing(digest)]);
    assert Recorded(recording.ledgers["a"], digest, 0) == recorded.ledgers["a"];
    assert Advance(recording, Record(0, Committed), setting).ledgers == recorded.ledgers;
    assert Advance(recording, Record(0, Committed), setting) == recorded;
    ReachesOneMore(recorded, Release(0), setting);
    assert Unlocked(recorded, 0) == map[];
    assert Advance(recorded, Release(0), setting) == Holder(setting, EMPTY, None);
  }

  /** A pass marks it and has nothing to clear. */
  lemma ItIsMarked(setting: Setting)
    ensures Reaches(Holder(setting, EMPTY, Some(0)), setting)
  {
    hide Reaches;
    AnUploadEnds(setting);
    var unmarked, marked := Holder(setting, EMPTY, None), Holder(setting, EMPTY, Some(0));
    assert !Reachable(EMPTY, Nothing(setting));
    ReachesOneMore(unmarked, Mark(0), setting);
    assert Marked(unmarked.ledgers["a"], 0) == marked.ledgers["a"];
    assert Advance(unmarked, Mark(0), setting).ledgers == marked.ledgers;
    ReachesOneMore(marked, Clear, setting);
    assert Unmarked(marked.ledgers["a"]) == marked.ledgers["a"];
    assert Advance(marked, Clear, setting).ledgers == marked.ledgers;
  }

  /** A change is stored, and a sweeper gets to the claim it was to delete. */
  lemma TheTablesMoveOn(setting: Setting, store: Store)
    requires Backed(store, map[Nothing(setting) := Claim(0, Some(0))])
    ensures Reaches(AboutToDelete(setting, store), setting)
  {
    hide Reaches, Backed;
    ItIsMarked(setting);
    var marked, moved := Holder(setting, EMPTY, Some(0)), Holder(setting, store, Some(0));
    ReachesOneMore(marked, MoveTables("a", store), setting);
    assert Advance(marked, MoveTables("a", store), setting).ledgers == moved.ledgers;
    ReachesOneMore(moved, Choose(0, "a", Nothing(setting)), setting);
    var chosen := moved.(jobs := map[0 := Chosen("a", Nothing(setting))]);
    assert Advance(moved, Choose(0, "a", Nothing(setting)), setting) == chosen;
    ReachesOneMore(chosen, TakeLock(0), setting);
    assert Advance(chosen, TakeLock(0), setting) == AboutToDelete(setting, store);
  }

  function AboutToDelete(setting: Setting, store: Store): Server {
    Holder(setting, store, Some(0)).(locks := map[setting.lockKey(Nothing(setting)) := 0],
                                     jobs := map[0 := Deleting("a", Nothing(setting))])
  }

  // ------------------------------------------------------------------ what the foreign key covers

  /** What one account held when the page, or the attachment row, was pushed. */
  function Before(setting: Setting): Core {
    Core(0, EMPTY, map[], map[Nothing(setting) := 0])
  }

  lemma TheNamedClaimStays(setting: Setting)
    ensures var digest, store := Nothing(setting), NewPageStore(1, Nothing(setting));
            var server := AboutToDelete(setting, store);
            && Backed(store, map[digest := Claim(0, Some(0))]) && OnALivePage(store, digest)
            && Advance(server, DeleteRow(0, setting.grace + 1, false), setting).ledgers == server.ledgers
  {
    var digest, store := Nothing(setting), NewPageStore(1, Nothing(setting));
    PageIsLive(digest);
    hide NewPageRows, Nothing;
    assert PageRef("p", digest) in store.refs;
    assert Named(store, digest) && OnALivePage(store, digest);
  }

  /**
   The foreign key is not only there for bugs. In this run a page that names the picture is pushed after
   the pass has cleared its marks: the claim is overdue, the guard of the delete would let it go, and the
   reference alone keeps it.
   */
  lemma ALivePageCanNameAnOverdueClaim(setting: Setting)
    ensures var digest := Nothing(setting);
            var store := Perform(Before(setting), Pushed(RawsOf(NewPage(digest)), "phone")).store;
            var server := AboutToDelete(setting, store);
            var claim := Claim(0, Some(0));
            && Reaches(server, setting) && server.ledgers["a"] == Ledger(store, map[digest := claim], 0)
            && Overdue(claim, setting.grace + 1, setting.grace) && OnALivePage(store, digest)
            && Advance(server, DeleteRow(0, setting.grace + 1, false), setting).ledgers == server.ledgers
  {
    NewPageIsCommitted(Before(setting), Nothing(setting));
    TheNamedClaimStays(setting);
    hide Perform, RawsOf, Advance, Reaches, Nothing, NewPage, NewPageStore, Backed, OnALivePage;
    TheTablesMoveOn(setting, NewPageStore(1, Nothing(setting)));
  }

  lemma PageIsLive(digest: Digest)
    ensures LivePage(NewPageRows(1, digest, 4), "p") && Key(Page, "p") in NewPageRows(1, digest, 4)
  {
    assert NewPageRows(1, digest, 3)[Key(Page, "p")] == RowOf(1, 1, None, ChildFields("", "s"));
  }

  // ------------------------------------------------------------------ what it does not

  function HeldRows(digest: Digest): Rows {
    map[Key(Attachment, digest) := RowOf(1, 1, None, AttachmentFields("", 0))]
  }

  function HeldChange(digest: Digest): Change {
    Decoded(Key(Attachment, digest), 0, None, 0, AttachmentFields("", 0), [digest])
  }

  lemma TheHeldRowIsCommitted(setting: Setting)
    requires ValidDigest(Nothing(setting))
    ensures Perform(Before(setting), Pushed(RawsOf([HeldChange(Nothing(setting))]), "phone")).store ==
            Store(HeldRows(Nothing(setting)), {})
  {
    var digest := Nothing(setting);
    assert '\0' !in digest by {
      assert forall i :: 0 <= i < |digest| ==> IsHex(digest[i]);
    }
    assert Sendable(HeldChange(digest));
    var nothing: Rows := map[];
    assert nothing[Key(Attachment, digest) := RowOf(1, 1, None, AttachmentFields("", 0))] == HeldRows(digest);
    assert Takes(Before(setting), EMPTY, HeldChange(digest), "phone", Store(HeldRows(digest), {}));
    hide Takes, Sendable, RawsOf, Perform;
    ASentChangeIsCommitted(Before(setting), HeldChange(digest), "phone", Store(HeldRows(digest), {}));
  }

  lemma TheHeldClaimIsDeletable(setting: Setting)
    ensures var ledger := Ledger(Store(HeldRows(Nothing(setting)), {}), map[Nothing(setting) := Claim(0, Some(0))], 0);
            && Deletable(ledger, Nothing(setting), setting.grace + 1, setting.grace)
            && Deleted(ledger, Nothing(setting)) == Ledger(ledger.store, map[], 0)
            && Reachable(ledger.store, Nothing(setting)) && Backed(ledger.store, ledger.claims)
  {
  }

  lemma TheHeldClaimGoes(setting: Setting)
    ensures var store := Store(HeldRows(Nothing(setting)), {});
            var swept := Advance(AboutToDelete(setting, store), DeleteRow(0, setting.grace + 1, false), setting);
            && swept.ledgers == map["a" := Ledger(store, map[], 0)]
            && Advance(swept, Unlink(0, false), setting).disk.files == map[]
  {
    var digest, store := Nothing(setting), Store(HeldRows(Nothing(setting)), {});
    TheHeldClaimIsDeletable(setting);
    hide Deletable, Deleted, HeldRows, Nothing;
    var ledgers := map["a" := Ledger(store, map[], 0)];
    assert !HeldAnywhere(ledgers, digest);
    hide HeldAnywhere;
    assert WithLedger(AboutToDelete(setting, store), "a", Ledger(store, map[], 0)).ledgers == ledgers;
  }

  /**
   A device's own row has no foreign key. In this run the row that says a device holds the picture is
   pushed after the pass has cleared its marks, and the claim and the file go all the same.
   */
  lemma AWantedClaimCanBeSwept(setting: Setting)
    requires ValidDigest(Nothing(setting))
    ensures var digest := Nothing(setting);
            var store := Perform(Before(setting), Pushed(RawsOf([HeldChange(digest)]), "phone")).store;
            var server := AboutToDelete(setting, store);
            var swept := Advance(server, DeleteRow(0, setting.grace + 1, false), setting);
            && Reaches(server, setting) && Reachable(store, digest)
            && swept.ledgers == map["a" := Ledger(store, map[], 0)]
            && Advance(swept, Unlink(0, false), setting).disk.files == map[]
  {
    TheHeldRowIsCommitted(setting);
    TheHeldClaimIsDeletable(setting);
    hide Perform, RawsOf, Reaches, Advance, Reachable, Deletable, Deleted, Backed, HeldRows, Nothing;
    TheTablesMoveOn(setting, Store(HeldRows(Nothing(setting)), {}));
    TheHeldClaimGoes(setting);
  }
}
