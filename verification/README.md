# The note server's sync protocol, attachment store and change stream, verified

A Dafny model of the parts of the server whose correctness does not show in any one function:

- **The sync protocol.** Clients push batches of changes made against versions they have seen; the server
  judges them, stores what it accepts under one new sequence value, and replays its answer to a retry.
  Clients pull by cursor, in pages bounded by rows and bytes, through four separate reads. An administrator
  erases notebooks for good and leaves a gravestone in a log that devices' acknowledged cursors prune.
- **The attachment store.** Uploads are staged, published and recorded while a sweeper marks, waits, deletes
  rows and unlinks files that several accounts share. A lock per digest spans database and file system, and
  anything can die at any step.
- **The change feed and the watch stream.** Wakeups coalesce in one-slot channels, revocations displace
  them, and a stream subscribes before it checks its credential again and reads.

Code that changes state step by step is modelled as methods over class fields (`AccountDatabase`,
`NotebookDraft`, `FileStore`, `AttachmentServer`, `Broker`, `Listener`, `DeviceStore`), each proved against a
specification function. Races are modelled as state machines whose steps are one statement, one file
operation or one broker call each, with theorems about every run.

`dafny verify dfyconfig.toml` checks everything. Files build on each other in this order:

| files | what they hold |
|---|---|
| `Outcomes`, `Tables`, `Changes`, `Reading`, `Notebooks` | rows and their tree, guarded upserts, cascading deletes; decoding a batch, and what is refused; retention of shelved notebooks |
| `Engine`, `PushPath`, `PushLaws`, `BatchAnswers`, `PushPull`, `PushAnswers`, `Replay` | one push, as specified and as it runs; what it keeps, answers and shows the next pull; retries |
| `Admin`, `AccountRuns`, `References` | the administrator's actions; whole histories of one account; a live page's references against its document |
| `Delta`, `Pull`, `Overruns`, `PullAnswers`, `Skipping` | the delta's order and windows, where a page ends, pulls and drains; what commits between a pull's reads can do; clients that leave notebooks out |
| `Replica`, `Agreement`, `Gravestones`, `CatchingUp` | the whole protocol: server, devices and clients in any interleaving; how long the purge log remembers |
| `BlobFiles`, `BlobTables`, `BlobProtocol`, `BlobLaws`, `BlobSizes`, `Sweeper`, `SweepConvergence`, `SweepTroubles` | files, claims, the racing protocol, what its runs keep, lengths; the code paths, repeated passes, passes in which candidates fail |
| `Sending`, `Histories`, `PullHistories`, `DeviceHistories`, `BlobHistories` | batches as clients write them, and runs from nothing that reach what fails below |
| `ChangeFeed`, `WatchStream`, `StreamRuns`, `DeviceTable`, `Handlers` | the broker, streams and credentials, device rows, the order of commit and event |

## What turned out not to hold

Each of these has a run from an empty server that reaches the failure, and a theorem that says exactly when
the property does hold.

- *A replica holds every row at or below its cursor.* Everything committed is delivered
  (`NothingIsEverSteppedOver`), but a client that deletes a purged notebook "along with everything beneath
  it" (engine.go:47-49) also deletes pages of a section that was moved out of the notebook and whose new
  place is past the page it just read. Those pages are never sent again. Agreement holds exactly when no
  step strands a row (`ReplicasAgreeUnlessStranded`), and a run of ordinary requests, with paging alone,
  strands one (`DeviceHistories.APageCanBeStranded`).
- *A revoked device can never push again* (the comment on `PrunePurges`). Signing in again revives the row.
  An erased notebook can be stored anew exactly once some later erasure found every active device past its
  gravestone (`TheErasedReturnExactlyOnceForgotten`), and a run in which the log was pruned while the device
  was revoked ends with one stored (`AReturningDeviceBringsItBack`). Purge safety is therefore stated for
  devices active without interruption, and for clients that push only notebooks they have
  (`AnErasedNotebookStaysErased`); the gravestone itself waits for every active device, whatever anybody
  pushes (`AGravestoneWaitsForEveryDevice`).
- *By the time a blob is considered for deletion nothing alive points at it, so the foreign key fires only on
  a bug* (blobs.go:249-258 and the schema). A page pushed after the clearing pass names an overdue claim:
  `BlobHistories.ALivePageCanNameAnOverdueClaim`. A live attachment row has no foreign key at all: a claim
  the delete may take is still wanted exactly when one holds it (`OnlyAttachmentsAreUnprotected`), and a run
  takes one (`BlobHistories.AWantedClaimCanBeSwept`).
- *A page's references keep its pictures.* Pruning drops the references of a deleted page; a push that revives
  the page alone does not restore them, and a run loses its pictures (`ARevivedPageLosesItsPictures`). Over
  whole runs live pages' references are their documents' exactly when no push revives a page whose stored
  references differ from its document without sending the document (`ReferencesFollowUnlessRevivedBare`).
- *A window only loses rows between two reads.* True exactly while what was skipped stays skipped
  (`AWindowShrinksUnlessUnskipped`), so always for whole and tree reads. A run reaches an account on which a
  read is surprised, for every list of notebooks the handler accepts (`EverySkippingReadCanBeSurprised`), and
  the overrun check is safe exactly when no latecomer shares its page with another sequence value
  (`TheCheckIsSafeExactlyWithoutIntruders`).
- *An empty `changes` with `hasMore` true cannot happen* (openapi.yaml:484). It does exactly when everything
  the page was measured on was rewritten, erased or moved beneath a skipped notebook before the rows were read
  (`AnEmptyPageWithMoreToCome`), and a run of three pushes gets there (`AnEmptyPageCanPromiseMore`). The cursor
  still moves (`APageWithMoreToComeAdvances`), and a quiet account never answers so
  (`AQuietPageIsTheNextStretch`).
- *Content is never withheld on the strength of where its page used to be* (synctables.go:577-578). True
  of each read by itself, but the cursor has passed what an earlier one skipped. A client that leaves notebooks
  out misses nothing exactly while nothing it passed over comes out (`NothingIsMissedUnlessItComesOut`), and a run ends with a moved
  page's ink never sent (`AMovedPagesInkIsWithheld`).
- *A withdrawn credential ends its streams.* A stream is told to stop exactly when a withdrawal of its device
  was heard of (`AStreamIsToldExactlyWhatWasHeard`, `ADeadTokenIsToldUnlessUnheard`); one that commits while
  its caller hears a failure is announced to nobody (`AnUnheardRevocationStopsNothing`), and a stream under
  that very token is all that goes on (`NoStreamOutlivesItsCredential`, `AnUnheardTokenWorksForNobody`).

## Model

| member | source | states |
|---|---|---|
| Changes.DecodeChanges | internal/syncengine/changes.go:99-199 | the loop with its set of seen entities, then the stable sort, produces the decoded batch the specification defines, refusals in place |
| Changes.OnlyTheFirstOfADuplicateCounts | internal/syncengine/changes.go:160-199 | of two changes addressing one entity the later is refused as malformed, even when the first was refused for its own fields |
| Changes.SortByRankIsStable | internal/syncengine/changes.go:111-124 | the sort orders by apply rank, loses nothing and keeps each kind's changes in the order sent |
| Changes.DecodeIsOrderedAndDistinct | internal/syncengine/changes.go:99-124 | one slot per input, parents' kinds before children's, no entity accepted twice |
| Reading.RefusedExactly | internal/syncengine/changes.go:99-199 | exactly which elements of a push are refused as they are read, with what kind, id and reason: unreadable, of no kind there is, under an id or version there cannot be, addressed before, with another kind's fields, failing their own checks, or an attachment under no digest; every other is decoded field by field as it was sent |
| Notebooks.RetentionRule | internal/store/notebooks.go:67-131 | a tombstone is kept back exactly when the notebook is stored live and either side calls it closed; what is stored has the change's own shelf times, else the stored ones, else the deletion's for the cloud |
| Notebooks.RetainingAgainKeepsTheTimes | internal/store/notebooks.go:98-106 | deleting a notebook that is in the cloud already leaves both its shelf times where they were |
| Notebooks.NotebookDraft.RetainOnDelete | internal/store/notebooks.go:67-108 | the receiver ends with the retained shelf times, value by value, or is left alone when the deletion stands |
| Engine.DeferredIsSequential | internal/syncengine/engine.go:94-281 | judging a whole batch on facts read once and writing at the end gives the store and the outcomes of judging and writing one change at a time; a concurrent write or a missing parent row cannot fail it |
| Engine.PlanIsApplied | internal/syncengine/engine.go:249-281 | the applied and rejected lists and the pipeline of deferred writes are the answer and the store of the one-at-a-time push |
| PushPath.AccountDatabase.ReadChangeContext | internal/store/changecontext.go:39-151 | its four maps hold exactly the stored rows, parents, held digests and gravestones among what was asked |
| PushPath.AccountDatabase.ReadBatchContext | internal/syncengine/engine.go:300-350 | one bulk read answers every question any change of the run will ask, each digest asked once |
| PushPath.AccountDatabase.WriteChanges | internal/store/synctables.go:444-506 | writes leave in order and the first refused one fails the whole pipeline |
| PushAnswers.AWriteIsExact | internal/store/synctables.go:444-506 | one guarded upsert: when it goes through, the row it stores, and what becomes of its page's references |
| PushPath.AccountDatabase.DecideBatch | internal/syncengine/engine.go:99-259 | runs of one kind, each with one read, decide what the plan over the whole batch decides |
| PushPath.AccountDatabase.ApplyChangeBatch | internal/syncengine/engine.go:67-298 | the transaction as it runs, replay log included, is the one-at-a-time push: same tables, same answer, same verdict on whether work was committed |
| PushLaws.PushAdvances | internal/syncengine/engine.go:261-281 | a push moves the counter by one and stamps what it wrote, version by version, or applies nothing and changes nothing; its cursor is the counter |
| PushLaws.PushKeepsSound | internal/syncengine/engine.go:133-257 | stored children keep stored parents, retired ids stay out of the tables, stamps stay at or below the counter, references name stored pages and held digests |
| BlobLaws.APushFailsInTwoWaysOnly | internal/store/synctables.go:444-506 | no push fails on a concurrent write or a missing parent row; the database refuses one only for a second document body for a page, or exactly because a digest held when it read was swept before it committed |
| BatchAnswers.EveryChangeIsAnsweredOnce | internal/syncengine/engine.go:94-283 | the applied and rejected lists together name every input exactly once, counted with multiplicity |
| BatchAnswers.MissingParentIsExact | internal/syncengine/engine.go:133-147 | a child is refused for its parent exactly when the parent is neither stored nor accepted anywhere in the same batch, whatever order the client sent |
| PushPull.AcceptanceIsExact | internal/syncengine/engine.go:133-222 | a change is accepted exactly when parent, attachments, gravestone and version all allow it; a conflict carries the stored row, and a retired id is never reported as a conflict |
| PushAnswers.DecidedExactly | internal/syncengine/engine.go:133-222 | every change of a push is answered by the first of its checks that fails, over the tables as they were found and what the same push accepts: parent, held bytes, their length, gravestone, version; a conflict carries the stored row, and with no check failing the next version is the answer |
| PushPull.AnswersMatchTheStore | internal/syncengine/engine.go:224-281 | every change answered as applied is stored as it was sent (or retained), at the next version and the new sequence value, and no other row moves |
| PushAnswers.WhatIsAppliedWasSent | internal/syncengine/engine.go:94-297 | every applied answer is an element of the push that passed its own checks, under its own names and at the version it is stored at; every row that is new or changed is such an element, stored as it was sent; no row goes |
| PushAnswers.APushIsRefusedExactlyForABody | internal/store/synctables.go:444-506 | the tables refuse a push exactly when an accepted document, at its turn, finds another body at its page |
| PushAnswers.EveryRunKeepsOneBody | internal/store/synctables.go:444-506 | in every state of every run a page has at most one body |
| PushAnswers.WhatARequestDoes | internal/syncengine/engine.go:67-298 | one request: the logged answer and no change inside the window, no change when the tables refuse, else the work and its log entry, with nobody else's answers touched and only expired ones dropped; committed exactly when the counter moved |
| PushPull.ThePullAfterAPush | internal/syncengine/engine.go:261-297 | a pull from the counter the push found shows the rows of exactly the changes it answered as applied |
| PushPull.NoLostUpdate | internal/syncengine/engine.go:196-222 | two changes to one entity against one version cannot both be applied; the second is refused, and a conflict hands it the row the first left |
| PushPull.ReferencesFollowTheDocuments | internal/store/pagecontent.go:169-209 | after any push the reference rows are exactly what live documents name: replaced, not merged, and none for a tombstone |
| References.PruningKeepsLiveReferences | internal/store/blobs.go:249-272 | the prune leaves every live page's references alone: they are its document's after it exactly if they were before it |
| References.AWriteKeepsReferencesUnlessItRevives | internal/store/pagecontent.go:169-209 | where live pages' references are what their documents name, one write keeps that if and only if it is not a live write of a page whose stored references differ from its stored document's |
| References.ABatchKeepsReferencesUnlessItRevives | internal/syncengine/engine.go:94-281 | a batch keeps it if and only if it leaves no such page live without sending its document along, whatever the order and whatever is refused |
| References.ReferencesAreLostExactlyByReviving | internal/store/blobs.go:249-306 | every operation on an account (push, erasure, unhosting, upload, sweep, prune) keeps it, except exactly a committed push that revives a page bare |
| References.ReferencesFollowUnlessRevivedBare | internal/store/blobs.go:249-306 | over whole runs: every live page's references are its document's throughout if and only if no push revives a page bare |
| References.AFollowedPictureIsKept | internal/store/blobs.go:370-434 | what that buys: a picture a live page's document names is claimed, and a sweep leaves it |
| Sending.ASentBatchIsReadAsSent | internal/syncengine/changes.go:99-199 | round trip: a batch written out in apply order, each entity once, is decoded to what was written |
| Sending.ASentBatchIsCommitted | internal/syncengine/engine.go:249-281 | if each of its changes is accepted on the store the one before it left, the whole batch is committed under one sequence value |
| Histories.ARevivedPageLosesItsPictures | internal/store/blobs.go:249-272 | counterexample, a run from a fresh account: a page deleted, pruned of its references and revived by a push of the page alone ends live, its document naming a picture whose claim was swept |
| Replay.RetryReplaysTheFirstAnswer | internal/syncengine/engine.go:83-92 | inside the window a device's batch id gets its first answer again and changes nothing, whatever ran in between and whatever the retry carries |
| Replay.PruningIsUnobservable | internal/store/synctables.go:770-845 | any two schedules of the sampled pruning answer every push of every run alike and leave the same rows |
| Tables.CascadeIsTheSubtree | internal/store/adminstats.go:164-215 | a cascading delete takes exactly the rows whose chain of parents reaches its roots |
| Admin.DeleteArchivedNotebook | internal/store/adminstats.go:183-244 | erases an archived notebook with its subtree, prunes the log, allocates a sequence value and records the gravestone, or reports which rule refused |
| Admin.StopHostingCloudNotebook | internal/store/adminstats.go:254-333 | goes through exactly for a sound id stored live and in the cloud; the row is then that notebook archived at the given time, one version on, with no author and its fields as they were; any other call changes nothing |
| Admin.UnhostingIsExact | internal/store/adminstats.go:254-333 | when it goes through, with which refusal it does not, what the archived row is, that no other row, reference or gravestone moves, and that the notebook can then be erased |
| Admin.ErasingIsExact | internal/store/adminstats.go:164-244 | erasing goes through exactly for a sound id stored as a tombstone; references go exactly with their pages, the gravestone stands at the new sequence value, and another goes exactly when no active device is short of it |
| Admin.ErasingTakesTheSubtree | internal/store/adminstats.go:164-215 | erasing removes the notebook and what hangs from it and leaves every other row as it was |
| Admin.NoGravestoneStandsTwice | internal/store/purges.go:34-54 | the conflict branch of the gravestone's upsert is unreachable: a stored id has no gravestone |
| Admin.PruningWaitsForEveryone | internal/store/purges.go:95-128 | a gravestone is dropped if and only if every active device has presented a cursor at or past it |
| AccountRuns.EveryRunIsSound | internal/store/adminstats.go:164-333 | over any run of pushes, administrator actions, uploads and sweeps: tree closure, retirement, sequence bounds and held references |
| AccountRuns.TheNumbersCount | internal/store/synctables.go:394-408 | the counter equals the number of effective commits and a row's version the number of writes of its present incarnation |
| AccountRuns.ARefusedPushMovesNothing | internal/syncengine/engine.go:261-281 | a batch refused in full moves neither counter nor row nor reference |
| AccountRuns.NoPushArchivesAShelvedNotebook | internal/syncengine/engine.go:229-241 | no push turns a live closed notebook into a tombstone or makes it vanish; at most it is reopened |
| AccountRuns.FromShelfToArchive | internal/store/adminstats.go:254-333 | a run from the shelf to the archive passes through a reopening or the administrator's decision about that very notebook |
| AccountRuns.OnlyErasingMakesItVanish | internal/store/adminstats.go:183-244 | only permanent deletion removes a stored notebook, and only an archived one |
| AccountRuns.InTheCloudIsOnTheShelf | internal/store/notebooks.go:67-131 | while clients put a notebook in the cloud only by closing it, every stored notebook in the cloud is on the shelf |
| Delta.ListingIsUnique | internal/store/synctables.go:593-625 | the (sequence, rank, id) order admits one listing of a table, so every way of producing it agrees |
| Delta.SkippedIsBeneath | internal/store/synctables.go:574-591 | a skipping read leaves out exactly the pages' children whose chain of parents reaches a skipped notebook as the tree is now |
| Delta.BoundaryIsOptimal | internal/store/synctables.go:627-726 | for any weight of an entry, its id, kind and row included: the boundary is the longest prefix of whole sequences inside both budgets, or exactly the first sequence when none fits, and `complete` means everything fits |
| Pull.BoundaryIsInside | internal/store/synctables.go:698-726 | the boundary lies inside the window, and is empty exactly when the window is |
| Pull.APageWithMoreToComeAdvances | internal/syncengine/engine.go:447-501 | with any commits between the reads, a page that promises more has moved its cursor short of the counter, and one that does not has reached it |
| Pull.CommitsOnlyShrinkAWindow | internal/store/synctables.go:358-408 | for whole and tree reads, commits between the reads only take rows out of the window |
| Overruns.AWindowShrinksUnlessUnskipped | internal/store/synctables.go:574-591 | for every shape of read: the later window lies inside the earlier one if and only if every row of the range that was skipped at the first read is skipped at the second |
| Overruns.APageOfWhatStaysSkippedNeverOverruns | internal/syncengine/engine.go:503-524 | for every shape of read: while what was skipped stays skipped, the check never fails |
| Overruns.TheCheckIsSafeExactlyWithoutIntruders | internal/syncengine/engine.go:503-524 | whatever commits between the reads: the check passes for every estimate no further out than the factor if and only if no latecomer can share the page with another sequence value |
| Overruns.WholeAndTreeReadsNeverOverrun | internal/syncengine/engine.go:503-524 | for whole and tree reads the check never fails, whatever commits between the reads, while every entry renders to at most four times its weight |
| Overruns.AnEmptyPageWithMoreToCome | docs/openapi.yaml:484-485 | for every shape of read, whatever commits in between: a page carries no change and promises more if and only if it ends short of the counter and every row it was measured on has since been rewritten, erased or moved beneath a skipped notebook |
| Overruns.AnEmptyAnswerWithMoreToCome | docs/openapi.yaml:484-485 | the same with the gravestones: the whole answer is empty exactly if besides no purge falls in its window |
| PullHistories.EverySkippingReadCanBeSurprised | internal/store/synctables.go:574-591 | counterexample for every list of notebooks the handler accepts and every limit, reached by a run from a fresh account: a push between the two reads moves a page out of a skipped notebook, which brings an old row into the window, and the check can fail |
| PullHistories.AnEmptyPageCanPromiseMore | docs/openapi.yaml:484-485 | counterexample, reached by a run of three pushes, for every row weight: a pull of one row answers nothing at all and promises more |
| Skipping.TheCursorCoversWhatWasSkipped | docs/openapi.yaml:467-475 | in every run, whatever commits between its reads: a row stored at or below the cursor of a client that leaves notebooks out was told as it is stored now, or was in that form beneath one of them at some state of the run |
| Skipping.RowsAreMissedExactlyByComingOut | internal/store/synctables.go:574-591 | from a state in which nothing is missing, a step misses something if and only if it brings out a row the client passed over |
| Skipping.NothingIsMissedUnlessItComesOut | internal/store/synctables.go:574-591 | over whole runs: such a client has been told throughout of everything at or below its cursor that is beneath none of them now, if and only if no row it passed over comes out |
| PullHistories.AMovedPagesInkIsWithheld | internal/store/synctables.go:571-591 | counterexample for every accepted list and every row weight, a run from nothing: the client is caught up, and ink of a page moved out of a skipped notebook before its last pull was on no answer it ever had |
| Pull.AQuietPageIsTheNextStretch | internal/syncengine/engine.go:431-501 | on a quiet account each page is the delta up to its cursor, never empty with more to come |
| Pull.StretchesJoin | internal/store/synctables.go:728-768 | reading to a cursor and on from it is one read past it |
| Pull.WriteChangePages | internal/httpapi/changewatch.go:142-187 | the page loop ends, its did-not-advance branch is dead, and what was sent is the delta, each row once and in order, with its purges, for every filter shape |
| PullAnswers.WhatAPullAnswers | internal/syncengine/engine.go:404-501 | a pull answers exactly the rows of its range as its last read found them, each once, by sequence value and parents first: the tree alone, or without what lies beneath the skipped notebooks; with the gravestones of the same range, none for a tree read; and promises more exactly when it stops short of the counter |
| PullAnswers.AWindowThatFitsIsOnePage | internal/syncengine/engine.go:478-501 | a window inside both budgets is one page: its cursor is the counter it was read under, and nothing more is promised |
| Replica.ProceedingKeepsReads | internal/syncengine/engine.go:431-501 | through counter, boundary, rows and purges, what a client has read so far stays a faithful part of its page while anything commits in between |
| Replica.PushBringsNothingBack | internal/syncengine/engine.go:180-194 | a client that keeps to the protocol cannot bring an erased notebook back with any batch |
| Replica.ErasingKeepsLog | internal/store/purges.go:95-128 | an erasure drops no gravestone an active device has still to hear of, and sets up its own past everything presented |
| Replica.AdvanceKeepsHolds | internal/syncengine/engine.go:382-501 | one step of the whole protocol (push, erase, unhost, sign-in, revoke, removal, each read of a pull, acknowledgement, application, tree scan) keeps the invariant |
| Agreement.DroppingAgreesUnlessStranded | internal/syncengine/engine.go:44-60 | deleting purged notebooks with everything beneath them keeps a replica in agreement if and only if nothing is stranded |
| Agreement.AdvanceKeepsTold | internal/syncengine/engine.go:431-501 | no step makes a client's cursor pass a stored row it was not told of |
| Agreement.NothingIsEverSteppedOver | internal/syncengine/engine.go:431-501 | in every run, whatever devices push and whatever commits between the reads, each row stored at or below a client's cursor is one it was told of at that version |
| Agreement.AgreementIsLostExactlyByStranding | internal/syncengine/engine.go:382-429 | from a state where every replica agrees, a step loses agreement if and only if it strands a row |
| Agreement.ReplicasAgreeUnlessStranded | internal/syncengine/engine.go:382-501 | over runs whose pushes keep to the protocol: replicas agree throughout if and only if no step strands a row |
| CatchingUp.ADeviceCatchesUp | internal/syncengine/engine.go:447-501 | left alone, a device that asks often enough, with whatever limits and row weights, ends at the counter and has been told of every stored row as it is stored; nothing else in the system has moved |
| CatchingUp.ADeviceCatchesUpWithErasures | internal/syncengine/engine.go:382-429 | and if it was active without interruption it then has nothing in any form that was erased |
| CatchingUp.TheLogSeesTheTable | internal/store/devices.go:39-260 | the protocol's sign-ins, revocations, removals and acknowledgements do to the devices the purge log sees what the device table does to its rows, and no other step touches one |
| Agreement.TheErasedAreNeverStored | internal/syncengine/engine.go:180-194 | no erased id is stored in any state of a run whose pushes keep to the protocol |
| Agreement.AnErasedNotebookStaysErased | internal/store/purges.go:56-128 | a device active without interruption that has an erased notebook in any form is still short of its erasure, and the gravestone it needs stands |
| Gravestones.AGravestoneStandsUntilEveryoneIsPast | internal/store/purges.go:95-128 | over every run, whatever the devices push: the gravestone of an erasure stands in a later state if and only if no erasure in between found every active device past it |
| Gravestones.AGravestoneWaitsForEveryDevice | internal/store/purges.go:95-128 | a device registered when a notebook was erased and active since finds the gravestone standing for as long as it has not presented a cursor at or past it, whatever it carries |
| Gravestones.TheErasedReturnExactlyOnceForgotten | internal/syncengine/engine.go:180-222 | in every run, whatever the devices push: a push that goes through stores an erased notebook anew, under a change that names no version, if and only if some erasure since found every active device past its gravestone |
| DeviceHistories.APageCanBeStranded | internal/syncengine/engine.go:44-60 | counterexample, reached from nothing by a run whose pushes keep to the protocol: every replica agrees, and applying the page just read drops a page that no later response carries; for every row weight, by paging alone |
| DeviceHistories.AReturningDeviceBringsItBack | internal/store/purges.go:56-128 | counterexample, reached from nothing: a device revoked while its notebooks are erased and their gravestones pruned signs in again, and its push stores an erased notebook |
| BlobFiles.PublishingKeepsContent | internal/blob/store.go:196-232 | whatever fails, stored files keep hashing to their names, nothing stored is touched, and success means stored |
| BlobFiles.PublishingIsExact | internal/blob/store.go:196-224 | when publishing succeeds, when it stores the partial's bytes all the same, and when the partial is used up, for each place it can fail |
| BlobFiles.FileStore.constructor | internal/blob/store.go:73-126 | opening empties the staging directory and leaves every stored file alone |
| BlobFiles.FileStore.Stage | internal/blob/store.go:148-194 | succeeds exactly for a well-formed digest, an unbroken body, a matching hash and a file system that creates, flushes and closes the file; otherwise no partial is left, and the error is the first of these that failed |
| BlobFiles.FileStore.Publish | internal/blob/store.go:196-224 | the rename, its dedup and its failures, the flush that fails after the rename included |
| BlobFiles.FileStore.Open | internal/blob/store.go:248-268 | what is handed back hashes to what was asked for |
| BlobFiles.FileStore.Remove | internal/blob/store.go:270-278 | removes one file, and removing what is not there is no error; a malformed digest and an unlink the file system refuses are reported and change nothing |
| BlobTables.DeletingBalances | internal/store/blobs.go:396-433 | the refund's clamp at zero never changes a value: what is refunded was charged |
| BlobTables.WhatWantsBytes | internal/store/blobs.go:284-334 | bytes are wanted exactly by a live page's reference row or a live attachment row of their digest |
| BlobTables.PruningLeavesLiveReferences | internal/store/blobs.go:249-306 | after the prune a digest is named exactly when a live page names it, and pruning makes nothing unreachable |
| BlobTables.MarksTellTheUnreachable | internal/store/blobs.go:308-334 | after mark and clear the marked claims are exactly the unreachable ones, older marks unmoved |
| BlobProtocol.OneAtATime | internal/store/blobs.go:178-230 | two workers past the lock are never on one digest, colliding lock keys included |
| BlobProtocol.AdvanceIsSafe | internal/httpapi/blobs.go:168-203 | every step of every publisher and sweeper, failures and deaths included, keeps a file behind every claim |
| BlobProtocol.EveryClaimHasItsBytes | internal/store/blobs.go:178-224 | in every interleaving over shared files, with crashes anywhere, each account's claim has a stored file that hashes to its digest |
| BlobLaws.StorageAlwaysAddsUp | internal/store/blobs.go:84-141 | in every interleaving, crashes and repeated uploads included, each account's storage figure is what its claims add up to: nothing is charged or refunded twice |
| BlobSizes.AClaimIsAsLongAsItsFile | internal/store/blobs.go:84-141 | over every run in which no two received bodies share a digest: a claim says exactly how long its stored file is |
| BlobSizes.TheFigureIsTheFiles | internal/store/blobs.go:84-141 | over the same runs: an account's storage figure is the length of the files it claims |
| BlobSizes.TheAccountSeesItsLedger | internal/store/blobs.go:84-141 | what pushes read of the attachment store changes by uploads, deletes and prunes as the ledger does, and by marks not at all |
| BlobLaws.OnlyASweepUnbacksAPush | internal/store/blobs.go:249-258 | the foreign keys refuse a push's commit if and only if a digest it leaves referenced was held when it read and is no longer claimed when it commits |
| BlobLaws.ASweptClaimWasLongUnwanted | internal/blobsweep/sweeper.go:92-174 | only a sweeper's delete takes a claim; it was marked more than the retention window earlier while unwanted, and nothing wanted it at any clearing pass since |
| BlobLaws.OnlyAttachmentsAreUnprotected | internal/store/blobs.go:370-434 | a claim the delete may take is still wanted exactly when a live attachment row holds its digest |
| BlobLaws.OnlyClearingEndsAMark | internal/store/blobs.go:308-334 | a mark ends only because a clearing pass found the bytes wanted or because the overdue claim was deleted: no upload of the same bytes, push, prune or crash takes it off |
| BlobHistories.AWantedClaimCanBeSwept | internal/store/blobs.go:370-434 | counterexample, a run from the new server: a device's attachment row, pushed after the clearing pass, does not save its claim or its file |
| BlobHistories.ALivePageCanNameAnOverdueClaim | internal/store/blobs.go:249-258 | a run from the new server in ordinary operation: a page pushed after the clearing pass names an overdue claim, and the reference alone keeps it |
| Sweeper.UploadStepsUpload | internal/httpapi/blobs.go:168-203 | the publish path run alone is the protocol's steps in their order, and leaves no lock behind |
| Sweeper.SweepStepsSweepOne | internal/blobsweep/sweeper.go:176-209 | the deletion of one candidate run alone is the protocol's steps in their order |
| Sweeper.AttachmentServer.BlobHeldByAccount | internal/httpapi/blobs.go:286-309 | held means the row and the bytes, both |
| Sweeper.AttachmentServer.PublishBlob | internal/httpapi/blobs.go:168-203 | a success means a claim of the body's length, charged once, and its bytes, and for a digest already held no change; after a failure no partial is left, and the file is gone exactly if the record did not commit, the check and the unlink went through and nobody claims it |
| Sweeper.AttachmentServer.DeleteOne | internal/blobsweep/sweeper.go:176-209 | the row goes first, the file only with the last claim anywhere; what it reports is what it did |
| Sweeper.AttachmentServer.SelectSweepableBlobs | internal/store/blobs.go:336-368 | overdue claims, oldest mark first, as many as the limit allows |
| SweepConvergence.ExaminingOneClaim | internal/store/blobs.go:249-334 | after prune, mark and clear a claim is marked if and only if nothing wants it, an older mark keeps its time, and no claim comes or goes |
| Sweeper.AttachmentServer.SweepOnce | internal/blobsweep/sweeper.go:92-174 | one pass, its counts and its failures, is the fold over its candidate list; what that leaves is `SweepTroubles.WhatAPassLeaves` |
| SweepTroubles.AFailureStopsNothing | internal/blobsweep/sweeper.go:148-174 | whatever fails, each candidate's claim goes unless its own delete failed, a file goes exactly with its last claim unless that unlink failed, and rows, files and bytes are counted over the candidates that neither failed nor stayed; called off at one place, this holds of those before it and nothing happens to the rest |
| SweepTroubles.WhatAPassLeaves | internal/blobsweep/sweeper.go:92-174 | that is what becomes of the candidates any pass lists, whatever troubles it meets |
| SweepConvergence.TheWholeListGoes | internal/blobsweep/sweeper.go:148-174 | undisturbed, a pass removes each candidate's claim once, counts rows and bytes exactly, and removes a file exactly with its last claim |
| SweepConvergence.APassShrinksTheUnwanted | internal/blobsweep/sweeper.go:92-174 | past the window a pass takes the cap's worth of the unwanted claims, or all of them |
| SweepConvergence.PassesConverge | internal/blobsweep/sweeper.go:18-25 | on a quiet store, at whatever times passes run: once enough of them are past the retention window counted from the first, they leave exactly the wanted claims, whatever the cap, and a stored file stays exactly if nobody ever claimed it or somebody still does |
| SweepConvergence.SweepingOnATimerConverges | internal/blobsweep/sweeper.go:18-25 | on a timer with any interval against any window (hourly against a day by default): all passes count but the first and the ones that fit in the window, so enough of them leave exactly the wanted claims |
| ChangeFeed.Broker.Subscribe | internal/changefeed/changefeed.go:39-60 | a fresh open channel joins the subscribers |
| ChangeFeed.Broker.Cancel | internal/changefeed/changefeed.go:39-60 | the channel leaves the subscribers before it is closed; a second call changes nothing |
| ChangeFeed.Broker.Publish | internal/changefeed/changefeed.go:62-82 | wakes exactly the account's other devices, never displaces what waits, never sends on a closed channel |
| ChangeFeed.Broker.Revoke | internal/changefeed/changefeed.go:84-100 | every stream of the device finds the revocation as its next event |
| ChangeFeed.Broker.Disconnect | internal/changefeed/changefeed.go:102-117 | every stream of the device finds the disconnection as its next event |
| ChangeFeed.Broker.DeliverUrgently | internal/changefeed/changefeed.go:119-132 | draining first, the blocking send always finds room |
| ChangeFeed.ABurstLeavesTheLastUrgentEvent | internal/changefeed/changefeed.go:62-132 | any burst of calls leaves one event: the last urgent one, or one wakeup if there was none |
| WatchStream.APulledPageFits | internal/httpapi/changewatch.go:145-187 | the pages a stream writes end where the model's steps allow, whatever commits between the reads |
| WatchStream.AWaitingStreamIsUpToDate | internal/httpapi/changewatch.go:23-140 | a stream waiting on an empty channel has a cursor at or past every announced commit that is news to it |
| StreamRuns.ACommitReachesTheOthers | internal/changefeed/changefeed.go:62-82 | a commit and its call take one sequence value and wake exactly the listening streams of other devices whose channel is empty |
| StreamRuns.ARevocationIsDelivered | internal/changefeed/changefeed.go:84-100 | a revocation and its call: the device's tokens work no more, every listening stream of it finds the revocation next, no other stream finds anything |
| StreamRuns.ASignInIsDelivered | internal/changefeed/changefeed.go:102-117 | a sign-in and its call: exactly the new token works for the device, and its listening streams find the disconnection next |
| StreamRuns.AStreamCatchesUp | internal/httpapi/changewatch.go:52-100 | an admitted stream under a good token subscribes, is checked again and reads its way to the counter in pages of any size, and then waits on an empty channel |
| StreamRuns.AWokenStreamCatchesUp | internal/httpapi/changewatch.go:104-140 | so does one that waits and is woken |
| WatchStream.NoStreamOutlivesItsCredential | internal/httpapi/changewatch.go:52-80 | past its second check a stream has a valid token, or the call that ends it is still to come, or an urgent event waits for it, or that very token was withdrawn by a change nobody heard of |
| WatchStream.AnUnheardTokenWorksForNobody | internal/store/devices.go:80-110 | the exception is about dead tokens alone: no device ever authenticates with one again, so streams of a later sign-in are protected |
| WatchStream.AStreamIsToldExactlyWhatWasHeard | internal/changefeed/changefeed.go:84-132 | a listening stream has an urgent event waiting or on its way if and only if a withdrawal of its device was heard of since it subscribed, or its call was still to come when it subscribed |
| WatchStream.ADeadTokenIsToldUnlessUnheard | internal/httpapi/changewatch.go:52-80 | a stream past its second check whose token is dead is told to stop if and only if such a withdrawal was heard of; if not, its own token is among the unheard |
| WatchStream.AnUrgentEventStays | internal/changefeed/changefeed.go:119-132 | no wakeup displaces an urgent event; only its own stream or another urgent event takes its place |
| WatchStream.AnUnheardRevocationStopsNothing | internal/httpapi/devices.go:242-262 | counterexample: a revocation that commits while its caller hears a failure leaves the stream reading with nothing on its way to end it |
| DeviceTable.DeviceStore.RegisterDevice | internal/store/devices.go:39-78 | one row per installation; the new token works, the row's old one is nobody's, and the purge log sees a device that has presented nothing |
| DeviceTable.DeviceStore.AuthenticateDeviceToken | internal/store/devices.go:80-110 | answers the one unrevoked device with that token, if there is one |
| DeviceTable.DeviceStore.RevokeDevice | internal/store/devices.go:177-199 | scoped to the account, repeatable, and no device authenticates with that token afterwards |
| DeviceTable.DeviceStore.DeleteRevokedDevice | internal/store/devices.go:220-260 | removes only a revoked row of the account, and changes who authenticates for nobody |
| DeviceTable.DeviceStore.RecordAcknowledgedSeq | internal/store/synctables.go:847-861 | moves one device's acknowledged cursor forward or not at all |
| Handlers.ReadDeltaFilter | internal/httpapi/sync.go:127-162 | accepts exactly the meaningful combinations of scope and skipped notebooks; the filter is the tree exactly for that scope, and skips exactly the notebooks named |
| Handlers.ReadPull | internal/httpapi/sync.go:64-90 | accepts exactly a cursor that is not negative, a limit in its bounds or none, and a good filter; the query is those values, with the default for an absent limit |
| Handlers.HandlePullChanges | internal/httpapi/sync.go:64-125 | answers exactly what its parameters ask for: the rows of the range, of the tree alone for that scope and without gravestones, or without what lies beneath the notebooks it leaves out; acknowledges the cursor presented, never for a tree read; an acknowledgement that cannot be recorded, or whose row is gone, changes nothing in the answer |
| Handlers.HandlePushChanges | internal/httpapi/sync.go:164-227 | wakes the account's other streams exactly when work was committed; replays, refusals and failures wake nobody |
| Handlers.HandleRegisterDevice | internal/httpapi/devices.go:114-148 | the row is written first; then exactly that device's streams are disconnected |
| Handlers.HandleRevokeDevice | internal/httpapi/devices.go:234-264 | the token stops working first; then exactly that device's streams are told; another account's device is not found |
| Handlers.HandleDeleteArchivedNotebook | internal/httpapi/admin.go:584-628 | a permanent deletion that committed wakes every stream of the account, and a refused one wakes nobody |

## Left out

- Rendering and reading JSON, SQL text, message strings, `extra` fields, `server_updated_at` and `last_seen_at`: plumbing; the model starts at decoded records and table maps.
- Field-level validation: one verdict per change stands for each kind's own checks.
- Passwords, token minting, SHA-256 itself and gzip: hashing is an unknown function, tokens are compared.
- HTTP routing, event framing, deadlines, cookies, pages of the admin panel, the notebook overview, renaming devices: no rule of their own.
- Signed 64-bit limits on sequence values, versions and cursors: modelled as unbounded numbers; reaching them takes more commits than a server can make.
- The document's list of references as a pull renders it: the model's row carries the list the document was pushed with; the rendered one can shrink when a sweep prunes, without a new sequence value.
- The unique constraint of one document body per page fails a whole push in the model as it does in the database; that clients send a document under its page's id is assumed only by `ReferencesFollowTheDocuments` and the theorems of `References`.
- A push is one atomic step under its account's lock, except for what it read of held attachments; that gap is `OnlyASweepUnbacksAPush`.
- In the attachment protocol the synced tables move as one step to any state both foreign keys allow, which covers every push and erasure; marks and clears are single steps over all accounts.
- A database commit still in flight when its caller is told it failed is taken to have landed, or not, before the next step of that worker; a lock lost with its connection while its holder goes on is not modelled.
- Handing out locks to waiting workers: a worker whose lock is taken tries again; fairness and progress are not stated.
- `handleWatchChanges` as one method: its loop is modelled as the steps of `WatchStream`, since what matters about it is what runs in between; only its page loop is a method.
- The restart of a server closes its streams and forgets calls in flight; commits whose announcement is lost that way are found by the next read, and are not in the set of announced commits.
- More than one server process for the change feed: the broker is in memory by design.
- Filtered reads in the replica theorems: a client commits a cursor only from unfiltered pulls there; tree scans only add notebooks to what it has. What the cursor of a client that leaves notebooks out covers is `Skipping`, for a list it keeps.
- Clients' own conflict handling and drafts beyond which notebooks they hold: the protocol does not constrain them.
- A retry's exact bytes: the response column is `jsonb`, which normalises text; `RetryReplaysTheFirstAnswer` is about the answer's value.
- AClaimIsAsLongAsItsFile: for runs in which no two received bodies share a digest, because hashing is an unknown function here; `TheFigureIsTheFiles` rests on it.
- EveryRunIsInOrder: that references name claimed digests holds, for a move of the tables, because the step is guarded by the foreign keys themselves; pushes and erasures earn it in `AccountRuns.EveryRunIsSound`.
- AnErasedNotebookStaysErased: for devices active without interruption, and runs in which devices push only notebooks they have and new notebooks take fresh ids, because a device that was revoked and signs in again with its data is what the log no longer waits for.
- ReplicasAgreeUnlessStranded: for the same runs, because a device outside them can store a purged id again while another client is deleting it; that everything is delivered needs no such condition.
- ApplyChangeBatch: transport and database errors other than a refused statement roll back and are not modelled.
- SweepOnce: a pass that cannot take the sweep lock does nothing and has no member; two passes at once are covered by the protocol's steps.
