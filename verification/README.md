# OpenMOS: verified model of the committed source and its state machines

OpenMOS is a MOS protocol device. This project models the parts of it that promise something over
whole runs, and proves those promises, in Dafny 4.11. `dafny verify dfyconfig.toml` checks all of it.

What is modelled, file group by file group:

- **Checkpoint content** (`Json`, `Content`, `CheckpointStore`, `CheckpointDocument`): a checkpoint is a JSON
  tree packed into content-addressed objects. Packing and unpacking are functions on trees; the class
  `CheckpointContent` walks them imperatively over a directory whose every operation may be carried
  out, lost, or carried out and reported as failed. A crash is an operation that is lost and a restart.
- **Repositories and running orders** (`Text`, `Repositories`, `Rundown`, `RosterContent`, `Bodies`, `Staging`):
  map-backed repositories with sorted listings, snapshots of them, and the running-order messages.
  The effects are functions; the class `Staged` reaches them with the loops of the program.
- **Cue identities** (`Cues`, `CueSlots`): which anonymous cues keep their number and which get a new one,
  with the in-place loops over arrays.
- **The committed source** (`Source`, `SourceInvariant`, `SourceRuns`, `SourceLedger`, `SourceStaging`,
  `Durable`, `CommittedSource`): what one commit does to a checkpoint is a function of the checkpoint and
  the commit. Theorems are about histories: all sequences of commits from an unstarted
  checkpoint. The classes `Store` and `CommittedSource` carry such a history as ghost state, so every
  theorem about histories holds at every reachable state of the running object: connections,
  disconnects, timeouts, messages, retries, delivery and restarts in any interleaving.
- **The source set** (`SourceSet`, `CatalogueListing`): one message sequence over many member stores and a
  catalogue, with memory and files told apart, so that a save may fail and still be found after a restart;
  and what the catalogue publishes, as a history of commits and as a class that carries one.
- **Discovery** (`Discovery`, `DiscoveryRuns`, `DiscoveryWalk`): the one-request-at-a-time walk (section 4.1 of
  MOS 4.0), as pure moves, as runs of moves, and as a class whose request objects are the attempt handles.
- **Transfer** (`Transfer`, `SourceTransfer`, `Publisher`): a document as hashed objects, the protocol that
  brings them to an arbitrary receiver, and both joined to the running source: what is accepted is what
  the receiver has published.
- **Member inventory** (`Catalogue`), **retry deduplication** (`Dedup`, `DedupLog`, `DedupStore`: the log is
  text, rendered and read back character by character), **the wire** (`Wire`, `Framer`), **reordering** (`Reorder`) and
  **message identifiers** (`MessageIds`, section 4.1.7 of MOS 4.0).

Conventions. SHA-256 is an injective function, and for checkpoint content also one without cycles of
objects naming each other. Time is a parameter. The result of a file operation is decided by an oracle
or a parameter. `Option` stands for the program's error returns; a ghost history is never read by code.

What the proofs found about the program, stated as exact conditions:

- Packing does not descend into arrays other than the four row arrays, and reading does. A document
  reads back if and only if those arrays hold no reference-shaped object (`Content.ReadsBackIffPackable`).
  The documents that checkpoints of a source are saved as meet this
  (`CheckpointDocuments.DocumentIsPackable`).
- Encoding lets U+FFFE through and decoding refuses it (`Wire.RoundTrip`, `Wire.SwappedMarkIsRefused`).
- An empty answer is not restored by replaying the deduplication log (`Dedup.RememberAgrees`).
- A deduplication log that does not end with a newline swallows the next record (`DedupLog.AppendedIsReadBack`).
  When only the newline is missing, replay accepts the last line, and the next append loses that record as
  well (`DedupLog.NewlineLosesBoth`). Rewriting the log heals it (`DedupStores.FileDedupStore.Compact`).
- The cross-store receipt check skips the catalogue when a rundown is unknown, so a refused roster
  of an unknown rundown can be retained under a key of the catalogue
  (`SourceSets.CommittedSourceSet.RouteUnenrolled`, `SourceSets.ListingSharesKey`).
- A catalogue listing of the first version that fits its size limit to the byte can be published as complete
  and never be suspended again, because the form that is not complete is longer
  (`CatalogueListings.SuspendsIff`, `CatalogueListings.FullListingStaysComplete`).
- Exchanging the numbers of two stories exchanges their places exactly when the numbers differ and ties
  allow it (`Reorder.SwapExchangesPlaces`); stories as rosters and moves number them always do.
- A restart of the discovery walk loses, of the queue (`DiscoveryRuns.RestartLeaves`): everything when the
  directory cannot be used; with a file in step exactly the urgent work that came in behind an outstanding
  request and was never written, and the one identifier behind the bound when the file holds one too
  many; once a save had failed, exactly what the file as it was left does not have. Urgent work and the one
  too many are lost although every write succeeds (`DiscoveryRuns.UnsavedUrgentIsLost`,
  `DiscoveryRuns.OneTooManyIsLost`).
- When every process hands out something, identifiers repeat exactly when a restart finds the mark behind
  the counter (`MessageIds.RepeatsExactlyBehind`), which takes a failed write (`MessageIds.WrittenIsNeverBehind`).

## Model

| member | source | states |
|---|---|---|
| `Content.ReadsBackIffPackable` | src/internal/repository/checkpoint_content.go:55-204 | With the packed objects in the directory, whatever else it holds, the root reads back as the document if and only if no reference-shaped object sits where packing does not descend and reading does |
| `Content.ReadsBack` | src/internal/repository/checkpoint_content.go:55-204 | Packing then reading is the identity on packable documents, also when story data itself contains reference keys |
| `Content.OnlyPackableReadsBack` | src/internal/repository/checkpoint_content.go:71-93 | Only packable documents come back unchanged |
| `Content.LeftAloneIffInert` | src/internal/repository/checkpoint_content.go:139-203 | Reading leaves a value as it is if and only if it contains no reference |
| `Content.BodiesRankBelow` | src/internal/repository/checkpoint_content.go:30-109 | Every object behind a document lies below it in the order of digests, so no packed document refers back to itself |
| `CheckpointStore.CheckpointContent.Keep` | src/internal/repository/checkpoint_content.go:30-54 | Stores one object under its digest, or fails; an object already known is not written again |
| `CheckpointStore.CheckpointContent.PackInto` | src/internal/repository/checkpoint_content.go:55-102 | The recursive packing computes the packed form and leaves every object behind it in the directory and marked as used |
| `CheckpointStore.CheckpointContent.PackFieldsInto` | src/internal/repository/checkpoint_content.go:71-96 | Every field is packed by its own rule, in any order |
| `CheckpointStore.CheckpointContent.PackRowsInto` | src/internal/repository/checkpoint_content.go:72-85 | The four row arrays are packed row by row, in order |
| `CheckpointStore.CheckpointContent.PackFieldInto` | src/internal/repository/checkpoint_content.go:71-95 | One field is packed by its own rule |
| `CheckpointStore.CheckpointContent.KeepAll` | src/internal/repository/checkpoint_content.go:103-109 | All objects of a document are in the directory before the root is touched, and exactly they count as used |
| `CheckpointStore.CheckpointContent.Collect` | src/internal/repository/checkpoint_content.go:126-133 | Removes only objects that the save did not use |
| `CheckpointStore.CheckpointContent.Save` | src/internal/repository/checkpoint_content.go:24-135 | Whatever file operation fails, the disk holds the new document complete, or the old root with nothing removed |
| `CheckpointStore.CheckpointContent.Open` | src/internal/repository/checkpoint_content.go:136-205 | Reads exactly what the directory says, and ends on every directory content |
| `CheckpointStore.CheckpointContent.Expand` | src/internal/repository/checkpoint_content.go:139-203 | Expansion of any value; terminates by the objects not yet on the path, then the size left |
| `CheckpointStore.CheckpointContent.Follow` | src/internal/repository/checkpoint_content.go:149-178 | A reference is followed once along a path, only to an object whose digest matches |
| `CheckpointStore.CheckpointContent.ExpandFields` | src/internal/repository/checkpoint_content.go:179-187 | Expands an object field by field; one error fails the whole |
| `CheckpointStore.CheckpointContent.ExpandRows` | src/internal/repository/checkpoint_content.go:188-201 | Expands an array row by row; one error fails the whole |
| `CheckpointStore.StoredReadsBack` | src/internal/repository/checkpoint_content.go:24-205 | A stored document is what a restart reads, exactly when it is packable |
| `CheckpointStore.InterruptedSaveReadsOldOrNew` | src/internal/repository/checkpoint.go:320-349 | A save interrupted anywhere leaves a disk that reads as the old or as the new document, never a mixture |
| `CheckpointStore.RunReadsALatestDocument` | src/internal/repository/checkpoint_content.go:24-205 | Over any run of saves, crashes and restarts, a restart reads the last document whose save reported success or one attempted since |
| `CheckpointDocuments.DocumentIsPackable` | src/internal/repository/checkpoint.go:44-58 | Every document a checkpoint is saved as can be packed and read back: the arrays that are not row arrays hold text alone |
| `CheckpointDocuments.DocumentsSeparate` | src/internal/repository/checkpoint.go:34-58 | Different repositories or checkpoints never share a document, whatever field is left out when it is empty |
| `CheckpointDocuments.InterruptedCommitOpens` | src/internal/repository/checkpoint.go:287-349 | A commit interrupted anywhere while it is saved leaves a directory that opens as the state before or the state after, and as no other |
| `CheckpointDocuments.HistoryCommitOpens` | src/internal/repository/checkpoint.go:171-213 | The same of every commit of every history of a source, with the repositories saved through their snapshot |
| `Repositories.ListingUnique` | src/internal/repository/memory.go:129-156 | A repository has one sorted listing, whatever order its map yields |
| `Repositories.List` | src/internal/repository/memory.go:129-156 | Lists exactly the chosen entries by order, then identifier |
| `Repositories.StoryKeyInjective` | src/internal/service/mos.go:562-564 | Composite story keys are told apart by rundown and story |
| `Repositories.ItemKeyInjective` | src/internal/service/mos.go:566-568 | Composite item keys are told apart by story key and item |
| `Repositories.TakeSnapshot` | src/internal/repository/durable.go:177-198 | The snapshot holds what is reachable from the running orders through the listings |
| `Repositories.RestoreSnapshot` | src/internal/repository/durable.go:146-175 | Creates the entities one by one; a repeated identifier fails the whole |
| `Repositories.SnapshotIsLossless` | src/internal/repository/durable.go:146-198 | Restoring a taken snapshot gives the repositories back if and only if no story or item is orphaned |
| `Rundown.MirrorListing` | src/internal/service/mos.go:352-459 | The sorted listing of a mirrored rundown is the story list, numbered from one |
| `Rundown.MirrorIsClosed` | src/internal/service/mos.go:352-459 | A mirrored rundown has no orphans |
| `Rundown.ReplacedOrderIsMirrored` | src/internal/service/mos.go:352-459 | A valid roster of distinct stories always goes in, and the repositories mirror it |
| `Rundown.DeletedOrderIsMirrored` | src/internal/service/mos.go:614-655 | A deleted running order leaves nothing behind |
| `RosterContent.RosterIsStored` | src/internal/service/mos.go:352-560 | A roster is stored as it is: slug, every story at its place, every item with its fields at its place |
| `Bodies.StoredBodyIsCarried` | src/internal/service/source.go:668-717 | After a body the stored items of the story are exactly the items of the body, at their positions among items and cues |
| `Bodies.OtherItemsStay` | src/internal/service/source.go:668-704 | A body leaves the items of other stories alone |
| `Bodies.CarriedListing` | src/internal/service/source.go:686-704 | The sorted items of a story are the item occurrences of its body in order |
| `Staging.Staged.constructor` | src/internal/repository/checkpoint.go:181-184 | A detached copy starts as the repositories it is taken from |
| `Staging.Staged.DeleteItemsOf` | src/internal/service/source.go:670-678 | Deletes a story's items and no others |
| `Staging.Staged.ClearOrder` | src/internal/service/mos.go:352-459 | Removes the stories of one running order with their items, and nothing else |
| `Staging.Staged.PutOrder` | src/internal/service/mos.go:352-459 | Creates the running order or gives it its new slug |
| `Staging.Staged.StoreItems` | src/internal/service/mos.go:461-560 | Items are created or updated in order; an omitted summary does not erase the held one |
| `Staging.Staged.AddStories` | src/internal/service/mos.go:352-459 | Stories go in one by one; one that is already there fails the whole |
| `Staging.Staged.ReplaceRunningOrder` | src/internal/service/mos.go:352-459 | Computes the replaced repositories, or fails on an invalid message |
| `Staging.Staged.DeleteRunningOrder` | src/internal/service/mos.go:614-655 | Computes the repositories without the running order, or fails on a blank identifier |
| `Staging.Staged.Renumber` | src/internal/service/source.go:682-704 | Gives the story's items the positions of the body and deletes those it does not name |
| `Staging.Staged.StoreBody` | src/internal/service/source.go:669-717 | Recreates the story's items from nothing, with its cues, or fails when the rundown is not held |
| `CueSlots.SameCueRegion` | src/internal/service/source.go:762-782 | Two regions match when they have the same selectors and these are unique or nothing but the identifiers differs |
| `CueSlots.Anchors` | src/internal/service/source.go:728-738 | The positions of the items, with both ends |
| `CueSlots.SameItems` | src/internal/service/source.go:739-746 | The items are the same and in the same order |
| `CueSlots.RetainRun` | src/internal/service/source.go:749-757 | Writes one region's identifiers in place when it matches |
| `CueSlots.RetainCueIds` | src/internal/service/source.go:727-758 | In place, exactly the identifiers that may be kept are written; nothing else in the body changes |
| `CueSlots.NextNumber` | src/internal/service/source.go:654-665 | Finds the first free number above the last, or finds the counter exhausted |
| `CueSlots.AllocateCueIds` | src/internal/service/source.go:650-666 | In place, every cue without a number gets the next free one, in order |
| `Cues.RetainedAligned` | src/internal/service/source.go:725-758 | Kept identifiers come from cues of the earlier body with the same selector, in the same order, each used once |
| `Cues.RetainedAreDistinct` | src/internal/service/source.go:725-758 | Keeping identifiers never makes two occurrences share one |
| `Cues.IdentitiesAreSettled` | src/internal/service/source.go:604-666 | Whatever the peer names its items, the identities of a new body are all present and distinct, and new numbers lie above every earlier one |
| `Cues.ResentBodyIsUnchanged` | src/internal/service/source.go:725-758 | An unchanged body keeps every identity and allocates none |
| `Cues.ResentBodyKeepsEveryNumber` | src/internal/service/source.go:725-758 | Retention alone gives an unchanged body back |
| `SourceStaging.IndexOf` | src/internal/service/source.go:590-598 | The first held story with the identifier |
| `SourceStaging.HoldStories` | src/internal/service/source.go:545-567 | A roster is accepted if and only if its stories are named and distinct and its items valid; held content is kept and no longer fresh |
| `SourceStaging.ApplyRoster` | src/internal/service/source.go:545-584 | The detached repositories and state become those of the roster, or the message fails |
| `SourceStaging.ParseBody` | src/internal/service/source.go:604-639 | Occurrences of a body in order; fails on an unnamed or repeated item |
| `SourceStaging.TakenNames` | src/internal/service/source.go:645-649 | The names in use: the items and the cues that kept theirs |
| `SourceStaging.NameBody` | src/internal/service/source.go:640-666 | Identities of the new body, kept unless the story was ambiguous |
| `SourceStaging.ApplyBody` | src/internal/service/source.go:586-723 | A fresh body of a held story is stored and marked fresh; without a fresh roster it fails |
| `SourceStaging.ResolveStory` | src/internal/service/identity.go:36-62 | The composite key first, then the listing; among stories stored under composite keys only the key itself can match |
| `SourceStaging.ResolveItem` | src/internal/service/identity.go:82-99 | The same for the items of a story |
| `SourceStaging.ApplyStatus` | src/internal/service/onair.go:51-198 | A status report changes the status of one held entity, or fails |
| `SourceStaging.ApplyMessage` | src/internal/service/source.go:508-543 | Every message applied step by step does what the specification of messages says |
| `SourceInvariant.MessageHolds` | src/internal/service/source.go:508-723 | Every applied message keeps the repositories a mirror of the retained state |
| `SourceInvariant.CommitHolds` | src/internal/service/source.go:224-506 | Every commit keeps the invariant of committed states |
| `SourceRuns.HistoryHolds` | src/internal/service/source.go:375-484 | Every checkpoint of every history, restarts included, satisfies the invariant |
| `SourceRuns.ListingIsStoryList` | src/internal/service/source.go:545-584 | In every committed state the sorted listing is the story list, nothing is orphaned, and restoring a snapshot loses nothing |
| `SourceRuns.FreshStoryListsItsItems` | src/internal/service/source.go:682-721 | In every committed state a fresh story's stored items, in order, are its item occurrences |
| `SourceRuns.CompleteIsEarned` | src/internal/service/source.go:261-316 | A body published as active and complete implies that since the last loss a roster was applied, and after it a body for every story of it; and it publishes exactly those stories |
| `SourceRuns.KeepsStories` | src/internal/service/source.go:586-723 | Whatever is not a loss keeps the story list and freshens only the story it brings |
| `SourceLedger.RefusalOnlyClearsFreshness` | src/internal/service/source.go:445-477 | A refused, conflicting or invalidating commit changes no entity and only clears freshness |
| `SourceLedger.AtMostOnce` | src/internal/service/source.go:409-442 | A request with an identifier is applied or refused at most once in any history |
| `SourceLedger.ReceiptIsAnswer` | src/internal/service/source.go:486-493 | Every retained receipt is the answer one earlier commit was given |
| `SourceLedger.ReceiptsStay` | src/internal/repository/checkpoint.go:266-283 | A receipt, once retained, is retained for good |
| `SourceLedger.Monotone` | src/internal/repository/checkpoint.go:192-197 | Revision and accepted revision never decrease, the second never passes the first, a halt is for good |
| `SourceLedger.RevisionNamesBody` | src/internal/repository/checkpoint.go:192-197 | A revision names one body for good |
| `SourceLedger.AcceptedWasReceipted` | src/internal/service/source_publisher.go:160-177 | An accepted revision was accepted by a commit naming exactly the body committed as that revision |
| `SourceLedger.HaltedIsFrozen` | src/internal/service/source.go:230-232 | After a halt the entities, receipts, revision and body never change again |
| `SourceLedger.NumbersRise` | src/internal/service/source.go:650-666 | The cue counter never goes back |
| `SourceLedger.IdentitiesAreDistinct` | src/internal/service/source.go:604-666 | In every committed body all occurrence identities are distinct |
| `SourceLedger.NumbersAreNeverReused` | src/internal/service/source.go:640-666 | A cue keeps a number its own story had, or gets one that no cue of any story had in any earlier checkpoint |
| `SourceLedger.ResentBodyChangesNothing` | src/internal/service/source.go:725-758 | Committing an unchanged body again changes no identity and no counter |
| `Durable.Store.Initialize` | src/internal/repository/checkpoint.go:101-109 | Provisioning leaves an unstarted checkpoint |
| `Durable.Store.Reopen` | src/internal/repository/checkpoint.go:110-147 | What was committed always opens again, as it was |
| `Durable.Store.Detach` | src/internal/repository/checkpoint.go:177-184 | The staged copy equals the committed repositories |
| `Durable.Store.Commit` | src/internal/repository/checkpoint.go:171-213 | A staged result is validated, saved in one piece and installed; a failed save leaves memory as it was and stops everything until a restart |
| `Durable.Store.Save` | src/internal/repository/checkpoint.go:287-349 | The file holds the old checkpoint or the new one |
| `CommittedSources.CommittedSource.constructor` | src/internal/service/source.go:122-134 | A source over any store starts without sessions and takes nothing retained for fresh; it can be used when that was saved, or when it is halted and belongs to a set |
| `CommittedSources.Assess` | src/internal/service/source.go:266-283 | Complete exactly when the roster and every story are fresh and unambiguous, with the problem named by its rank |
| `CommittedSources.PublishStories` | src/internal/service/source.go:284-296 | The stories of the body are the retained ones in order |
| `CommittedSources.ReviseCheckpoint` | src/internal/service/source.go:261-316 | One new revision and its body, with a suspension when the body is outside the limits |
| `CommittedSources.MarkStale` | src/internal/service/source.go:233-236 | No roster and no story is fresh |
| `CommittedSources.FindReceipt` | src/internal/service/source.go:412-424 | The receipt retained under a key, if there is one |
| `CommittedSources.CommittedSource.Open` | src/internal/service/source.go:122-134 | Nothing retained is fresh before the first message, or the source cannot be used |
| `CommittedSources.CommittedSource.Revoke` | src/internal/service/source.go:224-243 | Takes freshness away in a commit of its own, or says that it could not |
| `CommittedSources.CommittedSource.ReleaseSession` | src/internal/service/source.go:213-222 | Takes away exactly what a session owns |
| `CommittedSources.CommittedSource.Observe` | src/internal/service/source.go:138-170 | A connection that is new or was silent too long owns its scope only after everything retained was taken for stale; a foreign identity on an owned connection also revokes |
| `CommittedSources.CommittedSource.RefreshSession` | src/internal/service/source.go:174-188 | Renews an unexpired owner and nothing else |
| `CommittedSources.CommittedSource.Disconnected` | src/internal/service/source.go:190-200 | Drops the session and what it owns, and revokes if it owned anything |
| `CommittedSources.CommittedSource.Uncertain` | src/internal/service/source.go:202-211 | Revokes only for a session that owns a scope |
| `CommittedSources.CommittedSource.Expire` | src/internal/service/source_publisher.go:60-69 | Drops exactly the sessions that were silent too long, and what they own |
| `CommittedSources.CommittedSource.DropExpired` | src/internal/service/source_publisher.go:60-75 | Coverage owned by an expired session is given up |
| `CommittedSources.CommittedSource.PublishBegin` | src/internal/service/source_publisher.go:60-101 | Delivers the body of the latest revision, after expired coverage was given up; nothing is delivered when halted |
| `CommittedSources.CommittedSource.PublishReply` | src/internal/service/source_publisher.go:103-177 | Only the body that is still the latest becomes the accepted one, only after the receiver returned a receipt for it; a conflict halts |
| `CommittedSources.SameRevisionSameBody` | src/internal/service/source_publisher.go:93-101 | A transfer kept for a revision is a transfer of that revision's body |
| `CommittedSources.CommittedSource.Restart` | src/internal/service/source.go:118-134 | A new process takes nothing retained for fresh |
| `CommittedSources.CommittedSource.TryApply` | src/internal/service/source.go:430-448 | Effects, revision, body and positive receipt are saved in one checkpoint, or none of them |
| `CommittedSources.CommittedSource.Refuse` | src/internal/service/source.go:450-477 | The old content is committed without freshness; a conflict leaves no receipt, a refusal its negative one |
| `CommittedSources.CommittedSource.RetainRefusal` | src/internal/service/source_catalogue.go:452-457 | The refusal for a rundown that is not enrolled is retained and changes nothing else |
| `CommittedSources.CommittedSource.Apply` | src/internal/service/source.go:375-484 | OK is returned only for a committed application; an identical retry gets the bytes of the earlier answer and changes nothing; a reused identifier and a failed message change no entity |
| `CommittedSources.ReplayWasAnswered` | src/internal/service/source.go:412-424 | The replayed bytes are those an earlier commit answered this request with |
| `SourceSets.SavedHolds` | src/internal/service/source_catalogue.go:410-468 | Whatever becomes of a save, no key is held by two member files; and none by a member file and the catalogue file if and only if the new key is not there or was not written |
| `SourceSets.RestartHolds` | src/internal/service/source_catalogue.go:87-160 | Keys stay apart across a restart, whatever of the last saves the files turn out to hold |
| `SourceSets.MemoryIsApart` | src/internal/service/source_catalogue.go:339-375 | What keeps keys apart in the files keeps them apart in memory |
| `SourceSets.CommittedSourceSet.constructor` | src/internal/service/source_catalogue.go:87-141 | A set over a new catalogue has no members and no receipts, so its keys are apart |
| `SourceSets.CommittedSourceSet.Reopen` | src/internal/service/source_catalogue.go:87-160 | A new process goes on from the files, with saves in them that were reported failed, takes freshness away from every member that is not halted, and keeps keys apart |
| `SourceSets.CommittedSourceSet.CrossReceipt` | src/internal/service/source_catalogue.go:339-375 | Finds a reused key in every other member, and in the catalogue when the message has a member of its own; without an answer only when a store cannot be asked |
| `SourceSets.CommittedSourceSet.Save` | src/internal/service/source_catalogue.go:452-458 | One save of a member: what memory and the file hold after each of its fates |
| `SourceSets.CommittedSourceSet.MemberMoves` | src/internal/service/source_catalogue.go:241-334 | Commits that retain no receipt keep keys apart, saved or not |
| `SourceSets.CommittedSourceSet.CatalogueMoves` | src/internal/service/source_catalogue.go:215-232 | A suspension of the catalogue keeps every receipt; one that was not confirmed stops the catalogue |
| `SourceSets.CommittedSourceSet.RouteEnrolled` | src/internal/service/source_catalogue.go:377-468 | A message conflicts exactly when another store has its key; its receipt is retained by one member alone, whatever becomes of the save |
| `SourceSets.CommittedSourceSet.AnswerUnenrolled` | src/internal/service/source_catalogue.go:410-427 | Which message for an unknown rundown is answered at once: a key of another store and an own key with other content conflict, an own key with the same content is repeated |
| `SourceSets.CommittedSourceSet.RouteUnenrolled` | src/internal/service/source_catalogue.go:410-459 | Which message is turned away, repeated, conflicting, refused for capacity or retained, for any rundown identity, and what memory and files hold after every failing write; keys stay apart among members, and apart from the catalogue if and only if the new key is not in it |
| `SourceSets.CommittedSourceSet.SuspendAndRetain` | src/internal/service/source_catalogue.go:428-459 | The catalogue is suspended first; the refusal is acknowledged only once it is saved |
| `SourceSets.CommittedSourceSet.ApplyCatalogue` | src/internal/service/source_catalogue.go:470-582 | Which listing conflicts, is repeated, taken in or rejected; what exactly is enrolled by then; and which write keeps its receipt, under a key that is new everywhere |
| `SourceSets.CommittedSourceSet.AnswerListing` | src/internal/service/source_catalogue.go:470-487 | A listing under a used key is repeated when the content is the same and conflicts otherwise |
| `SourceSets.CommittedSourceSet.TakeListing` | src/internal/service/source_catalogue.go:491-582 | A listing under a new key enrolls all its rows and is committed, or enrolls those before a failure and is rejected |
| `SourceSets.CommittedSourceSet.EnrollListing` | src/internal/service/source_catalogue.go:491-540 | Rows are checked and counted before the first is enrolled; enrolling stops at the first failure |
| `SourceSets.CommittedSourceSet.NoteReceipt` | src/internal/service/source_catalogue.go:550-582 | Keeps the receipt of a listing in memory and file, in the file alone, or nowhere, as the save goes |
| `SourceSets.CheckListing` | src/internal/service/source_catalogue.go:495-502 | A listing is readable if and only if its identities are bounded and each comes once |
| `SourceSets.StaysApartFromCatalogue` | src/internal/service/source_catalogue.go:365-373 | A member stays apart from the catalogue exactly when its new key is not there |
| `SourceSets.ListingSharesKey` | src/internal/service/source_catalogue.go:365-459 | From an empty set, with every write succeeding, a listing and a refused roster of an unknown rundown end up under one key in two stores |
| `CatalogueListings.CompleteIffEnumerated` | src/internal/service/source_catalogue.go:188-633 | In every history the catalogue is published as complete if and only if its last listing stands: nothing was suspended since, and nothing created that it does not have; and what is published is that listing, in its order, without what was removed |
| `CatalogueListings.SuspendsIff` | src/internal/service/source_catalogue.go:188-232 | A suspension is refused if and only if the catalogue is halted, or has to change and has no revision or no room left; otherwise the rows stay and completeness goes |
| `CatalogueListings.FullListingStaysComplete` | src/internal/service/source_catalogue.go:165-232 | A listing that just fits the first version's limit is taken, can never be suspended, and no set can be opened over it |
| `CatalogueListings.RevisionHasOneBody` | src/internal/repository/catalogue.go:443-468 | Revisions never go back and each has one body, across restarts |
| `CatalogueListings.AcceptedHadReceipt` | src/internal/service/source_catalogue_publisher.go:110-128 | The accepted revision was accepted by a receipt for the one body of that revision |
| `CatalogueListings.HaltedIsFrozen` | src/internal/service/source_catalogue.go:188-213 | Nothing new is ever published after a halt, restarts included |
| `CatalogueListings.RunHolds` | src/internal/repository/catalogue.go:478-511 | Whatever is pending has bounded identities, each once, its checkpoint's revision, and the size of its version |
| `CatalogueListings.ChangedIds` | src/internal/service/source_catalogue.go:584-633 | A message changes which rundowns there are only by removing its own |
| `CatalogueListings.ChangedRows` | src/internal/service/source_catalogue.go:584-633 | The rows of other rundowns stay as they are, and its own is what the message tells |
| `CatalogueListings.CheckRows` | src/internal/service/source_catalogue.go:165-186 | Rows are publishable if and only if identities are bounded and distinct and display fields bounded |
| `CatalogueListings.PublishedCatalogue.constructor` | src/internal/service/source_catalogue.go:87-141 | A new catalogue is suspended before anything else, or cannot be used |
| `CatalogueListings.PublishedCatalogue.Commit` | src/internal/repository/catalogue.go:443-468 | One commit is in the file and in memory, in neither, or in the file alone; what was not confirmed stops the catalogue |
| `CatalogueListings.PublishedCatalogue.ReviseWith` | src/internal/service/source_catalogue.go:188-213 | One more revision unless nothing changes, refused when it cannot be published |
| `CatalogueListings.PublishedCatalogue.Suspend` | src/internal/service/source_catalogue.go:215-232 | Takes completeness away and keeps the rows, or says that it could not |
| `CatalogueListings.PublishedCatalogue.TakeListing` | src/internal/service/source_catalogue.go:503-567 | The listing becomes the complete catalogue, or nothing changes |
| `CatalogueListings.PublishedCatalogue.ChangeRows` | src/internal/service/source_catalogue.go:602-625 | The loop over the prior rows, and whether one is the message's own |
| `CatalogueListings.PublishedCatalogue.Update` | src/internal/service/source_catalogue.go:584-633 | An applied message updates its row, or the catalogue is suspended |
| `CatalogueListings.PublishedCatalogue.Accept` | src/internal/service/source_catalogue_publisher.go:110-128 | Only the receipt for the body that is still pending is recorded |
| `CatalogueListings.PublishedCatalogue.Halt` | src/internal/service/source_catalogue_publisher.go:58-90 | A conflict halts the catalogue |
| `CatalogueListings.PublishedCatalogue.Restart` | src/internal/service/source_catalogue.go:87-160 | A new process publishes nothing as complete, or there is none |
| `CatalogueListings.PublishedCatalogue.CompleteIsEnumerated` | src/internal/service/source_catalogue.go:188-633 | The same of the running catalogue, whatever failed on the way |
| `Discovery.StepHolds` | src/internal/server/discovery.go:188-427 | Every move keeps at most one request outstanding, the queue distinct, nonempty and bounded, and the file in step |
| `DiscoveryRuns.RunHolds` | src/internal/server/discovery.go:188-490 | The same at every point of every run, restarts included |
| `Discovery.RenewedIs` | src/internal/server/discovery.go:201-222 | A renewed queue is distinct, bounded, listed by the catalogue and without the outstanding identifier |
| `DiscoveryRuns.ExitStep` | src/internal/server/discovery.go:110-427 | One move takes an identifier out of the queue if and only if it resolves it, is a catalogue that omits it or overflows before it, times it out on a connection that is not native, or is a restart that loses it |
| `DiscoveryRuns.RestartLeaves` | src/internal/server/discovery.go:110-178 | A restart loses an identifier if and only if the directory cannot be used; or, with a file in step, it is urgent work never written or stands one behind the bound; or, after a failed save, the file as it was left does not have it |
| `DiscoveryRuns.IdentifierLeavesBy` | src/internal/server/discovery.go:188-427 | Over whole runs: an identifier that waits and later does not was taken out by one of these moves in between |
| `DiscoveryRuns.UnsavedUrgentIsLost` | src/internal/server/discovery.go:334-359 | A run in which every write succeeds and a restart loses urgent work that waited behind a request |
| `DiscoveryRuns.OneTooManyIsLost` | src/internal/server/discovery.go:296-316 | A run in which every write succeeds, the file comes to hold one identifier more than the bound, and a restart loses the last |
| `DiscoveryRuns.ClaimMatchesRegistration` | src/internal/server/discovery.go:251-286 | An answer is claimed only for the rundown, scope, session and, unless native, identifier its attempt was registered with, before its deadline |
| `DiscoveryRuns.ClaimedOnce` | src/internal/server/discovery.go:273-294 | Between two claims of one attempt lies its release |
| `DiscoveryRuns.ClaimedIsKept` | src/internal/server/discovery.go:251-316 | While an answer is applied its attempt is not expired, registered again or cancelled by a timeout, a registration or a failed write |
| `DiscoveryRuns.StaleHandle` | src/internal/server/discovery.go:288-316 | The handle of a superseded attempt never changes anything again |
| `DiscoveryRuns.ExpiredNeedsNewSession` | src/internal/server/discovery.go:260-267 | An expired native attempt is registered again only over a new session, as a new attempt |
| `DiscoveryWalks.DiscoveryRequest.constructor` | src/internal/server/discovery.go:73-77 | A new attempt is bound to nothing |
| `DiscoveryWalks.DiscoveryWalk.constructor` | src/internal/server/discovery.go:100-102 | A new walk is idle |
| `DiscoveryWalks.Renew` | src/internal/server/discovery.go:199-222 | Unfinished work first, then what is new, cut at the bound with the rest counted |
| `DiscoveryWalks.DiscoveryWalk.Reopen` | src/internal/server/discovery.go:110-144 | Resumes from the file, cut at the bound; starts empty when the directory cannot be used |
| `DiscoveryWalks.DiscoveryWalk.Persist` | src/internal/server/discovery.go:150-178 | Saves the outstanding identifier in front of the queue, or gives up saving |
| `DiscoveryWalks.DiscoveryWalk.Take` | src/internal/server/discovery.go:469-490 | Reserves the one slot for the catalogue or for the front of the queue |
| `DiscoveryWalks.DiscoveryWalk.Begin` | src/internal/server/discovery.go:188-227 | Seeds the walk from a catalogue and reports what did not fit |
| `DiscoveryWalks.DiscoveryWalk.RequestCatalogue` | src/internal/server/discovery.go:231-246 | Queues the catalogue; an expired one is offered again |
| `DiscoveryWalks.DiscoveryWalk.RegisterRequest` | src/internal/server/discovery.go:251-271 | Binds the reserved slot, or refuses |
| `DiscoveryWalks.DiscoveryWalk.ClaimRequest` | src/internal/server/discovery.go:273-286 | Claims the answer, or refuses |
| `DiscoveryWalks.DiscoveryWalk.ReleaseRequest` | src/internal/server/discovery.go:288-294 | Only the current attempt's handle ends a claim |
| `DiscoveryWalks.DiscoveryWalk.FailedRequest` | src/internal/server/discovery.go:296-316 | Only the current attempt's handle fails it: native expires, others go back to the front |
| `DiscoveryWalks.DiscoveryWalk.EnqueueUrgent` | src/internal/server/discovery.go:334-359 | Goes to the front, or waits unsaved behind the outstanding request |
| `DiscoveryWalks.DiscoveryWalk.Resolved` | src/internal/server/discovery.go:366-385 | Only the outstanding identifier advances the walk |
| `DiscoveryWalks.DiscoveryWalk.Nudge` | src/internal/server/discovery.go:394-427 | Moves on after the deadline, never while an answer is applied |
| `Transfer.ChunksAreRows` | src/internal/service/source_sync.go:291-309 | Splitting keeps every row in order, in nonempty chunks that fit 128 KiB or are a single row |
| `Transfer.DocumentRebuilds` | src/internal/service/source_sync.go:36-130 | The objects, manifest first and no hash twice, rebuild to the committed document |
| `Transfer.HeldRebuilds` | src/internal/service/source_sync.go:36-130 | A receiver that holds the objects, among whatever else, rebuilds the document from the manifest's hash |
| `Transfer.RebuildsNothingElse` | src/internal/service/source_sync.go:36-130 | From the manifest's hash no receiver rebuilds anything but the document, whatever it holds |
| `Transfer.ManifestNamesDocument` | src/internal/service/source_sync.go:36-130 | One manifest hash names one document |
| `Transfer.ObjectsAreBounded` | src/internal/service/source_sync.go:36-130 | Every chunk fits or is a single row, and stories and manifests list rows themselves only while they fit |
| `SourceTransfers.Split` | src/internal/service/source_sync.go:291-309 | The greedy loop makes the specified chunks |
| `SourceTransfers.BuildStories` | src/internal/service/source_sync.go:54-90 | Story objects and references in order |
| `SourceTransfers.DropRepeated` | src/internal/service/source_sync.go:119-128 | Keeps the first of each object |
| `SourceTransfers.BuildObjects` | src/internal/service/source_sync.go:36-130 | The whole object set of a document |
| `SourceTransfers.SourceTransfer.constructor` | src/internal/service/source_sync.go:36-130 | A transfer starts unstarted with the document's objects |
| `SourceTransfers.PartsAreObject` | src/internal/service/source_sync.go:209-218 | The parts of an object in order are the object |
| `SourceTransfers.SourceTransfer.NextIsSafe` | src/internal/service/source_sync.go:191-284 | A commit is requested only when every object is known to be held since the latest start; every part lies inside its object |
| `SourceTransfers.SourceTransfer.Reset` | src/internal/service/source_sync.go:172-177 | Lost parts make the transfer begin again |
| `SourceTransfers.SourceTransfer.OnStart` | src/internal/service/source_sync.go:192-207 | Begins with nothing known to be held |
| `SourceTransfers.SourceTransfer.OnPart` | src/internal/service/source_sync.go:208-235 | A stored object leaves the queue; a last part that did not complete it starts its parts again |
| `SourceTransfers.SourceTransfer.OnMissing` | src/internal/service/source_sync.go:236-265 | Objects not named missing are held; a name not asked about or repeated fails with part of the queue built |
| `SourceTransfers.SourceTransfer.Step` | src/internal/service/source_sync.go:136-284 | One request and any answer: what is known to be held afterwards, what halts, what completes, and that a cooperative answer makes progress |
| `SourceTransfers.SourceTransfer.Deliver` | src/internal/service/source_publisher.go:59-123 | Against a cooperative receiver stepping ends in a publication |
| `Publishers.CompleteIsPublished` | src/internal/service/source_sync.go:191-284 | When a commit or a heartbeat completes, what an honest receiver has published is exactly the document, whatever it has lost or held besides |
| `Publishers.AcknowledgedSuffices` | src/internal/service/source_sync.go:191-284 | A commit is asked for only when what was acknowledged is enough to publish the document |
| `Publishers.Publisher.constructor` | src/internal/service/source_publisher.go:59-101 | Delivery starts with no transfer at hand |
| `Publishers.Publisher.Begin` | src/internal/service/source_publisher.go:59-101 | A transfer goes on while its revision is current, and always carries the body to be delivered |
| `Publishers.Publisher.Exchange` | src/internal/service/source_publisher.go:103-123 | A receipt is reported only when an honest receiver has published the body that is in flight |
| `Publishers.Publisher.Finish` | src/internal/service/source_publisher.go:103-177 | A revision becomes accepted only when the receiver has published the document of the body committed as that revision, however much was committed in between |
| `Publishers.Publisher.Restart` | src/internal/service/source_publisher.go:59-101 | A restart loses the transfer and nothing that was delivered |
| `Publishers.Publisher.AcceptedIsDelivered` | src/internal/service/source_publisher.go:160-177 | In every state of every run, every body accepted so far was published by the receiver |
| `Catalogue.Catalogue.constructor` | src/internal/repository/catalogue.go:344-416 | A new catalogue has no inventory |
| `Catalogue.Catalogue.SaveMembers` | src/internal/repository/catalogue.go:314-331 | The inventory file holds the old list or the new one |
| `Catalogue.Catalogue.OpenCommitted` | src/internal/repository/checkpoint.go:62-148 | Only a directory without a checkpoint is initialized, and only when asked |
| `Catalogue.Catalogue.OpenMembers` | src/internal/repository/catalogue.go:99-193 | Reopens every inventoried store unchanged; nothing is initialized again |
| `Catalogue.Catalogue.Stage` | src/internal/repository/catalogue.go:258-270 | An unstarted checkpoint is staged, or the one left there is used |
| `Catalogue.Catalogue.Provide` | src/internal/repository/catalogue.go:255-294 | The member's directory is there with an unstarted checkpoint; others are untouched |
| `Catalogue.Catalogue.Register` | src/internal/repository/catalogue.go:295-309 | The inventory grows by the member, marked when it is not enrolled |
| `Catalogue.Catalogue.RetainMember` | src/internal/repository/catalogue.go:221-312 | An inventoried member is never dropped, reinitialized or replaced; a new one begins unstarted; capacity holds |
| `Catalogue.Catalogue.MemberCommits` | src/internal/repository/checkpoint.go:171-213 | A commit of an inventoried member changes its own store alone |
| `Catalogue.Catalogue.MembersKeepCommits` | src/internal/repository/catalogue.go:99-312 | Whatever was opened, stopped, retried or committed before, the store of an inventoried member holds what that member last committed |
| `Catalogue.Catalogue.RetryFinishes` | src/internal/repository/catalogue.go:99-312 | After a stop anywhere a retry finishes with the checkpoint the member had, or an unstarted one |
| `Dedup.KeyInjective` | src/internal/server/dedup.go:119-121 | Scopes and senders without the separator never share a key |
| `Dedup.KeyIsSharedIffNul` | src/internal/server/dedup.go:119-121 | A message shares its key with another if and only if the separator occurs in its scope, its sender or its identifier |
| `Dedup.CheckAgrees` | src/internal/server/dedup_file.go:144-151 | A new message and its log record agree |
| `Dedup.RememberAgrees` | src/internal/server/dedup_file.go:155-164 | An answer and its log record agree if and only if the answer is not empty |
| `Dedup.CompactionAgrees` | src/internal/server/dedup_file.go:229-287 | The rewritten log replays to the same entries, answers and order |
| `Dedup.NewestAreKept` | src/internal/server/dedup.go:185-195 | The store holds the newest entries, in order |
| `DedupLog.ParseRender` | src/internal/server/dedup_file.go:51-141 | A line that holds one rendered record reads back as that record |
| `DedupLog.JoinedIsLost` | src/internal/server/dedup_file.go:112-133 | Nothing that has a record or the beginning of one behind other text on its line is read as a record |
| `DedupLog.RecordsAfter` | src/internal/server/dedup_file.go:196-225 | What the file holds after a line was written whole or cut anywhere: behind ended lines the record is there if and only if at most its newline is missing; behind an unended line nothing of it is, and a record on that line is gone too |
| `DedupLog.AppendedIsReadBack` | src/internal/server/dedup_file.go:196-225 | A record appended whole is read back after all before it if and only if the file ended with a line |
| `DedupLog.NewlineLosesBoth` | src/internal/server/dedup_file.go:100-225 | A line cut just before its newline is read back after the crash, and the next append loses it again together with its own record |
| `DedupLog.TornLineLosesNext` | src/internal/server/dedup_file.go:100-225 | With room for two entries or more, a new message is known after a restart with everything before it if and only if the line before its own was ended |
| `DedupLog.OneEntryMayNotNotice` | src/internal/server/dedup_file.go:100-225 | A store of one entry may hold what it should although two lines were lost |
| `DedupLog.RenderAll` | src/internal/server/dedup_file.go:229-260 | The rewritten file is whole and reads back as the records it was rendered from |
| `DedupStores.MemoryDedupStore.constructor` | src/internal/server/dedup.go:108-117 | A new store is empty |
| `DedupStores.MemoryDedupStore.Insert` | src/internal/server/dedup.go:185-195 | Evicts the oldest until there is room, then appends |
| `DedupStores.MemoryDedupStore.Check` | src/internal/server/dedup.go:123-140 | Judges a message by key and hash, and inserts a new one |
| `DedupStores.MemoryDedupStore.Remember` | src/internal/server/dedup.go:142-157 | Stores the answer with the entry, or in a new one |
| `DedupStores.MemoryDedupStore.Response` | src/internal/server/dedup.go:159-174 | The stored answer, if there is one |
| `DedupStores.MemoryDedupStore.Restore` | src/internal/server/dedup.go:229-244 | What a record leaves out stays as it was |
| `DedupStores.MemoryDedupStore.Snapshot` | src/internal/server/dedup.go:247-262 | The entries as records, oldest first |
| `DedupStores.FileDedupStore.constructor` | src/internal/server/dedup_file.go:62-96 | A store over no log agrees with it |
| `DedupStores.FileDedupStore.Reopen` | src/internal/server/dedup_file.go:100-141 | Whatever is in the log, memory agrees with it afterwards; if it agreed before, entries, hashes, answers and eviction order are back |
| `DedupStores.FileDedupStore.Check` | src/internal/server/dedup_file.go:144-151 | Agreement of log and memory is kept when the log was ready and the line is written |
| `DedupStores.FileDedupStore.Remember` | src/internal/server/dedup_file.go:155-164 | Agreement is kept for nonempty answers when the log was ready and the line is written |
| `DedupStores.FileDedupStore.Append` | src/internal/server/dedup_file.go:196-225 | The line is appended whole, or any beginning of it is and the store stops saving |
| `DedupStores.FileDedupStore.Compact` | src/internal/server/dedup_file.go:229-287 | A log that was replaced is whole and agrees with memory again whatever stood in it, unless an empty answer is held; otherwise it is as it was |
| `Wire.RootMonotone` | src/internal/xml/wire.go:73-101 | The root read from a beginning is the root of the whole |
| `Wire.RoundTrip` | src/internal/xml/wire.go:104-142 | Encoding fails exactly beyond two bytes; decoding gives the text without its declaration, exactly when it has no swapped byte-order mark |
| `Wire.SwappedMarkIsRefused` | src/internal/xml/wire.go:104-142 | A document that is encoded and that decoding refuses |
| `Framer.CloseIsTag` | src/internal/xml/wire.go:49-60 | At a whole unit the closing bytes are the closing tag; misaligned matches are none |
| `Framer.MessagesDoNotDependOnChunks` | src/internal/xml/wire.go:32-71 | However a stream of messages is cut, the same messages are read, each whole, and no byte is lost or read twice while the rest fits the buffer |
| `Framer.EncodedMessagesArrive` | src/internal/xml/wire.go:32-132 | Documents encoded, sent in any cutting and framed arrive in order without their declarations |
| `Framer.UCS2BEFramer.constructor` | src/internal/xml/wire.go:28-30 | A new framer holds nothing |
| `Framer.UCS2BEFramer.Append` | src/internal/xml/wire.go:32-38 | Takes in a chunk if and only if it fits |
| `Framer.UCS2BEFramer.FindClose` | src/internal/xml/wire.go:50-60 | Finds the first closing tag at a whole unit, resuming where the last search ended |
| `Framer.UCS2BEFramer.CheckRoot` | src/internal/xml/wire.go:41-49 | The root is checked once per message, as soon as it can be read |
| `Framer.UCS2BEFramer.Next` | src/internal/xml/wire.go:40-71 | Gives the next message, waits, or fails, as the bytes held say |
| `Framer.UCS2BEFramer.Receive` | src/internal/xml/wire.go:32-71 | Draining after a chunk gives every message that is complete |
| `Reorder.MovedKeepsOrder` | src/internal/service/element_action.go:465-499 | The moved stories keep their order, and so do the others |
| `Reorder.MovedIsPermutation` | src/internal/service/element_action.go:465-499 | Nothing is lost or doubled |
| `Reorder.MovedIsBlock` | src/internal/service/element_action.go:475-499 | The moved stories stand together directly before the target, or at the end when it is absent or moves itself |
| `Reorder.RenumberedLists` | src/internal/service/element_action.go:501-508 | Once numbered and stored, the new order is the listing, and other running orders are untouched |
| `Reorder.SwapExchangesPlaces` | src/internal/service/element_action.go:668-694 | Swapping the numbers of two stories swaps exactly their places if and only if the numbers differ and each story fits among those that have the other's |
| `Reorder.NumberedCanSwap` | src/internal/service/element_action.go:501-508 | Stories numbered from one can always be swapped |
| `Reorder.MOSService.ListByRunningOrder` | src/internal/repository/memory.go:129-156 | The sorted listing of a running order |
| `Reorder.MOSService.ResolveStory` | src/internal/service/identity.go:36-62 | The composite key first, then the first listed story that bears the name |
| `Reorder.MOSService.ResolveStoryKeys` | src/internal/service/identity.go:69-79 | The keys of the named stories, and whether any name stands for none |
| `Reorder.MOSService.MoveStories` | src/internal/service/element_action.go:429-513 | The listing becomes the moved one; an unknown name changes nothing |
| `Reorder.MOSService.SwapStories` | src/internal/service/element_action.go:668-694 | Exchanges two numbers, or changes nothing |
| `MessageIds.IdInRange` | src/internal/messageid/sequence.go:110-134 | Every identifier lies in 1..2^31-1, whatever fails |
| `MessageIds.RunCovered` | src/internal/messageid/sequence.go:77-134 | Without storage failures the mark covers every value handed out in this cycle |
| `MessageIds.NoneTwice` | src/internal/messageid/sequence.go:77-134 | Whatever fails to be written, no identifier comes twice as long as no restart in between finds the mark behind the counter; a value comes again only after the counter began again at one: behind the limit, or up to a block before it when a restart finds the mark at the limit |
| `MessageIds.BehindRepeats` | src/internal/messageid/sequence.go:77-134 | The first identifier after a restart that finds the mark behind was handed out before |
| `MessageIds.RepeatsExactlyBehind` | src/internal/messageid/sequence.go:77-134 | A run hands out some identifier twice if and only if a restart in it finds the mark behind |
| `MessageIds.WrittenIsNeverBehind` | src/internal/messageid/sequence.go:77-134 | Without storage failures no restart finds the mark behind |
| `MessageIds.UncoveredWasIssued` | src/internal/messageid/sequence.go:77-134 | Every value the mark does not cover was handed out |
| `MessageIds.FailuresRepeat` | src/internal/messageid/sequence.go:98-105 | With storage failures a value can come twice |
| `MessageIds.Sequence.constructor` | src/internal/messageid/sequence.go:68-107 | A sequence that was never opened |
| `MessageIds.Sequence.ReserveBlock` | src/internal/messageid/sequence.go:153-177 | Records the mark, capped at the limit, or goes on without |
| `MessageIds.Sequence.Open` | src/internal/messageid/sequence.go:77-107 | Goes on behind the mark, from one when it is at the limit |
| `MessageIds.Sequence.Next` | src/internal/messageid/sequence.go:110-134 | Hands out the next value, wrapping to one behind the limit, reserving a block when needed |

## Left out

- Transports, sockets, HTTP requests, timers and goroutines: only the receiver's abstract replies and the order of events remain.
- XML and JSON library parsing, message structures and envelopes: messages are parsed values; metadata and body parsing results are part of them, a failed parse is a missing value.
- Rendering of acknowledgements: a function of the status whose results are nonempty and bounded; a rendering error is not modelled.
- The receiver's size limits and the display fields of a story: functions in the configuration.
- MongoDB repositories, event publication, objects, on-air state and timing fields: the repositories hold the fields that the proved properties are about.
- SourceStaging.ApplyStatus: the status only; the on-air pointer and the report's time and channel are not modelled.
- Escaping of keys: only the separator and the escape character are escaped; what the properties need is that keys stay apart and separator-free.
- OS file locks, fsync and symlink checks: one owner, atomic replacement, and failures that may or may not have had their effect.
- The length of a digest: it is a function on values, so no fixed length is assumed.
- Durable.Store.Save: the file is one value that is replaced; `CheckpointDocuments.HistoryCommitOpens` shows the same of the content-addressed form.
- CheckpointDocuments.DocumentsSeparate: how a single row is rendered is left open, except that different rows are rendered differently; version, binding and digest of the file are not modelled.
- Durable.Store.Commit: a context cancelled before the save returns an error without stopping the store; that is the case of a message that fails to stage, and is not modelled on its own.
- Durable.Store.Reopen: the lock, the binding, the version and the digest of the file are not checked.
- CommittedSources.CommittedSource.Apply: cancelled contexts and rendering errors are not modelled.
- RosterContent.RosterIsStored: of a roster only slugs, identities, objects and summaries; durations, channel, story numbers, media, timing and external metadata are not modelled. A summary is stored as it is given; the program trims white space at its ends first.
- Staging.Staged.PutOrder: channel, duration, metadata and version are not modelled.
- Staging.Staged.StoreItems: the merge rules for media, timing and metadata are not modelled.
- Staging.Staged.AddStories: story numbers, durations and metadata are not modelled.
- Staging.Staged.ReplaceRunningOrder: timing and metadata fields are not modelled.
- Staging.Staged.StoreBody: timing, media and story number fields are not modelled.
- SourceStaging.ApplyMessage: status and metadata messages change only the fields that are modelled.
- SourceSets.CommittedSourceSet.RouteEnrolled: a member's answer is any commit its own source can make for the message; the conflict path's invalidations are `MemberMoves`, and the check of connection and content size before routing is not modelled.
- SourceSets.CommittedSourceSet.MemberMoves: one commit of one member; connections, timeouts and the loop over members are not modelled here.
- SourceSets.CommittedSourceSet.constructor: a set over a new catalogue; a set over a retained one is `Reopen` of its files.
- SourceSets.CommittedSourceSet.Reopen: every store opens; one that cannot be opened, or whose freshness cannot be taken away, leaves no set, and is not modelled.
- SourceSets.CommittedSourceSet.ApplyCatalogue: only membership and receipts; what is published is modelled apart, in `CatalogueListings`, and the revocation of members a listing no longer names is `MemberMoves`.
- Runs of a set over the running member sources with their connections: a member of a set is the checkpoint it has committed, and what is asked of its commits holds of every commit of every source.
- The catalogue's own checkpoint file with its raw content: its commits are replaced in one piece; that its document is packable is not shown.
- DiscoveryWalks.DiscoveryWalk.Reopen: a file that is there and cannot be read or parsed is not modelled.
- SourceTransfers.SourceTransfer.constructor: the header of the document is given; failures to parse it are not modelled.
- Catalogue.Catalogue.constructor: the catalogue's own checkpoint and its lock are not modelled.
- Catalogue.Catalogue.OpenCommitted: lock, binding and integrity checks are reduced to whether a checkpoint is there.
- Catalogue.Catalogue.RetainMember: configured stores do not count towards the capacity here.
- Catalogue.Catalogue.OpenMembers: explicitly configured members, which keep their own stores beside the inventory, are not modelled.
- DedupStores.FileDedupStore.Append: calls are serialized; the gap between the memory update and the append is not interleaved. A power loss that takes more than the end of the last line is not modelled.
- DedupLog.ParseRender: answers stand for their base64 text. The reader accepts the program's own form of a line alone; lines in another order or spacing, which the program never writes, and lines over 4 MiB, at which scanning stops, are not modelled.
- MessageIds.Sequence.Open: the purely in-memory sequence that is used without a directory is not modelled.
- SourceTransfers.SourceTransfer.Step: the 64 KiB bound on a request body and the 32 KiB bound on a receipt are folded into an answer that says nothing.
- Reading a discovery or identifier file that something else corrupted.
- Item moves, inserts and replaces and story replaces and deletes of element actions: they mix wire identifiers with storage keys, so no ordering property holds of them as written.
- Upgrading a checkpoint between destinations, scope filtering, resync limits and heartbeat rates: they would add easy members.
- The four-worker publisher loop over catalogue members: its fairness depends on goroutine scheduling.
