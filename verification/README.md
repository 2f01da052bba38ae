# Society device synchronization, modelled and proved in Dafny

This project models the synchronization engine of the iiSociety helper and the stores
around it, and proves what they promise.  One authority keeps an append-only, hash-linked
journal of a container's namespace.  Mirrors import the journal page by page, pull the
host's entries, propose local edits against a confirmed base revision, and move file bytes
in resumable chunks.  Beside the engine stand the endpoint's job table, the encrypted
record store that several processes share, the delivery store, the JSON status document
and the remote image generation protocol.

`dafny verify dfyconfig.toml` checks the whole project.

## How it is laid out

- `Records`, `Paths`: records, clocks, contents, revisions; logical paths and conflict names.
- `NamespaceJournal`, `JournalPages`, `JournalRuns`, `JournalStore`: the log, its pages, the
  verifier of a mirror, runs over an unreliable network, and the journal as an object.
- `Trees`, `Replicas`: the file tree and the index of entries over it.
- `Merges`, `MergeSafety`, `MergeInvariant`, `MergeConditions`, `Payloads`, `ReplicaStore`:
  the conflict-preserving merge, what it never loses, what it keeps, exactly when it
  completes, payloads that stay away or come inline, and all of it statement by statement.
- `Ordering`, `HostVersions`, `Deltas`, `Layouts`, `TreeApplication`, `ConflictNames`,
  `DeltaApplication`, `FolderProposals`, `OverruledEntries`: from the compacted delta in the
  order of the round to a tree that agrees with the authority's, and exactly where it does.
- `RefusedMerges`, `WedgedPull`, `OverruledPull`, `SlippingFolder`: states and journals on which
  promises fail, over names and journals from `ExamplePaths` and `ExampleLogs`.
- `Adoption`, `HostBinding`: becoming a mirror, with stops at any moment.
- `Transfer`, `TransferStore`: appends, windows of chunks, installation of whole files.
- `Cursors`, `MergeSteps`, `MirrorChanges`, `RoundStore`: a round as a state machine, the
  merge as steps of it, and the round as an object.
- `Manifests`, `ManifestStore`: announcements, snapshots and receipts.
- `Endpoint`, `EndpointStore`; `StateFence`, `WriteDurability`, `StateStore`; `Delivery`;
  `JsonText`, `JsonValues`, `JsonRoundTrip`, `JsonReader`; `Generation`, `RemoteImage`,
  `RemoteRuns`, `GenerationStore`: the stores and protocols around the engine.

Operations that change state in the original are methods of classes, proved equal to a
function or a relation of the model; the theorems are about those.  SHA-256 is an injective
constructor, sealing binds key, token and master key, a database transaction is one step,
and time, randomness, the order of replies and the failures of others are inputs of a step.

## What the proofs found

Seven promises hold only under a condition.  Each is stated with its exact condition, and each
with a state and an input on which it fails.

1. A deletion in the pulled delta that lies below a path which is a file on the mirror
   cannot be looked up, because listing a file as a folder fails
   (src/Sync/ConfinedFiles.cpp:163-186, src/Sync/ConfinedFiles.cpp:433-448).  The pull then
   never gets past it.  `DeltaApplication.TreeToTree` says, for every delta, that a pull
   completes exactly when no entry is refused by what the mirror has at that moment;
   `DeltaApplication.PlainTreeToTree` says it by the delta and the namespaces alone.
   `WedgedPull.FolderInBetweenBlocks` gives a journal of seven revisions and a mirror for
   which the pull fails and changes nothing, and so fails every time.
2. A conflict copy whose name is taken by something else, or has no place, is refused, and
   the merge with it (src/Sync/Replica.cpp:529-532).  `MergeConditions.ConflictIsKeptIff` says
   exactly when; `RefusedMerges.TakenNameRefuses` gives two replicas that made the same file.
3. A pull that completes need not end in agreement with the host.  Where a folder of the host
   replaces a file, the mirror makes the conflict copy itself, under the folder's clock
   (src/Sync/Replica.cpp:526), and a host's own entry under the copy's name whose clock is
   behind that one is overruled by the copy: the mirror keeps its bytes, and proposes them as
   an edit of that very entry (src/Sync/Replica.cpp:454-460), which the host accepts.
   `TreeToTree` says exactly at which paths a mirror agrees, `PlainTreeToTree` that it is a
   comparison of two clocks.  `FolderProposals.FolderReachesMirrors` shows that what the host
   records when it takes such a folder is never overruled; `OverruledEntries.ChangeIsUndone`
   that an overruled change is undone, and `OverruledPull.EditIsUndone` gives a journal of six
   revisions on which nobody but the host changed anything and its edit is gone.
4. The record store's fence protects what must not be read any more, not what is written
   afterwards: a removal erases the record later than it commits its token, without the
   lock.  `WriteDurability.AcknowledgedWriteReadsBackIff` says, over all runs, exactly when an
   acknowledged write is read back under its token, and
   `WriteDurability.UndisturbedWriteReadsBackIff` says it in a caller's terms.
   `StateFence.AcknowledgedWriteCanBeErased` gives an interleaving in which it is not.  An empty
   value cannot be told from a broken one when it is read (`StateFence.ReadsBackIff`).  A
   tombstone that cannot be written is ignored (src/Storage/GroupSessionStore.cpp:198): the
   removal is acknowledged all the same, and only the token keeps the old record from being
   read.
5. An authority restored to a state before a path existed refuses every proposal of a file
   or deletion for it that names a base, for a file only after its conflict copy was placed
   (`MergeConditions.UnknownPathIsCreatedIff`; `RefusedMerges.EditAfterRestoreFails`).
6. An adoption waits forever when somebody recreates an entry already moved, or deletes one
   not yet moved, between two openings; nothing is lost (`Adoption.ForeignChangesHoldItUp`;
   `Adoption.RecreatedEntryHoldsUp`).
7. The push cursor can pass a proposal the host has not completed: a confirmed row at or
   before it that becomes a proposal again under the version it has keeps its sequence
   (src/Sync/Replica.cpp:391).  `Cursors.CursorsAreSafe` says that the push cursor is safe
   throughout a run exactly when no step of it does that, and
   `Cursors.CursorCanPassAProposal` is a run with such a step.  A folder a mirror keeps against
   its host (src/Sync/Replica.cpp:483-490) makes it exactly when its clock covers the host's
   (`MergeSteps.KeptFolderSlipsIff`; `SlippingFolder.MergeSlips` is such a merge), a conflict
   copy exactly when it lies there already, confirmed (`MergeSteps.SavedCopySlipsIff`).  The
   pull cursor is safe in every run.

One thing to know about the index: a record read from it carries the row's local sequence in
place of the journal's (src/Sync/Replica.cpp:366-371); `Replicas.EntryOf` does the same.

## Model

| member | source | states |
|---|---|---|
| `NamespaceJournal.CommitKeepsWellFormed` | src/Sync/NamespaceJournal.cpp:70-82 | A commit of any record keeps the log well-formed (sequences from 1, each `previous` naming the revision before, parents earlier, a path's prior revision among them), appends at most one revision, answers with the newest revision of that path holding exactly that version, and moves no other path's newest revision. |
| `NamespaceJournal.AcceptKeepsWellFormed` | src/Sync/NamespaceJournal.cpp:103-126 | Whatever page arrives, forged ones included: an accepted page extends the log by exactly its entries, ends at the page's `next`, and keeps the log well-formed. |
| `NamespaceJournal.HeadFixesHistory` | src/Sync/NamespaceJournal.cpp:110-113 | The hash chain names its whole history: two well-formed logs that share one revision agree on everything up to it. |
| `JournalPages.DeltaEqualsReplay` | src/Sync/NamespaceJournal.cpp:87-98 | Overlaying the compacted delta of `(after, through]` on the newest-per-path map at `after` gives exactly the map at `through`. |
| `JournalPages.StitchedPages` | src/Sync/NamespaceJournal.cpp:83-102 | Pages that keep one `through`, requested while the journal grows between them, are together exactly the selection of the journal the first page was cut from. |
| `JournalPages.CompactedPagesCarryForward` | src/Sync/NamespaceJournal.cpp:83-102 | The compacted pages of one pinned `through` name each path at most once and carry a receiver from the state at `after` to the state at `through`. |
| `JournalPages.PageMakesProgress` | src/Sync/NamespaceJournal.cpp:92-101 | A page that promises more holds at least one revision and moves the cursor strictly, below `through`, because one record always fits a page. |
| `JournalPages.MirrorTakesPage` | src/Sync/NamespaceJournal.cpp:83-126 | A mirror holding the authority's first revisions accepts every history page cut from its own head, and then holds the authority's log up to the page's `next`. |
| `JournalRuns.MirrorIsAlwaysAPrefix` | src/Sync/Synchronizer.cpp:192-199 | In every run with delayed, repeated, reordered or lost pages, restored hosts and rebinding: both logs stay well-formed, and a mirror following the current epoch holds a prefix of the authority's log. |
| `JournalRuns.PagingReachesThrough` | src/Sync/Synchronizer.cpp:192-199 | Repeated history paging is never refused, takes at most one page per missing revision plus one, and ends with the authority's log as it was at the first request. |
| `JournalStore.Journal.Object` | src/Sync/NamespaceJournal.cpp:55-58 | The newest-first search over the rows finds the path's newest revision. |
| `JournalStore.Journal.Commit` | src/Sync/NamespaceJournal.cpp:70-82 | The statement-by-statement commit is the specified one and keeps the journal valid. |
| `JournalStore.Journal.Fill` | src/Sync/NamespaceJournal.cpp:92-98 | The loop that fills a page takes the longest run of rows that fits 128 slots and 256 KiB, and reports exactly whether a row did not fit. |
| `JournalStore.Journal.Changes` | src/Sync/NamespaceJournal.cpp:83-102 | The page method answers with the specified page. |
| `JournalStore.Journal.Accept` | src/Sync/NamespaceJournal.cpp:103-126 | The insert loop accepts exactly the pages the verifier accepts and then holds the extended log; a refused page leaves at most a valid extension behind. |
| `JournalStore.Journal.AcceptJournal` | src/Sync/Replica.cpp:1023-1036 | Only a page from the bound host is taken, exactly when the verifier accepts it; a refused page changes nothing. |
| `Records.CompareMirrored` | src/Sync/Replica.cpp:69-78 | Clock comparison is the pointwise order: equal, greater and concurrent mean what they say, and the two directions mirror each other. |
| `Records.JoinedIsLeastUpperBound` | src/Sync/Replica.cpp:79-83 | The join of two clocks dominates or equals both and is the least such clock. |
| `Paths.ConflictPathIsPhysical` | src/Sync/Replica.cpp:85-90 | The conflict name of an entry that has a place in the tree has a place too, exactly unless the whole key outgrows the length limit. |
| `Paths.ConflictPathShape` | src/Sync/Replica.cpp:85-90 | A conflict copy stays in its original's folder. |
| `Paths.ConflictPathDiffers` | src/Sync/Replica.cpp:85-90 | It never names the original itself. |
| `Trees.InstallOk` | src/Sync/ConfinedFiles.cpp:311-346 | Installing a file where the operation succeeds keeps every entry inside existing folders. |
| `Trees.RemoveOk` | src/Sync/ConfinedFiles.cpp:386-424 | Removing a file or an empty folder does too. |
| `Replicas.SaveKeepsInv` | src/Sync/Replica.cpp:372-403 | Saving under an honest stamp keeps the whole invariant: on the authority each row is the projection of its path's newest revision and every path of the log has a row; on a mirror each row is confirmed or pending, never both; and no row under the tree's own stamp tells a lie. |
| `Replicas.SaveFromInv` | src/Sync/Replica.cpp:372-403 | A save changes one row to exactly the saved content, at most one revision of that path, and nothing else. |
| `Replicas.ObservedMakesFresh` | src/Sync/Replica.cpp:404-424 | A look at the tree changes at most that path's row, leaves the tree alone and ends with the row saying what the tree holds. |
| `Replicas.LookKeepsBase` | src/Sync/Replica.cpp:383-389 | A look never moves the base of a path. |
| `Replicas.EditBecomesProposal` | src/Sync/Replica.cpp:404-419 | An edit that changes contents becomes a proposal against that base. |
| `Replicas.OfflineEditsKeepFirstBase` | src/Sync/Replica.cpp:382-389 | However often a mirror edits offline, each proposal keeps the revision that was confirmed at its first edit. |
| `MergeInvariant.MergeKeepsInv` | src/Sync/Replica.cpp:443-551 | Every merge, completed, refused or broken off anywhere, keeps the index in agreement with the log and the tree. |
| `MergeSafety.NoBytesVanish` | src/Sync/Replica.cpp:443-551 | No merge, whatever its outcome, lets any file's bytes vanish: each file is still at its path or its bytes are archived. |
| `MergeSafety.MergeTouchesLittle` | src/Sync/Replica.cpp:443-551 | No third path changes: only the entry's path and the conflict names of the two versions can. |
| `MergeSafety.AuthorityKeepsIncoming` | src/Sync/Replica.cpp:492-551 | On the authority a proposed file that completes is at its own path or at its conflict path, with the proposed digest. |
| `MergeSafety.AuthorityKeepsLocal` | src/Sync/Replica.cpp:492-551 | On the authority the local file's bytes stay at the path or at their conflict path unless the base is exactly the confirmed revision and no folder takes the place; even then they are archived. |
| `MergeSafety.MirrorKeepsPending` | src/Sync/Replica.cpp:492-551 | On a mirror a file edited since the last confirmed revision survives every host revision that completes, at its path or its conflict path. |
| `MergeSafety.PlaceCopyKeeps` | src/Sync/Replica.cpp:525-535 | Placing the losing file only adds its conflict path, which then holds the loser's digest. |
| `MergeSafety.MaterializeKeeps` | src/Sync/Replica.cpp:537-546 | Materializing changes only the path and archives the file it replaces or removes. |
| `MergeConditions.UnknownPathIsCreatedIff` | src/Sync/Replica.cpp:492-551 | A valid, fully staged proposal for a path the authority does not know completes exactly when it claims no base or is a folder (finding 5). |
| `RefusedMerges.EditAfterRestoreFails` | src/Sync/Replica.cpp:498-500 | A mirror's edit of a confirmed file, proposed to an authority restored to an empty state, is refused although it is valid and staged (finding 5). |
| `MergeConditions.ConflictIsKeptIff` | src/Sync/Replica.cpp:525-535 | The losing file of a conflict is kept exactly when its conflict name has a place and is unused or already holds its bytes, and its row can be saved; when the name does not serve, the merge fails before it changes anything (finding 2). |
| `RefusedMerges.TakenNameRefuses` | src/Sync/Replica.cpp:529-532 | Two replicas made the same file, the second one's bytes are staged, and a file with other bytes lies under their conflict name: the merge is refused and changes nothing (finding 2). |
| `MergeConditions.ProposedFolderIsNewIff` | src/Sync/Replica.cpp:483-491 | A mirror's folder kept against a host revision gets a new local sequence exactly when the host's clock is not covered by the folder's (finding 7). |
| `MergeSteps.MergeIsAStep` | src/Sync/Replica.cpp:443-551 | Every merge on a mirror, however it ends, is for the round at most an edit found by the look, then at most a conflict copy saved, and then, exactly when it completes, one of the three effects of the machine in `Cursors`. |
| `MergeSteps.KeptFolderSlipsIff` | src/Sync/Replica.cpp:483-491 | A confirmed folder kept against the host becomes a proposal behind the push cursor exactly when its clock covers the host's, its sequence lies at or before the cursor, and the host has not completed it (finding 7). |
| `SlippingFolder.MergeSlips` | src/Sync/Replica.cpp:483-491 | A mirror whose non-empty folder was confirmed by a lost journal, and a restored host's deletion under an older clock: the merge completes, the push cursor was safe before it and is not after it (finding 7). |
| `MergeSteps.SavedCopySlipsIff` | src/Sync/Replica.cpp:525-535 | A conflict copy becomes a proposal behind the push cursor exactly when it lies there word for word as a confirmed file that the host has not completed (finding 7). |
| `ReplicaStore.Store.SaveEntry` | src/Sync/Replica.cpp:372-403 | The savepoint sequence of statements saves as specified and undoes itself when it fails. |
| `ReplicaStore.Store.Observe` | src/Sync/Replica.cpp:404-419 | The comparison of a path with its row is the specified look; a failed one leaves only the edit counter advanced. |
| `ReplicaStore.Store.KeepLosing` | src/Sync/Replica.cpp:525-535 | Keeping the losing file; a placed copy stays even when it cannot be saved. |
| `ReplicaStore.Store.Place` | src/Sync/Replica.cpp:529-534 | The copy is found in place, linked from the local file, or moved from the staged part, as specified. |
| `ReplicaStore.Store.PutInPlace` | src/Sync/Replica.cpp:537-546 | The tree changes as specified for each kind. |
| `ReplicaStore.Store.ChooseRoute` | src/Sync/Replica.cpp:446-524 | The tests a merge makes, in their order, choose the specified route. |
| `ReplicaStore.Store.MergeEntry` | src/Sync/Replica.cpp:443-551 | The whole method, statement by statement, is the merge the theorems speak of. |
| `Payloads.OnlyConfirmedPayloadsAreGivenUp` | src/Sync/Replica.cpp:853-867 | Recording the host's file without its payload keeps the index honest and never gives up a file with an unconfirmed edit: only one whose bytes a confirmed row tells of, archived. |
| `Payloads.RecordedIff` | src/Sync/Replica.cpp:853-867 | A host's file is recorded exactly when there is no unconfirmed edit and no folder in its place, and the row is then the host's revision. |
| `Payloads.AwayIsNoDeletion` | src/Sync/Replica.cpp:407-410 | An entry without a local payload is not taken for a user's deletion. |
| `Payloads.RecordedIsFetched` | src/Sync/Replica.cpp:443-551 | The payload of a recorded file can be fetched later: committing its staged bytes puts them at its path and keeps the row's revision. |
| `Payloads.CommitNeverAsks` | src/Sync/Replica.cpp:505-511 | A commit never asks for bytes; it completes or fails. |
| `Payloads.InlineIsTheTransfer` | src/Sync/Replica.cpp:1236-1257 | Committing a small file together with its payload comes to the same reply and state as staging it after a `begin` and committing it; on a full drive it is refused and nothing changes. |
| `ReplicaStore.Store.AcceptMetadata` | src/Sync/Replica.cpp:853-867 | The method that records metadata is the specified one. |
| `ReplicaStore.Store.CommitInline` | src/Sync/Replica.cpp:1236-1257 | The inline commit is the specified one. |
| `Ordering.BeforeIsStrictTotal` | src/Sync/Synchronizer.cpp:17-29 | The comparison is a strict total order on entries with distinct paths. |
| `Ordering.StructureFirst` | src/Sync/Synchronizer.cpp:17-29 | It puts folders before everything below them, deletions after the deletions below them, and files last. |
| `Ordering.OneOrder` | src/Sync/Synchronizer.cpp:17-29 | Entries with distinct paths have exactly one ordered arrangement, whatever sort the library uses. |
| `Ordering.PriorityKeepsEntries` | src/Sync/Synchronizer.cpp:242-257 | The stable re-sort by priority loses and repeats no entry. |
| `Ordering.PriorityKeepsStructure` | src/Sync/Synchronizer.cpp:242-257 | Re-sorting by priority keeps folders before what is below them, deletions after the deletions below them, and files last. |
| `HostVersions.MirrorTakesHostVersion` | src/Sync/Replica.cpp:443-551 | A mirror whose edit at a path, if any, is not newer takes the host's version: row and tree then say exactly what the host said, and nothing else changed but a conflict copy of a file that became a folder or was not confirmed. |
| `HostVersions.NewerEditStays` | src/Sync/Replica.cpp:454-460 | A newer edit of the mirror's own stays exactly as it is; only its base becomes the host's revision. |
| `Layouts.PullMeets` | src/Sync/Replica.cpp:443-551 | What a full mirror has at each path decides what pulling an entry does: it is refused exactly when a file lies above it or a displaced file's conflict name does not serve, and otherwise completes with exactly the layout that follows, the mirror's own files included. |
| `HostVersions.MergeTouchesOnePart` | src/Sync/Replica.cpp:504-524 | No merge touches another transfer's staged part. |
| `Layouts.HiddenFails` | src/Sync/ConfinedFiles.cpp:433-448 | An entry below a path that is a file on the mirror cannot even be looked up, and the pull breaks off there. |
| `Layouts.TakenNameFails` | src/Sync/Replica.cpp:525-535 | An entry that displaces a file whose conflict name is taken or has no place is not put in place. |
| `Deltas.DownloadsAreArranged` | src/Sync/Synchronizer.cpp:242-257 | What the re-sort by priority leaves of an ordered delta is still arranged, so that the application theorems hold for it. |
| `TreeApplication.DeltaIsAppliedIff` | src/Sync/Replica.cpp:443-551 | A full mirror without edits pulls any arranged delta leading to a tree exactly when no entry is refused by what the mirror has at that moment, and then has exactly what the delta makes of its namespace. |
| `TreeApplication.NamedAgreesIff` | src/Sync/Replica.cpp:443-551 | At an entry's path the mirror ends in agreement with its host exactly when no copy whose clock is ahead met the entry and none was put there later (finding 3). |
| `TreeApplication.UnnamedAgreesIff` | src/Sync/Replica.cpp:492-536 | At any other path it does exactly when no copy was put there. |
| `TreeApplication.OverruledIsProposed` | src/Sync/Replica.cpp:454-460 | An overruled entry leaves the mirror with its copy, proposed as an edit of the very revision it overruled (finding 3). |
| `ConflictNames.StoppedIff` | src/Sync/Replica.cpp:443-551 | For deltas that keep the names of copies apart: an entry is refused exactly when it is a deletion below a file that stays in its way, or a first or second copy's name does not serve. |
| `ConflictNames.NamedAgreesPlainly` | src/Sync/Replica.cpp:454-460 | For such deltas a completed pull ends in agreement at an entry's path exactly when no folder leaves a copy there whose clock is ahead of the entry's (finding 3). |
| `ConflictNames.UnnamedAgreesPlainly` | src/Sync/Replica.cpp:492-536 | At any other path exactly when it is no name of a copy. |
| `DeltaApplication.DeltaLeadsThrough` | src/Sync/NamespaceJournal.cpp:83-102 | However the compacted delta is rearranged, overlaying it on the namespace at `after` gives the namespace at `through`. |
| `DeltaApplication.TreeToTree` | src/Sync/Synchronizer.cpp:343-382 | From the authority's map at `after` to its map at `through`, whatever names the delta contains: pulling the compacted delta in the order of the round, or in any other that keeps the structure, completes exactly when no entry is refused, and the mirror agrees with the host at exactly the paths where no copy of its own overruled the entry or came later (findings 1 to 3). |
| `DeltaApplication.PlainTreeToTree` | src/Sync/Synchronizer.cpp:343-382 | The same by the delta and the two maps alone: completion by what lies in the way and which names serve, agreement by comparing the folder's clock with the host's clock at the conflict name (findings 1 to 3). |
| `FolderProposals.BothAreRecorded` | src/Sync/Replica.cpp:492-551 | When the authority takes a folder over a file, its journal gains exactly the conflict copy and the folder, both under the joined clock. |
| `FolderProposals.FolderReachesMirrors` | src/Sync/Replica.cpp:443-551 | Every other mirror that held the namespace before then pulls the two and holds exactly the namespace after, the conflict copy confirmed. |
| `OverruledEntries.OverruledStays` | src/Sync/Replica.cpp:454-460 | After a completed pull an overruled path has the copy's bytes, as a proposal against the host's entry (finding 3). |
| `OverruledEntries.BasedIsTaken` | src/Sync/Replica.cpp:492-551 | The authority takes a staged file proposed against the confirmed revision without a conflict copy: its own file goes to the archive and nothing but that path changes. |
| `OverruledEntries.ChangeIsUndone` | src/Sync/Replica.cpp:443-551 | A host that is offered that proposal has the path's old contents back (finding 3). |
| `OverruledPull.EditIsUndone` | src/Sync/Replica.cpp:443-551 | A journal of six revisions, a mirror in step with it, and a host: the mirror pulls, proposes what it had, and the host's edit is gone from the tree (finding 3). |
| `WedgedPull.FolderInBetweenBlocks` | src/Sync/ConfinedFiles.cpp:163-186 | For any file name and any path directly inside a folder of that name: a journal of seven commits, the delta its host selects after the first, and a mirror that holds the first; all that a pull asks for is there, and still it fails and changes nothing (finding 1). |
| `ExamplePaths.SomeAreNested` | src/Sync/Replica.cpp:46-55 | There are such names with a place in the tree. |
| `OverruledPull.SomeAreRoomy` | src/Sync/Replica.cpp:46-55 | There is a file whose conflict names all have a place in the tree. |
| `Adoption.DetachConserves` | src/Sync/ConfinedFiles.cpp:347-385 | Every run of the recovery plan, finished, stopped or refused, conserves the planned entries: none is lost or overwritten. |
| `Adoption.PlanFinishesIff` | src/Sync/Replica.cpp:353-356 | The plan runs through exactly when of every planned pair exactly one place is taken; then every entry is at its target. |
| `Adoption.ResumeFromAnywhere` | src/Sync/Replica.cpp:345-365 | Wherever an adoption was stopped, opening again gets on with it, is never refused, and finishes given enough steps. |
| `Adoption.CrashSafeAdoption` | src/Sync/Replica.cpp:345-365 | However often it is interrupted, no entry is lost or overwritten in between, and the first uninterrupted opening puts every entry exactly at its recovery target and leaves an empty index. |
| `Adoption.ForeignChangesHoldItUp` | src/Sync/ConfinedFiles.cpp:355-380 | When somebody else changes the files in between, the adoption finishes exactly when of every planned pair exactly one place is taken; either way entries are conserved (finding 6). |
| `Adoption.RecreatedEntryHoldsUp` | src/Sync/ConfinedFiles.cpp:355-380 | An adoption stopped after it moved a file, whose old name is then used again: every later opening is refused and leaves both files where they are (finding 6). |
| `HostBinding.BindingKeepsEverything` | src/Sync/Replica.cpp:695-742 | Binding to a new host moves every entry of the sections to the recovery folder, touches nothing else, and leaves an empty index under the host's container identity. |
| `HostBinding.OwnDiskStays` | src/Sync/Replica.cpp:720-726 | An application's own disk keeps its files in place when it first becomes a mirror. |
| `HostBinding.RebindingKeepsWork` | src/Sync/Replica.cpp:702-713 | When the same host comes back as a restored replica, rows, proposals, clocks, files and identity stay; only the imported journal and that host's cursors start over. |
| `HostBinding.Mirror.RunPlan` | src/Sync/Replica.cpp:352-356 | The loop over the plan does what the specified plan does, wherever it stops. |
| `HostBinding.Mirror.ResumeAdoption` | src/Sync/Replica.cpp:345-365 | Resuming an adoption, statement by statement. |
| `HostBinding.Mirror.BindHost` | src/Sync/Replica.cpp:695-742 | Binding, statement by statement. |
| `Transfer.AppendIff` | src/Sync/ConfinedFiles.cpp:264-284 | An append succeeds exactly at the end of the part or on an identical repetition, never changes a byte that is there, and afterwards the part holds the chunk. |
| `Transfer.ChunkKeepsPrefix` | src/Sync/Replica.cpp:1268-1283 | A chunk of the pinned content keeps a prefix of it a prefix; it is taken exactly when it starts at the end of the part or lies inside it. |
| `Transfer.BrokenKeepsPrefix` | src/Sync/ConfinedFiles.cpp:274-280 | An append that breaks off leaves a prefix too. |
| `Transfer.WindowInAnyOrder` | src/Sync/Synchronizer.cpp:413-434 | For every order of the replies in a window chunks are appended in offset order, the part is a prefix at every moment, and the buffer is empty when the window closes. |
| `Transfer.DownloadReachesTheEnd` | src/Sync/Synchronizer.cpp:398-435 | From any staged prefix, after enough windows the whole content is staged, whatever the order of the replies. |
| `Transfer.AnyReplyIsSound` | src/Sync/Synchronizer.cpp:419-431 | Whatever the replies contain, the part only grows, its length is the offset, and it never passes the announced size. |
| `Transfer.UploadInAnyOrder` | src/Sync/Synchronizer.cpp:477-503 | However chunks and acknowledgements overtake one another, the host's part is a prefix of the sender's content, never shorter than what the sender counts, and a complete window leaves the two equal. |
| `TransferStore.OnlyWholeFilesAreInstalled` | src/Sync/Replica.cpp:512-524 | A file appears or changes at an entry's path only with exactly the announced size and digest. |
| `TransferStore.Receiver.OpenWindow` | src/Sync/Synchronizer.cpp:414-418 | The request loop asks for the positions of the window. |
| `TransferStore.Receiver.Append` | src/Sync/ConfinedFiles.cpp:264-284 | The append as it runs is the specified one. |
| `TransferStore.Receiver.Receive` | src/Sync/Synchronizer.cpp:418-433 | A reply is checked, buffered and drained as specified. |
| `Cursors.StepKeepsInvIff` | src/Sync/Synchronizer.cpp:343-397 | Every step of a round keeps the promises of the cursors and of the shared fields `entries` and `through`, exactly unless it makes a confirmed row behind the push cursor a proposal again under the version it has. |
| `Cursors.CursorsAreSafe` | src/Sync/Synchronizer.cpp:436-453 | In every run, over stops, restarts, refreshes in the middle of a transfer, early pushes and restored hosts: the saved pull cursor never passes a host change not merged, neither cursor goes back except on a rebinding, and the saved push cursor never passes a proposal the host has not completed exactly when no step slips (finding 7). |
| `Cursors.CursorCanPassAProposal` | src/Sync/Replica.cpp:372-403 | A run of two rounds in which a confirmed folder is proposed again under its version: the push cursor has passed the proposal, which the host has not completed (finding 7). |
| `MirrorChanges.PageSplits` | src/Sync/Replica.cpp:1043-1060 | A page of local proposals and the list after its `next` are the whole list; while there is more, the cursor moves. |
| `MirrorChanges.Table.Walk` | src/Sync/Replica.cpp:1047-1057 | The row loop passes over confirmed rows and takes proposals while they fit. |
| `MirrorChanges.Table.Changes` | src/Sync/Replica.cpp:1043-1060 | The page method answers with the specified page. |
| `MirrorChanges.Table.CollectOutgoing` | src/Sync/Synchronizer.cpp:290-302 | Page after page the announcement collects exactly the proposals after the push cursor, each once, in sequence order. |
| `RoundStore.ChangesAreTheSelection` | src/Sync/NamespaceJournal.cpp:89-98 | The changes a round counts are the rows the host's compacted selection returns. |
| `RoundStore.Synchronizer.SavePeerState` | src/Sync/Replica.cpp:1296-1310 | The saved cursors are the larger ones. |
| `RoundStore.Synchronizer.ReceivePage` | src/Sync/Synchronizer.cpp:167-190 | A page is taken exactly when it comes from the described replica and container, fits the cursor, and holds valid records of rising sequences within the limit; taken, the page the host has is a step of the machine, and refused it ends the round. |
| `RoundStore.Synchronizer.ReadLines` | src/Sync/Synchronizer.cpp:179-187 | The entry loop takes all entries or none fits. |
| `RoundStore.GenuineIsListed` | src/Sync/Synchronizer.cpp:167-190 | A page the host has is refused only for an invalid record or for too many entries. |
| `RoundStore.Synchronizer.ListOutgoing` | src/Sync/Synchronizer.cpp:290-302 | The pages of the row table, collected one after the other, are exactly what is pending. |
| `RoundStore.Synchronizer.AnnounceLocal` | src/Sync/Synchronizer.cpp:290-318 | The announcement lists exactly the proposals after the push cursor, or nothing while the mirror is being filled. |
| `RoundStore.Synchronizer.PullDone` | src/Sync/Synchronizer.cpp:345-361 | Only after the last entry does the pull cursor move. |
| `RoundStore.Synchronizer.PushDone` | src/Sync/Synchronizer.cpp:436-453 | An early push leaves both cursors where they are; a full push moves the push cursor. |
| `RoundStore.Synchronizer.RefreshBetweenChunks` | src/Sync/Synchronizer.cpp:387-397 | A refresh in the middle of a transfer leaves the cursors uncommitted. |
| `Manifests.PageKeepsInv` | src/Sync/Replica.cpp:1089-1154 | At every page the five diff counters add up to the entries accepted so far, members number the entries, and a complete manifest is the list its identifier is the digest of. |
| `Manifests.CompleteKeepsInv` | src/Sync/Replica.cpp:1156-1177 | A new receipt is written only when every announced entry was merged to completion under this very announcement, with as many members as the announced total. |
| `Manifests.ReceiptsAreTruthful` | src/Sync/Replica.cpp:1089-1177 | In every run every receipt on record is truthful. |
| `ManifestStore.Store.AddEntry` | src/Sync/Replica.cpp:1116-1139 | One announced entry is checked, counted and added as specified. |
| `ManifestStore.Store.HandlePage` | src/Sync/Replica.cpp:1089-1154 | The manifest request, statement by statement. |
| `ManifestStore.Store.Admit` | src/Sync/Replica.cpp:1178-1191 | A transfer is admitted exactly when it names the announced manifest, its snapshot and its entry. |
| `ManifestStore.Store.CompleteSnapshot` | src/Sync/Replica.cpp:1156-1177 | The completion request, statement by statement. |
| `Endpoint.StepKeepsInv` | src/Sync/Controller.cpp:551-579 | The table never exceeds 32; an unfinished job has exactly one run outstanding and a finished or absent one none. |
| `Endpoint.RoomKeepsUnfinished` | src/Sync/Controller.cpp:560-566 | Making room removes finished jobs only and ends with a free place or a table full of unfinished jobs. |
| `Endpoint.JobsAreStable` | src/Sync/Controller.cpp:403-412 | While a job stays in the table its request and its result never change, and it does not leave before it is finished or the endpoint is reopened. |
| `Endpoint.PollsStartNothing` | src/Sync/Controller.cpp:552-555 | A poll changes nothing and starts nothing; with another envelope it is refused. |
| `Endpoint.EqualPollsEqualAnswers` | src/Sync/Controller.cpp:551-555 | In every run, while a token stays in the table its request is the one it was entered with, and from the first answer on every poll gets that same answer. |
| `Endpoint.OneJobPerToken` | src/Sync/Controller.cpp:551-579 | In every run a token has at most one job with the worker or on its way back, none once its answer is there, and the table stays within its limit. |
| `EndpointStore.Controller.Expire` | src/Sync/Controller.cpp:557-559 | The erasing walk removes exactly the finished jobs older than a minute. |
| `EndpointStore.Controller.Oldest` | src/Sync/Controller.cpp:561-563 | The search finds an oldest finished job, or there is none. |
| `EndpointStore.Controller.MakeRoom` | src/Sync/Controller.cpp:560-566 | The eviction loop terminates and does what making room means. |
| `EndpointStore.Controller.Handle` | src/Sync/Controller.cpp:551-579 | The request handler is a step of the specified machine. |
| `EndpointStore.Controller.Result` | src/Sync/Controller.cpp:403-405 | A result of an older generation or a forgotten job is dropped. |
| `StateFence.StepKeepsInv` | src/Storage/GroupSessionStore.cpp:206-302 | Whatever the interleaving of several stores on one directory: a record file holds what was sealed for its key under the token in its header, and only the holder of the lock works. |
| `StateFence.AnswersAreCurrent` | src/Storage/GroupSessionStore.cpp:296-302 | A read that answers with data answers with something sealed for its key under the token in force at that moment. |
| `StateFence.NothingOldIsRead` | src/Storage/GroupSessionStore.cpp:190-201 | After a removal committed its token, every read that answers with data answers with something sealed under a token that was in force at no moment before the removal, however late an older write lands. |
| `StateFence.NothingInHandIsRead` | src/Storage/GroupSessionStore.cpp:182-201 | Whatever any store had queued, observed or in work at the removal can only seal under tokens that no later successful read is sealed under. |
| `StateFence.OneAtATime` | src/Storage/GroupSessionStore.cpp:214-222 | Only one store at a time works between taking the lock and finishing. |
| `StateFence.RecordsChangeOnlyBy` | src/Storage/GroupSessionStore.cpp:281-295 | A record changes only by a save of the lock's holder or by the second half of a removal. |
| `StateFence.ReadsBackIff` | src/Storage/GroupSessionStore.cpp:259-262 | What was written under the token in force reads back, exactly when it is not empty (finding 4). |
| `StateFence.AcknowledgedWriteCanBeErased` | src/Storage/GroupSessionStore.cpp:195-200 | A concrete interleaving in which a write under the new token is acknowledged and then erased (finding 4). |
| `WriteDurability.ReadsTheLastTouch` | src/Storage/GroupSessionStore.cpp:206-302 | In every run a read that is neither disturbed nor overtaken answers with what the last step left that wrote its record, a save or the erasing half of a removal. |
| `WriteDurability.AcknowledgedWriteReadsBackIff` | src/Storage/GroupSessionStore.cpp:206-302 | In every run an acknowledged write has saved its data, and a later read under the same token gives them back exactly when they are not empty and the last step that wrote the record left them there (finding 4). |
| `WriteDurability.UndisturbedWriteReadsBackIff` | src/Storage/GroupSessionStore.cpp:182-302 | In a caller's terms: a write whose save met no removal of its key under way and was not saved over is read back under the same token exactly when it is not empty (finding 4). |
| `WriteDurability.ErasedWriteIsGone` | src/Storage/GroupSessionStore.cpp:190-201 | When the last step that wrote the record erased it, a read answers that nothing is there, although the token is in force (finding 4). |
| `StateStore.GroupSessionStore.Write` | src/Storage/GroupSessionStore.cpp:182-189 | A write goes out under the token this store observed last. |
| `StateStore.GroupSessionStore.CommitRemoval` | src/Storage/GroupSessionStore.cpp:190-197 | A removal commits its token first; when that fails nothing was removed, and only this store's earlier requests are overtaken. |
| `StateStore.GroupSessionStore.EraseRecord` | src/Storage/GroupSessionStore.cpp:198-201 | The second half writes the tombstone; when that fails, the removal goes on and the old record stays. |
| `StateStore.GroupSessionStore.TakeNext` | src/Storage/GroupSessionStore.cpp:206-210 | An overtaken request is dropped before any work. |
| `StateStore.GroupSessionStore.Finish` | src/Storage/GroupSessionStore.cpp:296-302 | The lock goes, and an overtaken request answers that nothing is there. |
| `JsonText.StringInvertsQuote` | src/Monitoring/Monitor.cpp:126-152 | Parsing undoes quoting for every sequence of bytes, and stops right after it. |
| `JsonText.EscapedIsUtf8` | src/Monitoring/Monitor.cpp:301-309 | Quoting keeps text valid UTF-8 (section 3 of RFC 3629). |
| `JsonText.Utf8IsOneCharacter` | src/Monitoring/Monitor.cpp:120-125 | Every escaped code point is encoded as one well-formed character. |
| `JsonRoundTrip.PrintThenParse` | src/Monitoring/Monitor.cpp:464-482 | For every state whose strings are valid UTF-8 the printed document parses, has exactly the twelve keys, and gives back every string and every number unchanged. |
| `JsonReader.ReadObject` | src/Monitoring/Monitor.cpp:197-211 | The cursor-driven reader decides and returns exactly what the grammar of the model says (sections 6 and 7 of RFC 8259, keys once, nothing after the object). |
| `JsonReader.Json.ReadString` | src/Monitoring/Monitor.cpp:126-152 | The string loop reads exactly the specified string. |
| `JsonReader.Json.ReadNumber` | src/Monitoring/Monitor.cpp:153-174 | The number scan accepts exactly the specified numbers. |
| `JsonReader.Json.ReadValue` | src/Monitoring/Monitor.cpp:175-194 | Values nest to the same depth, with the same cases. |
| `JsonReader.PrintQuoted` | src/Monitoring/Monitor.cpp:301-309 | The printing loop writes the quoted text. |
| `JsonReader.PrintList` | src/Monitoring/Monitor.cpp:472-480 | The list loop writes a comma before each element but the first. |
| `Delivery.MoveAllIs` | src/Delivery/DeliveryStore.cpp:179-206 | A batch takes the oldest rows, loses none, repeats none and keeps their order. |
| `Delivery.ExactlyOnceInOrder` | src/Delivery/DeliveryStore.cpp:159-254 | In every run, with any batch sizes and rolled-back receipts: inbox and outbox together are the queued messages, each once and in order although row ids are reused; acknowledgements never fall and never pass the newest receipt. |
| `Delivery.ReaderSeesAll` | src/Delivery/DeliveryStore.cpp:216-230 | A reader paging from its acknowledgement sees every message after it, each once and in order. |
| `Delivery.DeliveryStore.Receive` | src/Delivery/DeliveryStore.cpp:179-206 | The loop in the transaction receives as specified, or changes nothing. |
| `Delivery.DeliveryStore.AcknowledgeUpTo` | src/Delivery/DeliveryStore.cpp:232-244 | An acknowledgement is raised, never lowered, and never past the newest receipt. |
| `Generation.StepKeepsInv` | src/Generation/Host.cpp:59-216 | Every request, pump, end of a thread, close and reopening keeps the host consistent: one thread at most, its job at work, what waits has not run, flags and runs of this epoch belong to its jobs. |
| `Generation.OneEngineRunAtATime` | src/Generation/Host.cpp:75-82 | In every run never two engine threads at once, and no id runs twice in one epoch. |
| `Generation.EndsAreFinal` | src/Generation/Host.cpp:59-73 | In every run epochs only grow, images stay as written, and a job that came to an end stays that way while its epoch lasts. |
| `Generation.CancelledFirstNeverRuns` | src/Generation/Host.cpp:188-203 | In every run a job cancelled before an engine thread was started for it, submitted or not yet, is never run in that epoch. |
| `Generation.CancelledNeverCompletes` | src/Generation/Host.cpp:62-71 | In every run, once a job's cancel flag is set it can only end cancelled, however far its engine thread had come. |
| `Generation.OldResultsChangeNothing` | src/Generation/Host.cpp:59-63 | A thread of an earlier epoch ends without any effect on this epoch's jobs. |
| `Generation.ImagesAreServedAsWritten` | src/Generation/Host.cpp:194-214 | In every run what the host says of a completed job with an image, and what it hands out of it, is the image in its store. |
| `RemoteImage.CompleteOnlyWhenWhole` | src/Generation/Remote.cpp:40-86 | With any host whatsoever, a job is reported complete only with an image of the announced size and digest, and never after it was cancelled. |
| `RemoteRuns.MoveKeepsInv` | src/Generation/Remote.cpp:24-86 | Host, client and a network that loses, repeats and reorders keep in step: answers on their way stay true, an awaited answer is to the request the client's state calls for. |
| `RemoteRuns.ImageIsAPrefix` | src/Generation/Remote.cpp:53-68 | In every run what the client holds is a prefix of the image in the host's store, and whatever it reported complete is that whole image. |
| `RemoteRuns.CompletedJobsArrive` | src/Generation/Remote.cpp:24-86 | In every state of a run in which the client waits for a job the host has completed, neither paused nor cancelled and without a result, it can get the image: one round for the state of the job and one for each chunk lead to a report with the whole image. |
| `RemoteRuns.HonestChunkAdvances` | src/Generation/Remote.cpp:53-68 | A chunk of a host in order is never refused: the image grows by it, or is complete. |
| `GenerationStore.Host.Handle` | src/Generation/Host.cpp:159-216 | The request handler, statement by statement, keeps the host consistent. |
| `GenerationStore.Host.Pump` | src/Generation/Host.cpp:75-111 | The pump, statement by statement. |
| `GenerationStore.Host.Finished` | src/Generation/Host.cpp:59-73 | The slot for a finished thread, statement by statement. |
| `GenerationStore.Host.Close` | src/Generation/Host.cpp:154-158 | Closing sets every job's flag and forgets the jobs. |
| `GenerationStore.Remote.Tick` | src/Generation/Remote.cpp:24-39 | The client's tick, statement by statement. |
| `GenerationStore.Remote.Receive` | src/Generation/Remote.cpp:40-86 | The client's receiver, statement by statement; every report of success it adds is backed by size and digest. |

## Left out

- The size bound of 16384 bytes on a record, UUID syntax of replica identifiers, the depth of JSON nesting in requests: the abstract records have no encoded form.
- File names that differ only in case or normalization, symbolic links, inode stamps, flushing, leases and the `.iisacc-temporary.lock` file: operating system detail behind the abstract tree.
- Failures of the disk or database in the middle of an operation, except where a step may fail in the model (look, save, append, recovery plan, record store, delivery receipt, image save).
- A database restored from a backup under the same replica identifier: revisions could then repeat.
- `object_locations`, the storage map, object providers, previews, media export and the `drive.*` requests: lookups and files without effect on the namespace.
- `Cursors.CursorsAreSafe`: is stated for full replicas and early pushes; with metadata only, a cancelled request skips its entry (src/Sync/Synchronizer.cpp:400-405), which the model does not do.
- `DeltaApplication.TreeToTree`: is stated for full replicas; a recorded entry without payload is covered by the theorems of `Payloads` one entry at a time.
- `DeltaApplication.PlainTreeToTree`: is told by clocks and names for deltas that name nothing below a conflict copy nor its second name, give no two copies one name, and name no copy with a folder where a file was; `DeltaApplication.TreeToTree` covers all others.
- `DeltaApplication.TreeToTree`: starts from a mirror without edits of its own; what one pulled entry does to a mirror with edits is `Layouts.PullMeets`.
- `Adoption.CrashSafeAdoption`: takes the drive's identity change as a step that succeeds; the macOS volume case of the move is not modelled.
- `HostBinding.BindingKeepsEverything`: the copy of the drive's manifest into the recovery folder and the primary-host claim are not modelled.
- `StateStore.GroupSessionStore.Read`: a previous directory is not migrated, and bounds on key and value sizes are left to the failures any step may have.
- `Endpoint.OneJobPerToken`: keys are pairs of peer and token, where the original joins them with a slash; the snapshot status shown to the user is left out.
- The client side of polling (src/Sync/Synchronizer.cpp:530-545, src/Sync/Controller.cpp:580-585): it forwards an answer to the callback of its request.
- `JsonRoundTrip.PrintThenParse`: the printer's straight-line concatenation is a function; its loops over lists and characters are methods.
- `Generation.StepKeepsInv`: one container, whose image files nobody else touches; progress events and model resolution are inputs.
- `RemoteImage.CompleteOnlyWhenWhole`: slots that react to the client's own signals while it handles an answer are not modelled.
- Wall-clock expiry is a given flag or number wherever it decides something.
- Encryption, account login, discovery, pairing, Bluetooth, DNS-SD, and the Windows twin of the file operations.
- The scan of the whole tree (src/Sync/Replica.cpp:754-845): its order and batching; each path it visits is a look as modelled.
- `RemoteFiles`, `Client` and `FileDownload` repeat the transfer protocol; `ObjectCodec` depends on streams of a library that is not part of this model.
