# Syntra, verified

Syntra is a daemon that shares a pointer, a clipboard and files between machines over datagrams that
may be lost, duplicated and reordered. This project models its state machines in Dafny and proves what
they keep over every run.

`dafny verify dfyconfig.toml` checks everything. Time is a number of milliseconds passed in, a digest is
an arbitrary function of the bytes, and what the system may answer (a read or write that fails, a file
that cannot be identified or removed, a full disk, a lost peer) is a parameter that the claims quantify
over.

## How it is laid out

**Manual file transfer.** `ManualRecord` holds the record of one transfer and one function per
operation on it. `ManualNetwork` puts a sender record and a receiver record on a network that is the
growing set of all datagrams ever sent each way: loss, duplication and reordering are then just which
of them are delivered, when, and how often. `ManualInvariant` finds what every event keeps and
`ManualSafety` states what follows over every run, `ManualLiveness` what the two sides can still bring
about. `ManualConduct` says what one record does whatever its peer sends, and `ManualOverwrite` replaces the honest peer by an
arbitrary one for the disk. `ManualSilence` tells what ticks alone do and say. `ManualTable` is the table of records as
an object updated in place, `ManualTableRuns` its runs.

**Files.** `Manifest` has the two validators of incoming manifests, `FileWalk` the walk that builds
manifests, `FileRead` the bounded reading of an open source, `FileUndo` the preparation of incoming
files and the destructor that undoes it.

**Clipboard transfers.** `TransferIndex` says when the six maps of the transfer manager agree and what
each kind of change does to that, `TransferLaws` what a new offer, a served request and a cancelled file
mean for the transfers around them; `TransferManager` is the object.

**History.** `HistoryRecords`, `HistoryReassembler` and `HistoryRoundTrip`: splitting records into
chunks and reassembling them under a shared budget. `HistoryClear`: boundaries and the coordinator of a
global clear.

**Input.** `ActivationGate` reconciles input events with activations. `CapturePressure`, `CaptureEntry`,
`CaptureRuns`, `CaptureDelivery` and `CapturePush`: the push against an edge, the handshake of entering a
device, what it never does and what it does bring about over its runs, and the push over a run.
`ClipboardEcho`: two workers and the user on one desktop clipboard.

**Layout and licences.** `Layout` places monitors on a plane. `SpdxGrammar`, `SpdxTokens`, `SpdxParser`
and `SpdxPolicy` read licence expressions (Annex D of SPDX 2.3) and judge them.

## Findings

Where the code does less than one might expect, the exact condition is a contract or a lemma.

- A receiver that is dropped puts the disk back, exactly unless the system could not say which file had
  just been created or could not remove something the receiver created (`FileUndo.IncomingTransfer.Drop`).
  A manual transfer that ends without completing inherits this: it leaves the target as it was, exactly
  unless such a file was lost or could not be removed (`ManualSafety.TargetIsRestored`,
  `ManualOverwrite.OverwriteIsAllOrNothing`).
- After a write that failed half way, nothing but the caller giving up keeps the same offset from being
  written again. The file is then accepted with a digest that is not its own, exactly if a failed write had
  left some bytes (`FileUndo.IncomingTransfer.FinalizeFile`, `FileUndo.TornFileIsAccepted`).
- A chunk of a clipboard file that stops short of both the request and the end of the file is refused, but
  the request has then used up its one chunk: nothing answers it any more, and it stays until its file or
  its transfer is cancelled (`TransferManager.SpentForGood`, `TransferManager.SpentUntilCancelled`).
- Crossings of a layout come in opposite pairs except exactly where both sides of one kind touch, which
  takes monitors of at most four pixels together (`Layout.CrossingsComeInPairs`).
- A peer's clipboard content can be sent back to it exactly after a round of the writer that found nothing
  to read and could not write, over content of a peer; what it tried to write had then been queued when
  nothing was on the books (`ClipboardEcho.OnlyForgettingUnlearns`, `ClipboardEcho.ForgettingEchoes`,
  `ClipboardEcho.ForgettingWasQueuedBlank`).

## Model

| member | source | states |
|---|---|---|
| ManualInvariant.EventKeeps | crates/syntra-core/src/manual_transfer.rs:186-976 | one invariant over both records, the disk and every datagram ever sent survives each event: deliveries in any order and number, ticks, user actions, lost routes, eviction, failing reads and writes |
| ManualInvariant.RunKeeps | crates/syntra-core/src/manual_transfer.rs:186-976 | the invariant holds in every world of every run |
| ManualInvariant.SenderAnswers | crates/syntra-core/src/manual_transfer.rs:590-671 | a request that an honest receiver can have sent is answered with the right bytes, repeated from the cache, ignored as old, or fails for a reason of the source's own |
| ManualInvariant.SenderDecides | crates/syntra-core/src/manual_transfer.rs:523-588 | acceptance, refusal and the pending notice keep the invariant on the sender's side; that an acceptance in time does start it is `ManualLiveness.AcceptanceStarts` |
| ManualInvariant.ReceiverTakesChunk | crates/syntra-core/src/manual_transfer.rs:673-731 | the one chunk that fits extends file and hash together; a failing write undoes the file |
| ManualInvariant.ReceiverIgnoresChunk | crates/syntra-core/src/manual_transfer.rs:696-718 | a duplicate chunk lies wholly before what is written, so it never counts as overlapping |
| ManualInvariant.ReceiverTakesDigest | crates/syntra-core/src/manual_transfer.rs:733-762 | a completion that arrives before the last chunk is kept, one that arrives after it finishes |
| ManualInvariant.ReceiverFinishes | crates/syntra-core/src/manual_transfer.rs:764-796 | with every byte written the digests agree, and the target ends up as the source or as it was |
| ManualInvariant.DropRestores | crates/syntra-core/src/manual_transfer.rs:1094-1119 | letting an unfinished receiver go puts target and staging back as they were, if what it removes does go |
| ManualInvariant.ReceiverMoveKeeps | crates/syntra-core/src/manual_transfer.rs:1094-1119 | the invariant also survives removals that fail, after which what stays is at the target and no transfer's |
| ManualInvariant.ReceiverOverwrites | crates/syntra-core/src/manual_transfer.rs:370-423 | accepting over an existing file never touches it before the end, also when staging or preparation fails or the offer has lapsed |
| ManualInvariant.ReceiverMeetsOffer | crates/syntra-core/src/manual_transfer.rs:272-352 | a first offer is shown, prepared at once under automatic acceptance, or refused when that fails, also when the file created for it is lost |
| ManualSafety.ContentSafety | crates/syntra-core/src/manual_transfer.rs:590-828 | at every point of every run the receiver's file is the prefix of the source it counts as transferred; a completed receiver left exactly the source; a completed sender means the receiver had completed |
| ManualSafety.TargetIsRestored | crates/syntra-core/src/manual_transfer.rs:1094-1119 | while no transfer is under way and none has completed, nothing is staged and the target is as before, exactly unless a file was lost there or could not be removed |
| ManualSafety.LockstepHolds | crates/syntra-core/src/manual_transfer.rs:596-671 | while both sides transfer, the receiver stands at the sender's offset or at that of the sender's cached request, and the cached response is exactly the chunk or completion from there |
| ManualSafety.NobodyIsBlamed | crates/syntra-core/src/manual_transfer.rs:590-762 | between honest peers no record fails for an unexpected offset, an overlapping or invalid chunk, an invalid request or a digest, and no one is told that a transfer was not accepted |
| ManualSafety.RequestIsAnswerable | crates/syntra-core/src/manual_transfer.rs:596-671 | the receiver's current request gets the one correct answer from a readable source |
| ManualSafety.NeverWedged | crates/syntra-core/src/manual_transfer.rs:523-828 | whatever was lost so far, datagrams already sent and their answers suffice to complete both sides |
| ManualSafety.HistoryIsReal | crates/syntra-core/src/manual_transfer.rs:425-521 | acceptance and completion recorded in a run did happen earlier in that run |
| ManualSafety.ConsentIsCausal | crates/syntra-core/src/manual_transfer.rs:596-607 | a chunk or completion is on the network only if the receiver accepted before |
| ManualSafety.DeadlineIsFixed | crates/syntra-core/src/manual_transfer.rs:289-299 | a record's approval deadline is its creation time plus the timeout for as long as it lives |
| ManualSafety.ConsentIsTimely | crates/syntra-core/src/manual_transfer.rs:436-566 | every entry into the transferring phase, on either side, happens strictly before that deadline, whatever duplicates arrive |
| ManualLiveness.AcceptanceStarts | crates/syntra-core/src/manual_transfer.rs:541-567 | in every run without evictions, while the receiver is ready and the sender waits, the acceptance is on its way; heard before the sender's deadline it makes the sender transfer and echo it, and from there both sides can complete |
| ManualLiveness.ConsentCompletes | crates/syntra-core/src/manual_transfer.rs:354-521 | in every such run, while the receiver asks its user and the sender has not given up, accepting or overwriting in time makes the receiver ready and both sides can complete |
| ManualLiveness.OfferCompletes | crates/syntra-core/src/manual_transfer.rs:106-828 | from the start: an offer made, shown and accepted within the timeout, in place or over an existing file, leads by deliveries alone to two completed sides and exactly the source at the target |
| ManualLiveness.AutomaticOfferCompletes | crates/syntra-core/src/manual_transfer.rs:272-352 | the same without asking, under automatic acceptance |
| ManualLiveness.RefusalReachesSender | crates/syntra-core/src/manual_transfer.rs:830-859 | a refusal settles the receiver, leaves the disk alone and, delivered, settles the sender as refused |
| ManualLiveness.CancellationReachesBoth | crates/syntra-core/src/manual_transfer.rs:861-882 | a cancellation on either side settles that side and, delivered, the other, and nothing stays staged |
| ManualLiveness.SettlingIsTold | crates/syntra-core/src/manual_transfer.rs:523-949 | in every run a side that settles heard the end from its peer, lost its route, or tells the peer in that very event |
| ManualLiveness.TheEndSettles | crates/syntra-core/src/manual_transfer.rs:798-828 | a cancellation, a failed result or, at the sender, a refusal settles whichever active record hears it |
| ManualLiveness.UnknownIsToldToStop | crates/syntra-core/src/manual_transfer.rs:186-270 | whoever goes on with a transfer that is unknown here gets the one answer that settles its record; anything else about it gets none |
| ManualLiveness.OffersAreAnswered | crates/syntra-core/src/manual_transfer.rs:1007-1036 | in every run an offer that reaches the receiver, first or repeated, is answered with where the receiver then stands, and a repeated one changes nothing |
| ManualLiveness.SuccessIsRepeated | crates/syntra-core/src/manual_transfer.rs:673-743 | in every run a completed receiver answers data and digests that come again with its success |
| ManualLiveness.AcceptanceMayBeRepeated | crates/syntra-core/src/manual_transfer.rs:474-521 | an acceptance that finds the name taken or the destination unavailable leaves the receiver asking, with the reason, and the peer is told nothing |
| ManualConduct.ConsentIsEnforced | crates/syntra-core/src/manual_transfer.rs:596-762 | whatever any peer sends, only a transferring sender gives out data or a digest and only a transferring receiver writes or puts a file in place |
| ManualConduct.UnacceptedIsRefused | crates/syntra-core/src/manual_transfer.rs:599-748 | data asked for or sent before acceptance is answered with a refusal and changes nothing |
| ManualConduct.ProgressRestartsTimer | crates/syntra-core/src/manual_transfer.rs:590-731 | every datagram that moves data restarts the retry timer |
| ManualConduct.ConsentRestartsTimer | crates/syntra-core/src/manual_transfer.rs:465-588 | so do consent on either side and the first echo of it |
| ManualConduct.RouteIsFollowed | crates/syntra-core/src/manual_transfer.rs:951-976 | a new route changes nothing else; losing it fails an active record and sends nothing |
| ManualRecord.HandleEvolves | crates/syntra-core/src/manual_transfer.rs:186-270 | no datagram changes what a record is about or its deadline, or anything but route and retry timer once it has settled |
| ManualRecord.ReceiverOperationsEvolve | crates/syntra-core/src/manual_transfer.rs:354-521 | the same for accepting, overwriting and preparing, which give consent only before the deadline |
| ManualRecord.CommonOperationsEvolve | crates/syntra-core/src/manual_transfer.rs:830-976 | the same for declining, cancelling, ticking and rerouting |
| ManualOverwrite.OverwriteIsAllOrNothing | crates/syntra-core/src/manual_transfer.rs:370-423 | against any peer, at every instant between two disk operations an existing target holds its old bytes or exactly the full bytes with a claimed digest; a transfer that ended without completing left the target as it was exactly unless it lost its file there or could not remove it, and a staging directory exactly if that could not be removed |
| ManualOverwrite.ActIsSafe | crates/syntra-core/src/manual_transfer.rs:673-796 | each single operation keeps that while what it removes does go, or loses a file where there was none |
| ManualOverwrite.NextIsTidy | crates/syntra-core/src/manual_transfer.rs:673-796 | and whatever stays behind when a removal fails is then what the target holds |
| ManualOverwrite.SwapIsAtomic | crates/syntra-core/src/manual_transfer.rs:764-796 | the rename is the one instant at which an existing target changes, from all old to all new |
| ManualOverwrite.FinishIsSafe | crates/syntra-core/src/file_transfer.rs:561-590 | a wrong digest, a failing sync or a failing rename puts everything back, as far as it can be removed |
| ManualSilence.SilenceSettles | crates/syntra-core/src/manual_transfer.rs:884-949 | without incoming messages, a number of ticks known in advance, a retry timeout apart, settles every record |
| ManualSilence.TickUsesPatience | crates/syntra-core/src/manual_transfer.rs:884-949 | each such tick uses up one of the retries or of the remaining approval time |
| ManualSilence.TrafficIsBounded | crates/syntra-core/src/manual_transfer.rs:884-949 | at most three repeats while active, one farewell, and at most three repeats once settled |
| ManualSilence.SilenceIsSpoken | crates/syntra-core/src/manual_transfer.rs:884-949 | exactly what a silent active record says at spaced ticks: its last word at each until the retries are used up, then one cancellation, then nothing |
| ManualSilence.SettledRepeats | crates/syntra-core/src/manual_transfer.rs:884-949 | a settled record repeats its last word at every due tick until its retries are used up |
| ManualSilence.PendingIsQuiet | crates/syntra-core/src/manual_transfer.rs:532-540 | a sender told that its offer is pending says nothing until the deadline and withdraws the offer at the first tick from then on |
| ManualSilence.CancellationIsRepeated | crates/syntra-core/src/manual_transfer.rs:861-949 | a cancellation by the user is repeated three times and no more |
| ManualSilence.RefusalIsRepeated | crates/syntra-core/src/manual_transfer.rs:830-949 | so is a refusal |
| ManualSilence.OutcomeIsRepeated | crates/syntra-core/src/manual_transfer.rs:764-949 | and the success or failure with which a receiver ends |
| ManualSilence.OfferIsRepeated | crates/syntra-core/src/manual_transfer.rs:106-184 | an offer that nobody answers is repeated three times and then withdrawn |
| ManualSilence.AcceptanceIsRepeated | crates/syntra-core/src/manual_transfer.rs:465-578 | an acceptance is repeated until it is echoed, and from then on the request for data |
| ManualSilence.DigestIsRepeated | crates/syntra-core/src/manual_transfer.rs:612-671 | a sender that has served the end repeats the digest; data it leaves to the receiver to ask for again |
| ManualTable.StoringKeeps | crates/syntra-core/src/manual_transfer.rs:1045-1056 | storing keeps both bounds and the queue exact, and drops only the oldest settled records |
| ManualTable.ManualTransfers.Store | crates/syntra-core/src/manual_transfer.rs:1045-1056 | the loop that drops the oldest gives the table and queue of the specification |
| ManualTable.ManualTransfers.NextTransferId | crates/syntra-core/src/manual_transfer.rs:94-104 | the first draw that is not zero and used by no record, or none after sixteen |
| ManualTable.ManualTransfers.SendFiles | crates/syntra-core/src/manual_transfer.rs:106-184 | exactly the regular files are offered, in order, until the table is full or no id is free; each offer has a fresh record under an unused id, and everything else is untouched |
| ManualTable.ManualTransfers.HandleProtocol | crates/syntra-core/src/manual_transfer.rs:186-270 | the addressed record is replaced by its own next step and stored; unknown ones are answered and create nothing |
| ManualTable.ManualTransfers.ReceiveOffer | crates/syntra-core/src/manual_transfer.rs:272-352 | a bad name, a full table, a conflicting repetition and a first offer each have their own outcome, and only the last adds a record |
| ManualTable.ManualTransfers.UserAction | crates/syntra-core/src/manual_transfer.rs:354-423 | the chosen record takes the step of the user's choice and is stored; an unknown one changes nothing |
| ManualTable.ManualTransfers.Tick | crates/syntra-core/src/manual_transfer.rs:884-949 | every record ticks exactly once from the state it had before, in whatever order the table is walked |
| ManualTable.ManualTransfers.RefreshRoutes | crates/syntra-core/src/manual_transfer.rs:951-976 | records get their peer's new route, and active ones without a route fail |
| ManualTableRuns.TableStaysSound | crates/syntra-core/src/manual_transfer.rs:1038-1056 | in every run at most 32 active and 100 settled records, and the queue lists exactly the settled ones, each once |
| ManualTableRuns.SettledForGood | crates/syntra-core/src/manual_transfer.rs:1157-1165 | a settled record never changes state again while it is retained |
| ManualTableRuns.EvictionTakesTheOldest | crates/syntra-core/src/manual_transfer.rs:1045-1056 | only settled records are evicted, first settled first |
| Manifest.ValidateWireManifest | crates/syntra-core/src/transfer_manager.rs:1492-1542 | accepts exactly the manifests with distinct non-zero ids, distinct safe paths, empty directories and a bounded total |
| Manifest.ValidateIncoming | crates/syntra-core/src/file_transfer.rs:401-430 | accepts exactly the manifests with ascending ids, distinct safe paths and a total within the limit |
| Manifest.SplitUndoesJoin | crates/syntra-core/src/transfer_manager.rs:1517-1523 | splitting a joined path gives its components back |
| FileWalk.CollectIsListing | crates/syntra-core/src/file_transfer.rs:650-717 | the walk of a tree succeeds exactly when it holds only files and directories, its paths are safe and the limits allow it, and then appends the tree in preorder |
| FileWalk.RootsAreListed | crates/syntra-core/src/file_transfer.rs:175-210 | the same for all roots, with distinct root names |
| FileWalk.WalkIsAccepted | crates/syntra-core/src/file_transfer.rs:175-210 | every manifest the walk makes passes both validators; ids are 1 to n in preorder with parents first, and exactly the file ids have sources |
| FileWalk.Walker.CollectEntry | crates/syntra-core/src/file_transfer.rs:650-717 | the recursion that changes its arguments in place computes the walk, or stops |
| FileWalk.Walker.CollectPaths | crates/syntra-core/src/file_transfer.rs:175-210 | the loop over the roots computes the whole walk |
| FileRead.OutgoingFile.NextChunkBounded | crates/syntra-core/src/file_transfer.rs:275-328 | however reads come in pieces, a chunk is exactly the next bytes up to limit and size, and offset and hash move together; it fails only for a bad length, a cancelled, changed or too short file or a failing read, and then moves neither |
| FileRead.OutgoingFile.FinalizeDigest | crates/syntra-core/src/file_transfer.rs:329-343 | a digest is given exactly at the end of a file that is still the one offered, and is that of everything since the file was opened |
| FileUndo.IncomingTransfer.Prepare | crates/syntra-core/src/file_transfer.rs:447-506 | everything listed is created; it stops only at an entry that something hinders, with exactly the earlier ones created; what was created is what is recorded, but for a file the system could not identify |
| FileUndo.IncomingTransfer.CreateFile | crates/syntra-core/src/file_transfer.rs:461-488 | a file is created exactly where none is and the system allows it, and is recorded, removed again, or lost track of |
| FileUndo.IncomingTransfer.CreateParents | crates/syntra-core/src/file_transfer.rs:600-624 | missing directories are created and recorded one by one, and only something else in the way or a failing call stops that |
| FileUndo.IncomingTransfer.WriteChunk | crates/syntra-core/src/file_transfer.rs:508-552 | exactly the next bytes within the announced size are taken, into file and hash together; a failing write leaves what it wrote, and no other file changes |
| FileUndo.IncomingTransfer.FinalizeFile | crates/syntra-core/src/file_transfer.rs:561-590 | a file is done exactly when it is complete, synced and what was hashed has the digest; it then has its announced size, and the digest is its own, exactly if no failed write left bytes in it |
| FileUndo.TornFileIsAccepted | crates/syntra-core/src/file_transfer.rs:508-590 | whatever part of a chunk a failed write leaves, writing the chunk again and finishing succeeds, and the file holds the part and then the chunk |
| FileUndo.IncomingTransfer.Finish | crates/syntra-core/src/file_transfer.rs:553-560 | the transfer is finished exactly when every file is done |
| FileUndo.IncomingTransfer.Drop | crates/syntra-core/src/file_transfer.rs:626-648 | only files with the recorded identity and empty recorded directories go, whatever others did; untouched by others, the disk is as before exactly when no file was lost track of and nothing created is stuck |
| FileUndo.DeepestIsEmpty | crates/syntra-core/src/file_transfer.rs:634-642 | of the created directories a deepest one is empty, so removal in that order clears them all |
| TransferIndex.RemovalKeeps | crates/syntra-core/src/transfer_manager.rs:1451-1468 | removing any set of transfers keeps all six maps in agreement |
| TransferIndex.RemovalComposes | crates/syntra-core/src/transfer_manager.rs:1451-1468 | removing one after another is removing all, in any order |
| TransferIndex.RemovalFreesIds | crates/syntra-core/src/transfer_manager.rs:1402-1468 | a transfer that goes frees its id, so ids can be exhausted only where nothing goes |
| TransferIndex.FileCancellationKeeps | crates/syntra-core/src/transfer_manager.rs:1314-1345 | ending what one file has under way keeps agreement |
| TransferIndex.AddingLocalKeeps | crates/syntra-core/src/transfer_manager.rs:286-306 | a new local offer keeps agreement, with at most one unread offer per peer |
| TransferIndex.AddingRemoteKeeps | crates/syntra-core/src/transfer_manager.rs:361-386 | a new remote offer keeps agreement, with at most one offer per peer |
| TransferIndex.ByIdIsIndexed | crates/syntra-core/src/transfer_manager.rs:362-366 | the map by file id finds every offered entry and nothing else |
| TransferIndex.PendingKeeps | crates/syntra-core/src/transfer_manager.rs:469-490 | a pending range of a live remote file, inside it, keeps agreement |
| TransferIndex.OpeningKeeps | crates/syntra-core/src/transfer_manager.rs:825-867 | opening the source of a reserved range keeps every open source reserved |
| TransferIndex.ReleasingKeeps | crates/syntra-core/src/transfer_manager.rs:927-971 | closing a source and its reservation together keeps agreement |
| TransferManager.TransferState.AllocateUiId | crates/syntra-core/src/transfer_manager.rs:1402-1414 | the first free id after the last one, wrapping past the greatest; none exactly when every id from 1 is taken |
| TransferManager.EveryIdIsLater | crates/syntra-core/src/transfer_manager.rs:1402-1414 | one walk around visits every id |
| TransferManager.TransferState.RemoveOwner | crates/syntra-core/src/transfer_manager.rs:1451-1468 | exactly one transfer and all its traces go |
| TransferManager.TransferState.CancelOwner | crates/syntra-core/src/transfer_manager.rs:1281-1371 | each refusal has its exact condition; a whole transfer goes with all its traces, or nothing of the one file stays under way and everything else is as before |
| TransferManager.TransferState.CancelUi | crates/syntra-core/src/transfer_manager.rs:1187-1199 | the same, addressed by interface id, with the exact condition of each refusal |
| TransferManager.TransferState.PeerLost | crates/syntra-core/src/transfer_manager.rs:1201-1218 | exactly the peer's transfers end |
| TransferManager.TransferState.AdapterLost | crates/syntra-core/src/transfer_manager.rs:1220-1234 | every transfer under a name of the plugin ends, and no such name is left |
| TransferManager.TransferState.AdapterEnded | crates/syntra-core/src/transfer_manager.rs:593-765 | every transfer under the name ends, and the ids reported are exactly those that disappear |
| TransferManager.TransferState.AdapterReleases | crates/syntra-core/src/transfer_manager.rs:673-722 | offers of this machine end, remote ones lose only the name |
| TransferManager.TransferState.LocalCopyManifest | crates/syntra-core/src/transfer_manager.rs:244-316 | each refusal has its exact condition and changes nothing; otherwise the new offer is there unread with its entries and names, is the one unread offer to its peer, and every other transfer is untouched except the unread ones it replaces, which go with all they had under way |
| TransferLaws.AddedLocally | crates/syntra-core/src/transfer_manager.rs:270-308 | adding the offer after removing the unread ones does that to transfers, ranges, interface ids and plugin names |
| TransferLaws.LaterOfferSupersedes | crates/syntra-core/src/transfer_manager.rs:270-308 | of two offers to a peer in a row, the first is gone after the second, with everything it had reserved |
| TransferLaws.ReadOfferStays | crates/syntra-core/src/transfer_manager.rs:767-823 | once the peer has asked for a range of it, the first offer and that range stay |
| TransferManager.TransferState.InboundManifest | crates/syntra-core/src/transfer_manager.rs:326-406 | each refusal has its exact condition and changes nothing; otherwise exactly the listed files are found by id under the new offer, it is the one offer from its peer, and all other transfers and names are untouched |
| TransferLaws.AddedRemotely | crates/syntra-core/src/transfer_manager.rs:345-387 | adding a peer's offer after removing its others does that |
| TransferManager.TransferState.AdapterRangeRequest | crates/syntra-core/src/transfer_manager.rs:426-507 | a range is awaited exactly if it lies in a file of the found offer, is not awaited already and has a non-zero request id |
| TransferManager.TransferState.InboundChunk | crates/syntra-core/src/transfer_manager.rs:974-1049 | the first fitting chunk is passed on when it fills the request, kept when it ends the file, and refused but kept otherwise |
| TransferManager.SpentForGood | crates/syntra-core/src/transfer_manager.rs:974-1049 | once a short chunk was taken no chunk fits the request any more, and it stays unless its transfer goes |
| TransferManager.SpentUntilCancelled | crates/syntra-core/src/transfer_manager.rs:1314-1345 | or its own file is cancelled, whatever happens to other files and requests |
| TransferManager.TransferState.InboundComplete | crates/syntra-core/src/transfer_manager.rs:1089-1172 | the last bytes are passed on exactly if a chunk arrived that ends the file, with the announced size and digest; each refusal has its condition |
| TransferManager.TransferState.SourceFileRequest | crates/syntra-core/src/transfer_manager.rs:767-823 | a range is reserved exactly if it lies in an offered file and the request is new |
| TransferManager.TransferState.InsertOutgoing | crates/syntra-core/src/transfer_manager.rs:825-867 | a source is opened exactly for the range that was reserved |
| TransferManager.TransferState.SourceChunk | crates/syntra-core/src/transfer_manager.rs:869-919 | bytes go out only from where the reservation starts and within it, hence within the file; an open source always has its reservation |
| TransferManager.TransferState.SourceRangeServed | crates/syntra-core/src/transfer_manager.rs:927-938 | source and reservation go together |
| TransferManager.TransferState.SourceComplete | crates/syntra-core/src/transfer_manager.rs:940-972 | the same, for a request that is open |
| TransferLaws.ServingLeavesNoTrace | crates/syntra-core/src/transfer_manager.rs:767-965 | reserving, opening and releasing a range leaves only the mark that the offer was read |
| TransferLaws.ReadingLeavesNoTrace | crates/syntra-core/src/transfer_manager.rs:415-510 | so does asking a peer for a range and having it answered |
| HistoryRecords.StepKeeps | crates/syntra-core/src/history_sync.rs:44-174 | after every event at most eight records and the byte budget are pending, each record counted exactly |
| HistoryRecords.BudgetWithout | crates/syntra-core/src/history_sync.rs:112-147 | what a record leaves to the budget when it goes is its own length |
| HistoryRecords.FullIsFilled | crates/syntra-core/src/history_sync.rs:119-131 | the count of received chunks reaches their number exactly when none is missing |
| HistoryRecords.StartIsRefused | crates/syntra-core/src/history_sync.rs:44-84 | a start is refused exactly when it is malformed, contradicts the pending record of its key or finds no room, and then changes nothing |
| HistoryRecords.ChunkIsRefused | crates/syntra-core/src/history_sync.rs:86-135 | a chunk is refused exactly when it belongs to a pending record and lies outside it, has the wrong length or contradicts an earlier one; only the wrong length ends the record |
| HistoryRecords.AgeIsKept | crates/syntra-core/src/history_sync.rs:44-174 | a record gets its length and age from the start accepted for it, holds nothing then, and keeps both |
| HistoryReassembler.Reassembler.Begin | crates/syntra-core/src/history_sync.rs:44-84 | a start is refused, repeated or accepted as specified, and the byte counter stays the sum of the pending lengths |
| HistoryReassembler.Reassembler.Receive | crates/syntra-core/src/history_sync.rs:86-135 | each way a chunk can be ignored, refused, kept or completing, with the counter exact and no subtraction saturating |
| HistoryReassembler.Reassembler.LosePeer | crates/syntra-core/src/history_sync.rs:137-146 | exactly the records of other peers stay, unchanged |
| HistoryReassembler.Reassembler.Finish | crates/syntra-core/src/history_sync.rs:148-160 | exactly the records of other requests stay, unchanged, and the number of those gone is returned |
| HistoryReassembler.Reassembler.ExpireOld | crates/syntra-core/src/history_sync.rs:162-174 | exactly the records begun less than the expiry time ago stay, unchanged, and the number of those gone is returned |
| HistoryRoundTrip.RoundTrip | crates/syntra-core/src/history_sync.rs:44-214 | any record, delivered in any order with any duplicates between any other events, comes out whole exactly once, with the last missing chunk |
| HistoryRoundTrip.HoldsWhatArrived | crates/syntra-core/src/history_sync.rs:86-135 | until then exactly the delivered chunks are held and nothing comes out |
| HistoryRoundTrip.NothingLate | crates/syntra-core/src/history_sync.rs:94-97 | after it, late duplicates are ignored unless a new start arrives |
| HistoryRoundTrip.SplitIsFaithful | crates/syntra-core/src/history_sync.rs:182-214 | what is sent for a record is accepted by a table with room and brings every chunk |
| HistoryRoundTrip.EverythingRuns | crates/syntra-core/src/history_sync.rs:43-174 | every sequence of events runs from every sound table, within both limits |
| HistoryClear.UnionBoundary | crates/syntra-core/src/history_sync.rs:234-241 | the merge in place is the pointwise maximum |
| HistoryClear.MergeAssociates | crates/syntra-core/src/history_sync.rs:234-241 | merging does not depend on grouping |
| HistoryClear.MergeCommutes | crates/syntra-core/src/history_sync.rs:234-241 | merging does not depend on order |
| HistoryClear.BoundaryFromWire | crates/syntra-core/src/history_sync.rs:223-232 | the loop gives what the list of entries means |
| HistoryClear.FromEntriesIsGreatest | crates/syntra-core/src/history_sync.rs:223-232 | that is the greatest sequence listed for each origin |
| HistoryClear.BoundaryToWire | crates/syntra-core/src/history_sync.rs:216-221 | every origin is listed once with its sequence |
| HistoryClear.WireRoundTrip | crates/syntra-core/src/history_sync.rs:216-232 | a boundary survives the wire, whatever the order of its entries |
| HistoryClear.ClearCoordinator.AddBoundary | crates/syntra-core/src/history_sync.rs:274-280 | the step of the run model on a reply, with its signal; when that signal comes is `HistoryClear.LastBoundaryIsSignalled` |
| HistoryClear.BoundaryIsTheMaximum | crates/syntra-core/src/history_sync.rs:256-307 | at every point the boundary is the least one above the initial one and every counted peer's, and exactly the peers neither counted nor lost are awaited |
| HistoryClear.OrderDoesNotMatter | crates/syntra-core/src/history_sync.rs:256-307 | runs in which the same peers give the same answers end at the same boundary |
| HistoryClear.LastBoundaryOnce | crates/syntra-core/src/history_sync.rs:274-280 | the last boundary is signalled at most once |
| HistoryClear.LastBoundaryIsSignalled | crates/syntra-core/src/history_sync.rs:274-280 | in every run a reply is signalled as the last exactly when it is newly counted and every peer is then counted or lost |
| HistoryClear.AllBoundariesAreSignalled | crates/syntra-core/src/history_sync.rs:274-280 | if no peer is lost, the last of the boundaries has been signalled once all have come |
| HistoryClear.LastAckOnce | crates/syntra-core/src/history_sync.rs:289-300 | within one application the last acknowledgement is signalled at most once and each peer counts at most once |
| HistoryClear.LastAckIsSignalled | crates/syntra-core/src/history_sync.rs:289-300 | in every run an acknowledgement is signalled as the last exactly when its peer owed it and nobody owes one after it |
| HistoryClear.AcksAwaited | crates/syntra-core/src/history_sync.rs:282-306 | exactly the peers are awaited that the latest application asked and that have neither acknowledged since nor been lost when they no longer owed a boundary |
| HistoryClear.AffectedIsTheSum | crates/syntra-core/src/history_sync.rs:282-300 | the total is exactly what was affected here and at every counted peer, up to the largest count |
| HistoryClear.ErrorsAreCounted | crates/syntra-core/src/history_sync.rs:289-307 | errors are exactly the failures acknowledged by peers that owed an acknowledgement and the losses of peers that still owed something |
| HistoryClear.ApplyingOnceAsked | crates/syntra-core/src/history_sync.rs:282-287 | the clear is being applied exactly since it was asked to be |
| ActivationGate.NewerIsSerialGreater | crates/syntra-input-capture/src/libei.rs:402-428 | the wrapping comparison is that of section 3.2 of RFC 1982 |
| ActivationGate.ActivationQueue.OnActivate | crates/syntra-input-capture/src/libei.rs:390-410 | exactly the waiting events of this id are handed on, in order, exactly the newer ones are kept |
| ActivationGate.ActivationQueue.OnDeactivate | crates/syntra-input-capture/src/libei.rs:412-415 | nothing stays ready and everything waiting stays; that what waits is handed on later is `ActivationGate.EarlyInputIsHandedOn` |
| ActivationGate.ActivationQueue.OnInput | crates/syntra-input-capture/src/libei.rs:417-442 | an input is ready, dropped as stale, kept waiting, or refused when the queue is full |
| ActivationGate.ActivateKeeps | crates/syntra-input-capture/src/libei.rs:390-410 | after an activation everything waiting is strictly newer than it |
| ActivationGate.FeedKeeps | crates/syntra-input-capture/src/libei.rs:417-442 | inputs keep that, and the bound of the queue |
| ActivationGate.ReadyUnderItsOwn | crates/syntra-input-capture/src/libei.rs:381-443 | what a step makes ready names the side of the activation in force, and an input was received with its id unless it has none |
| ActivationGate.RunsAreOwned | crates/syntra-input-capture/src/libei.rs:381-443 | over every run everything ready was made so by such an activation, also when equal events carry different sequences |
| ActivationGate.EarlyInputIsHandedOn | crates/syntra-input-capture/src/libei.rs:381-443 | in every run early input with room is handed on by the next activation with its sequence, right after the beginning and the early input before it, whatever deactivations, older activations and other inputs come in between |
| ActivationGate.ReadyIsExact | crates/syntra-input-capture/src/libei.rs:381-443 | told from the events alone: an activation makes ready its entry if any, one beginning and exactly the early input of its id in order; a deactivation withdraws what is ready; an input is ready at once exactly under the activation in force |
| ActivationGate.EarlyInputWaits | crates/syntra-input-capture/src/libei.rs:381-443 | what waits under a sequence is exactly the early input that no activation has claimed or overtaken |
| ActivationGate.RefusedOnlyWhenFull | crates/syntra-input-capture/src/libei.rs:417-442 | an input is refused exactly when it is early and the queue is full |
| ActivationGate.InputCommutes | crates/syntra-input-capture/src/libei.rs:381-443 | one input may come before or after the activation exactly when it is not taken for stale beforehand though the activation wants it |
| ActivationGate.OrderDoesNotMatter | crates/syntra-input-capture/src/libei.rs:381-443 | from an inactive gate with room, a whole stretch of inputs before or after the activation gives the same gate |
| ActivationGate.ActivationMayFallAnywhere | crates/syntra-input-capture/src/libei.rs:381-443 | the activation may also fall among the inputs |
| CapturePressure.ReachedIsEarned | crates/syntra-core/src/capture.rs:359-390 | over any motions a push passes on only if its outward motion sums to the threshold |
| CapturePressure.SteadyPushIsExact | crates/syntra-core/src/capture.rs:359-390 | without backing off it passes on exactly then, however slowly it is made |
| CapturePressure.PushLeavesTheScreen | crates/syntra-core/src/capture.rs:366-371 | a push is how far the motion takes a pointer at that side of a screen beyond it |
| CapturePressure.RetreatEnds | crates/syntra-core/src/capture.rs:359-390 | a push given up inward ends exactly when it has gone back by the slack |
| CapturePressure.RestForgets | crates/syntra-core/src/capture.rs:359-390 | a push that is not kept up loses what it had built up at the leaking rate |
| CapturePressure.NoNumberNoPush | crates/syntra-core/src/capture.rs:372-382 | motion that is no number neither builds a push up nor ends it |
| CaptureEntry.CaptureTask.HandleCaptureEvent | crates/syntra-core/src/capture.rs:1177-1489 | keeps the invariant of the handshake; input captured while a device takes it goes to that device first and unchanged, and alone if it arrives; no device begins to take input here, and a newly active one is the one touched and gets its own deadline |
| CaptureEntry.CaptureTask.Acknowledge | crates/syntra-core/src/capture.rs:907-921 | keeps the invariant; only the active device's own acknowledgement counts, after which it takes input and exactly the held presses have been sent, in order |
| CaptureEntry.CaptureTask.HandOff | crates/syntra-core/src/capture.rs:1532-1626 | keeps the invariant; another device becomes active only from one that takes input and says so, which is told to leave, and is awaited with its own deadline; no input is sent |
| CaptureEntry.CaptureTask.DeadlinePassed | crates/syntra-core/src/capture.rs:1507-1522 | keeps the invariant; the device stays active only the first time, entered the old way with a new deadline, and is released otherwise |
| CaptureRuns.RunKeeps | crates/syntra-core/src/capture.rs:902-970 | in every run a device that takes input is active, without deadline and held presses, and a device awaited has a deadline |
| CaptureRuns.SendingIsAcknowledged | crates/syntra-core/src/capture.rs:902-921 | a device takes input only since its own acknowledgement after it became active |
| CaptureRuns.InputNeedsAcknowledgement | crates/syntra-core/src/capture.rs:902-1489 | captured input is only ever sent to such a device |
| CaptureRuns.AtMostOneRetry | crates/syntra-core/src/capture.rs:1507-1522 | while a device stays active it is entered the old way at most once |
| CaptureRuns.DeadlinesRelease | crates/syntra-core/src/capture.rs:956-970 | the second deadline of one entry releases the device |
| CaptureRuns.DeadlineFindsWaiting | crates/syntra-core/src/capture.rs:956-970 | a deadline never finds a device that takes input |
| CaptureRuns.EntryGoesToTheActive | crates/syntra-core/src/capture.rs:1429-1505 | every entry goes to the device that is active after it, or that could not be reached and was let go |
| CaptureRuns.NotPositionedAgain | crates/syntra-core/src/capture.rs:1490-1522 | a device entered the old way is not asked to be entered at a place again while it stays active |
| CaptureRuns.EntryViaIsHandedOn | crates/syntra-core/src/capture.rs:1490-1626 | an entry that names a device on the way is a hand-off through that device, made or repeated, to a device active ever since |
| CaptureDelivery.InputIsForwarded | crates/syntra-core/src/capture.rs:1447-1488 | in every run whatever is captured while a device takes input is sent to it, unchanged and alone; if it cannot be reached it is let go |
| CaptureDelivery.InputIsHeld | crates/syntra-core/src/capture.rs:1459-1476 | while a device is awaited the entry is repeated to it and a press is kept behind the earlier ones, up to the limit |
| CaptureDelivery.HeldIsKept | crates/syntra-core/src/capture.rs:1459-1476 | kept presses change in no other way until they are sent, handed off from or let go of |
| CaptureDelivery.AcknowledgementSendsHeld | crates/syntra-core/src/capture.rs:907-921 | the acknowledgement brings the device everything kept, in order, and it takes input from then on |
| CaptureDelivery.EnteredExactlyByCrossing | crates/syntra-core/src/capture.rs:1223-1444 | in every run a captured event makes another device active exactly when it crosses freely, without a push where none is needed or with one completed, and reaches it |
| CaptureDelivery.CrossingEnters | crates/syntra-core/src/capture.rs:1223-1488 | a crossing tells the device first, which is then active and awaited with a deadline of its own unless it was active already |
| CaptureDelivery.TouchBeginsPush | crates/syntra-core/src/capture.rs:1366-1444 | where a push is needed the first touch begins one and sends nothing |
| CaptureDelivery.TouchAfterArrivalLetsGo | crates/syntra-core/src/capture.rs:1314-1334 | a touch right after another device's pointer came in lets the active device go |
| CaptureDelivery.OtherBarrierEndsPush | crates/syntra-core/src/capture.rs:1231-1248 | while a push is made, another barrier of the same edge is ignored and one of another edge ends the capture |
| CaptureDelivery.EntrySaysWhatIsKnown | crates/syntra-core/src/capture.rs:1490-1505 | an entry at a place names the place last reported; a plain one has none to name or follows an entry that was not answered |
| CaptureDelivery.HandoffEnters | crates/syntra-core/src/capture.rs:1532-1626 | a hand-off leaves the device and enters the next one by way of the device named |
| CaptureDelivery.HandoffEnds | crates/syntra-core/src/capture.rs:1532-1626 | home lets the device go, nowhere is refused to it, too early ends the capture |
| CaptureDelivery.StrangersHandNothingOn | crates/syntra-core/src/capture.rs:902-970 | acknowledgements, leave notices and hand-offs of devices that are not active do nothing |
| CaptureDelivery.DeadlineAsksAgain | crates/syntra-core/src/capture.rs:1507-1522 | the deadline of an entry at a place sends the plain entry with a new deadline |
| CaptureDelivery.ReleaseIsObeyed | crates/syntra-core/src/capture.rs:1710-1780 | release keys, a command or the device itself end the capture, the push and what was kept, with one farewell |
| CaptureDelivery.LeavingIsTold | crates/syntra-core/src/capture.rs:1532-1780 | a device that stops being active is told, unless the pointer crossed from it to another one here |
| CapturePush.EntryIsEarned | crates/syntra-core/src/capture.rs:1223-1444 | over every run with a fixed positive threshold, a device is entered from an edge only after a touch of its barrier and motion since that pushes out by the threshold |
| ClipboardEcho.NothingIsSharedTwice | crates/syntra-core/src/clipboard.rs:157-238 | in every interleaving of reader, writer and user, contents shared never exceed the user's copies plus the one there at the start and the rounds in which the writer neither read nor wrote |
| ClipboardEcho.NoEcho | crates/syntra-core/src/clipboard.rs:157-238 | content of a peer is not shared as the user's, as long as no round forgot it |
| ClipboardEcho.OnlyForgettingUnlearns | crates/syntra-core/src/clipboard.rs:157-238 | a peer's content on the desktop stays known over every step, except exactly the one that forgets it: finding nothing to read, failing to write, over content of a peer |
| ClipboardEcho.ForgettingEchoes | crates/syntra-core/src/clipboard.rs:157-238 | right after the first such step, reading the desktop shares the peer's content |
| ClipboardEcho.ForgettingWasQueuedBlank | crates/syntra-core/src/clipboard.rs:52-70 | what such a round tried to write was queued when nothing was on the books |
| ClipboardEcho.BlindRoundEchoes | crates/syntra-core/src/clipboard.rs:188-238 | a run that shares a peer's content though the user copied nothing |
| ClipboardEcho.NewContentIsShared | crates/syntra-core/src/clipboard.rs:40-51 | in every interleaving what the reader finds is shared exactly when it is not what was last seen, whatever happens until it is observed |
| ClipboardEcho.PeerContentArrives | crates/syntra-core/src/clipboard.rs:58-70 | what a peer sent reaches the desktop unless the user has copied since it was queued, and then the user's copy stays |
| ClipboardEcho.FirstSentIsTaken | crates/syntra-core/src/clipboard.rs:157-238 | what a peer sends while nothing is queued is what the writer takes next, with what was last seen when it came |
| ClipboardEcho.OriginIsRemembered | crates/syntra-core/src/clipboard.rs:39-71 | content seen again is told apart by whether the user or a peer put it there, and a refused write changes nothing |
| Layout.CrossingsComeInPairs | crates/syntra-api/src/layout.rs:134-175 | crossings come in opposite pairs with swapped spans exactly where the direction is not ambiguous |
| Layout.AmbiguousAreTiny | crates/syntra-api/src/layout.rs:134-148 | ambiguity takes summed widths or summed heights of at most four pixels |
| Layout.TinyMonitorsAreNotPaired | crates/syntra-api/src/layout.rs:134-148 | two monitors of two by two pixels cross to each other through the same side |
| Layout.EdgeIsWhereSidesMeet | crates/syntra-api/src/layout.rs:134-148 | a crossing leaves through a side that lies within the tolerance of the opposite side of the other monitor, and there is none exactly if no side does |
| Layout.MappingKeepsThePlane | crates/syntra-api/src/layout.rs:107-116 | a place maps exactly if it faces the other monitor, and then keeps its plane coordinate |
| Layout.AcrossAndBack | crates/syntra-api/src/layout.rs:107-116 | mapping across and back is the identity |
| Layout.Crossings | crates/syntra-api/src/layout.rs:118-132 | finds exactly the crossings between monitors of different devices |
| Layout.EveryCrossingHasAWayBack | crates/syntra-api/src/layout.rs:118-175 | among monitors of real size every crossing found has its reverse |
| Layout.Validate | crates/syntra-api/src/layout.rs:191-221 | accepts exactly the layouts with area, without overlaps and with every device linked, and says something true of the others |
| Layout.EveryDeviceIsReachable | crates/syntra-api/src/layout.rs:191-221 | in a valid layout of several devices the pointer can enter every device |
| Layout.Snap | crates/syntra-api/src/layout.rs:224-259 | on each axis the nearest aligned place within the threshold, or the wanted place |
| SpdxGrammar.RoundTrip | scripts/lib/spdx.js:40-89 | parsing the canonical printing of a normal tree gives the tree and consumes every token |
| SpdxGrammar.ReadsBack | scripts/lib/spdx.js:77-84 | also in front of anything that does not continue the expression |
| SpdxGrammar.ParsedIsNormal | scripts/lib/spdx.js:68-84 | the trees that parsing yields are exactly the normal ones |
| SpdxTokens.TokenizeUndoesRender | scripts/lib/spdx.js:30-38 | cutting tokens written out with spaces gives them back |
| SpdxTokens.SlashSeparates | scripts/lib/spdx.js:30-38 | whatever stands on its two sides, the old separator is cut as OR between them |
| SpdxParser.Parser.ReadTerm | scripts/lib/spdx.js:45-66 | the cursor reads a term as the grammar says, or fails as it does |
| SpdxParser.Parser.ReadConjunction | scripts/lib/spdx.js:68-75 | the loop over AND reads what the grammar reads |
| SpdxParser.Parser.ReadExpression | scripts/lib/spdx.js:77-84 | the loop over OR reads what the grammar reads |
| SpdxParser.ParseTokens | scripts/lib/spdx.js:40-89 | the parser succeeds exactly on whole expressions, with the tree of the grammar |
| SpdxPolicy.SatisfiedIsSomeChoice | scripts/lib/spdx.js:91-96 | an expression is satisfied exactly when some choice among its alternatives leaves only allowed terms |
| SpdxPolicy.SatisfiedIsMonotone | scripts/lib/spdx.js:91-96 | allowing more never turns a satisfied expression down |
| SpdxPolicy.Acceptable | scripts/lib/spdx.js:98-107 | approved exactly if the text can be read and such a choice exists |
| SpdxPolicy.WrittenOutReadsBack | scripts/lib/spdx.js:30-89 | a normal tree of plain names survives being written out as text |
| SpdxPolicy.SlashReadsAsOr | scripts/lib/spdx.js:30-89 | two alternatives written with the old separator are read as those two alternatives |

## Left out

- Sockets, encryption, discovery, interprocess framing, the compositor and portals, plugin processes, certificates, logging, the command line and the user interface.
- Of a staging directory that cannot be removed, only that it stays is recorded, not what is in it.
- Digests are an arbitrary function of the bytes; nothing is assumed about collisions.
- Notifications, progress reports and status snapshots of manual transfers, and the texts of errors beyond which one it is.
- Actions that the transfer manager emits, and its per-file progress counters, which feed only those actions; whether a plugin is mounted.
- Manual transfers move a record out of the table, change it and put it back; the model changes records as values, so nothing about aliasing is lost or stated.
- A delayed offer may create a settled and evicted record anew; lockstep and the absence of blame are stated until the first eviction, content safety throughout.
- Validation of file names for manual transfers is a yes or no given to the model; paths in the walk are Unix paths with distinct sibling names, and names that are not UTF-8 are not modelled.
- Serialization of history records: reassembly ends at the bytes, and whether they decode is not modelled. The order in which a boundary lists its origins is not modelled either.
- Rounding: places along edges, pushes and shares are real numbers. Overflow of plane coordinates is not modelled.
- Branches of the transfer manager that its own invariant rules out (a found name whose transfer carries another name, a pending range without its transfer) are proved unreachable by the agreement of the maps rather than modelled.
- `get_pos` of the capture task can be asked for a barrier that is gone; the model answers questions about barriers from outside and says nothing about that.
- Routing between several devices beyond the entry handshake, landing positions, held key release on leaving, reports of pressure, and the delivery of clipboard traffic by the capture task.
- Peer profiles and the in-order clipboard reassembly, which repeat the history reassembler in weaker form, and the small services around clients, back-off and round-trip smoothing.
- Layout.Crossings: states which crossings are found, not their order or number, because nothing reads them.
- Layout.Validate: which of several detached devices is named first is not modelled.
- Layout.Snap: which of several equally near places is taken is not stated.
- FileRead.OutgoingFile.NextChunkBounded: after a failure the position in the file is not specified, because the source gives the file up then.
